/** Agent backends: the closed set of backend names, the registry, each
    backend's skills directory, and the symlink lifecycle (list, install,
    uninstall, is-installed) on a skills directory. */
module Backends {
  import opened Wrappers
  import opened Paths
  import opened Skills

  // ---------------------------------------------------------------------
  // Names, registry and directory conventions

  datatype BackendName = Claude | Codex | Copilot | Crush | Cursor | Gemini | Opencode

  /** The enumeration's value, which is also each backend's `name`. */
  function Value(b: BackendName): string {
    match b
    case Claude => "claude"
    case Codex => "codex"
    case Copilot => "copilot"
    case Crush => "crush"
    case Cursor => "cursor"
    case Gemini => "gemini"
    case Opencode => "opencode"
  }

  /** The registry, in its insertion order. */
  const Registry: seq<BackendName> := [Claude, Codex, Copilot, Crush, Cursor, Gemini, Opencode]

  /** Every backend name is registered, exactly once. */
  lemma RegistryComplete(b: BackendName)
    ensures b in Registry
    ensures forall i, j :: 0 <= i < j < |Registry| ==> Registry[i] != Registry[j]
  {
  }

  /** The directory each tool keeps its configuration in. */
  function ConfigDir(b: BackendName): string {
    match b
    case Claude => ".claude"
    case Codex => ".codex"
    case Copilot => ".github"
    case Crush => ".crush"
    case Cursor => ".cursor"
    case Gemini => ".gemini"
    case Opencode => ".opencode"
  }

  /** `get_skills_dir(scope)`, with `home` for `Path.home()`. */
  function SkillsDirOf(b: BackendName, scope: Scope, home: Path): Path {
    match scope
    case Local => Path(false, [ConfigDir(b), "skills"])
    case Global => Path(home.absolute, home.parts + [ConfigDir(b), "skills"])
  }

  /** LOCAL is the relative `.<tool>/skills`, GLOBAL the same under the
      home directory; the tool is the backend's name, except that Copilot
      uses `.github`. */
  lemma SkillsDirConvention(b: BackendName, home: Path)
    ensures var tool := if b == Copilot then "github" else Value(b);
      SkillsDirOf(b, Local, home) == Path(false, ["." + tool, "skills"])
      && SkillsDirOf(b, Global, home) == Path(home.absolute, home.parts + ["." + tool, "skills"])
  {
    match b {
      case Claude => assert "." + "claude" == ".claude";
      case Codex => assert "." + "codex" == ".codex";
      case Copilot => assert "." + "github" == ".github";
      case Crush => assert "." + "crush" == ".crush";
      case Cursor => assert "." + "cursor" == ".cursor";
      case Gemini => assert "." + "gemini" == ".gemini";
      case Opencode => assert "." + "opencode" == ".opencode";
    }
  }

  /** No two backends share a skills directory. */
  lemma SkillsDirDistinct(b: BackendName, b': BackendName, scope: Scope, home: Path)
    requires b != b'
    ensures SkillsDirOf(b, scope, home) != SkillsDirOf(b', scope, home)
  {
    var p, p' := SkillsDirOf(b, scope, home).parts, SkillsDirOf(b', scope, home).parts;
    assert p[|p| - 2] == ConfigDir(b) && p'[|p'| - 2] == ConfigDir(b');
    assert ConfigDir(b)[1] != ConfigDir(b')[1] || ConfigDir(b)[2] != ConfigDir(b')[2];
  }

  // ---------------------------------------------------------------------
  // Directory entries and the pure lifecycle steps

  /** An entry of a skills directory: a symbolic link with its stored
      target, or anything else (a file or a directory). */
  datatype Entry = Symlink(target: Path) | Regular

  /** The entries of one directory by name. */
  type Dir = map<string, Entry>

  /** Where a link stored in the canonical directory `d` resolves to. */
  function LinkTarget(d: seq<string>, t: Path): seq<string> {
    Normalize(if t.absolute then t.parts else d + t.parts)
  }

  /** `(d / name).exists()`, which follows a link: a link exists only when
      its target does. */
  predicate EntryExists(d: seq<string>, e: Entry, existing: set<seq<string>>) {
    e.Regular? || LinkTarget(d, e.target) in existing
  }

  /** The links of a directory and where each resolves to: the facts
      `get_installed_skills` reports. */
  function Links(e: Dir, d: seq<string>): map<string, seq<string>> {
    map n | n in e && e[n].Symlink? :: LinkTarget(d, e[n].target)
  }

  /** `name` is a link in `e` that resolves to `target`. */
  predicate LinkedTo(e: Dir, d: seq<string>, name: string, target: seq<string>) {
    name in e && e[name].Symlink? && LinkTarget(d, e[name].target) == target
  }

  /** Why `install` fails: a non-link occupies the name (the ValueError
      "exists and is not a symlink"), or a dangling link does, on which
      creating the new link raises FileExistsError. */
  datatype InstallFailure = NotASymlink | DanglingLink

  datatype InstallStep = AlreadyInstalled | Linked | Failed(failure: InstallFailure)

  /** What `install` does with the entry `name` of directory `d` for a
      skill whose resolved path is `target`. */
  function InstallStepOf(e: Dir, d: seq<string>, name: string, target: seq<string>, existing: set<seq<string>>)
    : InstallStep
  {
    if name in e && EntryExists(d, e[name], existing) then
      if e[name].Regular? then Failed(NotASymlink)
      else if LinkTarget(d, e[name].target) == target then AlreadyInstalled
      else Linked
    else if name in e then Failed(DanglingLink)
    else Linked
  }

  /** The entries after `install`: on Linked, the name holds a new link
      whose stored target is relative to the directory. */
  function InstallEntries(e: Dir, d: seq<string>, name: string, target: seq<string>, existing: set<seq<string>>)
    : (r: Dir)
    ensures forall n :: n != name ==> (n in r <==> n in e)
    ensures forall n :: n in r && n != name ==> r[n] == e[n]
    ensures InstallStepOf(e, d, name, target, existing) != Linked ==> r == e
  {
    if InstallStepOf(e, d, name, target, existing) == Linked then e[name := Symlink(RelPath(target, d))] else e
  }

  /** The entries after `uninstall`: only a link is ever removed. */
  function UninstallEntries(e: Dir, name: string): (r: (bool, Dir))
    ensures r.0 <==> name in e && e[name].Symlink?
    ensures r.1.Keys == if r.0 then e.Keys - {name} else e.Keys
    ensures forall n :: n in r.1 ==> r.1[n] == e[n]
  {
    if name in e && e[name].Symlink? then (true, e - {name}) else (false, e)
  }

  /** The safety rule: install fails exactly when the name is occupied by
      a non-link (ValueError) or by a dangling link, and then changes
      nothing; in every outcome each non-link entry stays where it was. */
  lemma InstallSafety(e: Dir, d: seq<string>, name: string, target: seq<string>, existing: set<seq<string>>)
    ensures InstallStepOf(e, d, name, target, existing) == Failed(NotASymlink) <==> name in e && e[name].Regular?
    ensures InstallStepOf(e, d, name, target, existing) == Failed(DanglingLink) <==>
      name in e && e[name].Symlink? && LinkTarget(d, e[name].target) !in existing
    ensures InstallStepOf(e, d, name, target, existing).Failed? ==> InstallEntries(e, d, name, target, existing) == e
    ensures forall n :: n in e && e[n].Regular? ==>
      n in InstallEntries(e, d, name, target, existing) && InstallEntries(e, d, name, target, existing)[n] == Regular
  {
  }

  /** After a successful install the name is a link resolving to the
      skill's path: a new link is stored as a relative target, a link
      resolving elsewhere is replaced, and an existing correct link is
      kept. */
  lemma {:induction false} InstallLinks(e: Dir, d: seq<string>, name: string, target: seq<string>, existing: set<seq<string>>)
    requires Canonical(d) && Canonical(target)
    ensures var step := InstallStepOf(e, d, name, target, existing);
      !step.Failed? ==> LinkedTo(InstallEntries(e, d, name, target, existing), d, name, target)
    ensures InstallStepOf(e, d, name, target, existing) == Linked ==>
      InstallEntries(e, d, name, target, existing)[name] == Symlink(RelPath(target, d))
      && !RelPath(target, d).absolute
    ensures (name in e && e[name].Symlink? && LinkTarget(d, e[name].target) in existing
             && LinkTarget(d, e[name].target) != target) ==> InstallStepOf(e, d, name, target, existing) == Linked
  {
    RelPathResolves(target, d);
  }

  /** Installing is idempotent: once it has succeeded for a skill whose
      directory exists, installing again reports the link as already
      installed and changes nothing. */
  lemma {:induction false} InstallIdempotent(e: Dir, d: seq<string>, name: string, target: seq<string>, existing: set<seq<string>>)
    requires Canonical(d) && Canonical(target) && target in existing
    requires !InstallStepOf(e, d, name, target, existing).Failed?
    ensures var e' := InstallEntries(e, d, name, target, existing);
      InstallStepOf(e', d, name, target, existing) == AlreadyInstalled
      && InstallEntries(e', d, name, target, existing) == e'
  {
    InstallLinks(e, d, name, target, existing);
  }

  /** Without the skill directory the link just made dangles, and
      `exists()` follows it: installing again raises FileExistsError. */
  lemma InstallAgainDangles(e: Dir, d: seq<string>, name: string, target: seq<string>, existing: set<seq<string>>)
    requires Canonical(d) && Canonical(target) && target !in existing
    requires InstallStepOf(e, d, name, target, existing) == Linked
    ensures InstallStepOf(InstallEntries(e, d, name, target, existing), d, name, target, existing) == Failed(DanglingLink)
  {
    InstallLinks(e, d, name, target, existing);
  }

  /** Uninstalling a link that install created where nothing stood gives
      the directory back as it was. */
  lemma {:induction false} UninstallUndoesInstall(e: Dir, d: seq<string>, name: string, target: seq<string>, existing: set<seq<string>>)
    requires name !in e
    ensures var e' := InstallEntries(e, d, name, target, existing);
      UninstallEntries(e', name) == (true, e)
  {
    var e' := InstallEntries(e, d, name, target, existing);
    assert e' == e[name := Symlink(RelPath(target, d))];
    assert e' - {name} == e;
  }

  // ---------------------------------------------------------------------
  // The filesystem and the backend objects

  /** The part of the filesystem the installer touches. `dirs` holds the
      skills directories that exist, keyed by their canonical absolute
      path; `existing` is the set of canonical paths that exist outside
      them (skill directories, other link targets). */
  class FileSystem {
    const cwd: seq<string>
    const home: Path
    const existing: set<seq<string>>
    var dirs: map<seq<string>, Dir>

    constructor (cwd: seq<string>, home: Path, existing: set<seq<string>>, dirs: map<seq<string>, Dir>)
      ensures this.cwd == cwd && this.home == home && this.existing == existing && this.dirs == dirs
    {
      this.cwd := cwd;
      this.home := home;
      this.existing := existing;
      this.dirs := dirs;
    }
  }

  /** A backend instance: stateless apart from the filesystem it acts on. */
  class Backend {
    const name: BackendName
    const fs: FileSystem

    constructor (name: BackendName, fs: FileSystem)
      ensures this.name == name && this.fs == fs
    {
      this.name := name;
      this.fs := fs;
    }

    function SkillsDir(scope: Scope): Path {
      SkillsDirOf(name, scope, fs.home)
    }

    /** The skills directory as a canonical absolute path. */
    function DirKey(scope: Scope): seq<string> {
      AbsPath(fs.cwd, SkillsDir(scope))
    }

    /** The entries of the skills directory; none when it does not exist. */
    function Entries(scope: Scope): Dir
      reads fs
    {
      if DirKey(scope) in fs.dirs then fs.dirs[DirKey(scope)] else map[]
    }

    /** `get_installed_skills(scope)`: one (name, resolved target) pair per
      link, in the directory's listing order; nothing else. */
    method GetInstalledSkills(scope: Scope) returns (result: seq<(string, seq<string>)>)
      ensures DirKey(scope) !in fs.dirs ==> result == []
      ensures forall i :: 0 <= i < |result| ==>
        result[i].0 in Links(Entries(scope), DirKey(scope)) && result[i].1 == Links(Entries(scope), DirKey(scope))[result[i].0]
      ensures forall i, j :: 0 <= i < j < |result| ==> result[i].0 != result[j].0
      ensures forall n :: n in Links(Entries(scope), DirKey(scope)) ==> exists i :: 0 <= i < |result| && result[i].0 == n
    {
      result := [];
      var d := DirKey(scope);
      if d !in fs.dirs {
        return;
      }
      var entries := fs.dirs[d];
      ghost var links := Links(entries, d);
      var rest := entries.Keys;
      while rest != {}
        invariant rest <= entries.Keys
        invariant forall i :: 0 <= i < |result| ==>
          result[i].0 in links && result[i].1 == links[result[i].0] && result[i].0 !in rest
        invariant forall i, j :: 0 <= i < j < |result| ==> result[i].0 != result[j].0
        invariant forall n :: n in links && n !in rest ==> exists i :: 0 <= i < |result| && result[i].0 == n
        decreases rest
      {
        var n :| n in rest;
        ghost var before := result;
        if entries[n].Symlink? {
          result := result + [(n, LinkTarget(d, entries[n].target))];
          assert result[|result| - 1].0 == n;
        }
        assert forall i :: 0 <= i < |before| ==> result[i] == before[i];
        rest := rest - {n};
      }
    }

    /** `install(skill)`: creates the skills directory, then links
      `skills_dir / skill.name` to the skill unless it already is, and
      returns that path. */
    method Install(skill: Skill) returns (r: Result<Path, InstallError>)
      modifies fs
      ensures var d := DirKey(skill.scope);
        fs.dirs == old(fs.dirs)[d := InstallEntries(old(Entries(skill.scope)), d, skill.name, AbsPath(fs.cwd, skill.path), fs.existing)]
      ensures var step := InstallStepOf(old(Entries(skill.scope)), DirKey(skill.scope), skill.name, AbsPath(fs.cwd, skill.path), fs.existing);
        var at := Join(SkillsDir(skill.scope), skill.name);
        r == if step.Failed? then Err(InstallError(step.failure, at)) else Ok(at)
    ensures r.Ok? ==> IsInstalled(skill)
    {
      var d := DirKey(skill.scope);
      var entries := if d in fs.dirs then fs.dirs[d] else map[];
      ghost var e0 := entries;
      fs.dirs := fs.dirs[d := entries];  // mkdir(parents=True, exist_ok=True)
      var at := Join(SkillsDir(skill.scope), skill.name);
      var target := AbsPath(fs.cwd, skill.path);
      InstallLinks(e0, d, skill.name, target, fs.existing);
      if skill.name in entries && EntryExists(d, entries[skill.name], fs.existing) {
        if entries[skill.name].Symlink? {
          if LinkTarget(d, entries[skill.name].target) == target {
            return Ok(at);
          }
          entries := entries - {skill.name};  // unlink the link that resolves elsewhere
          fs.dirs := fs.dirs[d := entries];
        } else {
          return Err(InstallError(NotASymlink, at));
        }
      }
      if skill.name in entries {
        // creating the link over a dangling one raises FileExistsError
        return Err(InstallError(DanglingLink, at));
      }
      entries := entries[skill.name := Symlink(RelPath(target, d))];
      assert entries == e0[skill.name := Symlink(RelPath(target, d))];
      fs.dirs := fs.dirs[d := entries];
      r := Ok(at);
    }

    /** `uninstall(skill_name, scope)`: removes the entry only when it is a
      link, and says whether it did. */
    method Uninstall(skillName: string, scope: Scope) returns (removed: bool)
      modifies fs
      ensures removed == UninstallEntries(old(Entries(scope)), skillName).0
      ensures fs.dirs == if removed then old(fs.dirs)[DirKey(scope) := UninstallEntries(old(Entries(scope)), skillName).1]
                         else old(fs.dirs)
    {
      var d := DirKey(scope);
      if d in fs.dirs && skillName in fs.dirs[d] && fs.dirs[d][skillName].Symlink? {
        fs.dirs := fs.dirs[d := fs.dirs[d] - {skillName}];
        removed := true;
      } else {
        removed := false;
      }
    }

    /** `is_installed(skill)`: the name is a link resolving to the skill's
      resolved path, i.e. it is reported by GetInstalledSkills with that
      path. */
    function IsInstalled(skill: Skill): (b: bool)
      reads fs
      ensures b <==> var links := Links(Entries(skill.scope), DirKey(skill.scope));
        skill.name in links && links[skill.name] == AbsPath(fs.cwd, skill.path)
    {
      LinkedTo(Entries(skill.scope), DirKey(skill.scope), skill.name, AbsPath(fs.cwd, skill.path))
    }
  }

  /** The error `install` raises, with the link path it names. */
  datatype InstallError = InstallError(failure: InstallFailure, path: Path)

  /** Installing twice: the second call returns the same path and leaves
      the filesystem as the first call left it, once the skill's
      directory exists. */
  method InstallTwice(b: Backend, skill: Skill) returns (first: Result<Path, InstallError>, second: Result<Path, InstallError>)
    requires AbsPath(b.fs.cwd, skill.path) in b.fs.existing
    modifies b.fs
    ensures first.Ok? ==> second == first
    ensures var d := b.DirKey(skill.scope);
      first.Ok? ==>
        b.fs.dirs == old(b.fs.dirs)[d := InstallEntries(old(b.Entries(skill.scope)), d, skill.name, AbsPath(b.fs.cwd, skill.path), b.fs.existing)]
  {
    first := b.Install(skill);
    ghost var after := b.fs.dirs;
    var d := b.DirKey(skill.scope);
    if first.Ok? {
      ghost var e0 := old(b.Entries(skill.scope));
      ghost var target := AbsPath(b.fs.cwd, skill.path);
      InstallIdempotent(e0, d, skill.name, target, b.fs.existing);
    }
    second := b.Install(skill);
  }

  /** `get_backend(name)` */
  method GetBackend(name: BackendName, fs: FileSystem) returns (b: Backend)
    ensures fresh(b) && b.name == name && b.fs == fs
  {
    b := new Backend(name, fs);
  }

  /** `get_all_backends()`: one instance per registry entry, in order. */
  method GetAllBackends(fs: FileSystem) returns (bs: seq<Backend>)
    ensures |bs| == |Registry|
    ensures forall i :: 0 <= i < |bs| ==> fresh(bs[i]) && bs[i].name == Registry[i] && bs[i].fs == fs
  {
    bs := [];
    for i := 0 to |Registry|
      invariant |bs| == i
      invariant forall k :: 0 <= k < i ==> fresh(bs[k]) && bs[k].name == Registry[k] && bs[k].fs == fs
    {
      var b := new Backend(Registry[i], fs);
      bs := bs + [b];
    }
  }
}
