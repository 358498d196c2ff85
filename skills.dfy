/** Skills: the two scopes and their order, the Skill value and its order,
    the SKILL.md front-matter parser, loading a skill from its directory,
    and discovery of local and global skills. */
module Skills {
  import opened Wrappers
  import opened Paths

  // ---------------------------------------------------------------------
  // Scope

  /** Where a skill comes from: the project's pixi environment or the
      user's global pixi environments. */
  datatype Scope = Local | Global

  /** Position in the enumeration's declaration order. */
  function ScopeIndex(s: Scope): nat {
    match s
    case Local => 0
    case Global => 1
  }

  /** `Scope.__lt__`: compares declaration positions. */
  predicate ScopeLess(a: Scope, b: Scope) {
    ScopeIndex(a) < ScopeIndex(b)
  }

  /** `Scope.__le__` */
  predicate ScopeLessEq(a: Scope, b: Scope) {
    a == b || ScopeLess(a, b)
  }

  /** `Scope.__gt__` */
  predicate ScopeGreater(a: Scope, b: Scope) {
    ScopeLess(b, a)
  }

  /** `Scope.__ge__` */
  predicate ScopeGreaterEq(a: Scope, b: Scope) {
    a == b || ScopeGreater(a, b)
  }

  /** The four comparisons form one strict total order on the two scopes,
      LOCAL first. */
  lemma ScopeTotalOrder(a: Scope, b: Scope, c: Scope)
    ensures ScopeLess(Local, Global) && !ScopeLess(Global, Local)
    ensures !ScopeLess(a, a)
    ensures ScopeLess(a, b) && ScopeLess(b, c) ==> ScopeLess(a, c)
    ensures a == b || ScopeLess(a, b) || ScopeLess(b, a)
    ensures ScopeLessEq(a, b) <==> !ScopeGreater(a, b)
    ensures ScopeGreaterEq(a, b) <==> !ScopeLess(a, b)
  {
  }

  // ---------------------------------------------------------------------
  // Skill and its order

  /** A skill found on disk. Only `scope` and `name` take part in
      comparisons and equality; `description` and `path` do not. */
  datatype Skill = Skill(scope: Scope, name: string, description: string, path: Path)

  /** Python's `str.__lt__`: lexicographic on code points. */
  predicate StrLess(a: string, b: string)
    decreases |a|
  {
    if a == [] then b != []
    else if b == [] then false
    else if a[0] != b[0] then a[0] < b[0]
    else StrLess(a[1..], b[1..])
  }

  lemma {:induction false} StrLessIrreflexive(a: string)
    ensures !StrLess(a, a)
    decreases |a|
  {
    if a != [] {
      StrLessIrreflexive(a[1..]);
    }
  }

  lemma {:induction false} StrLessTransitive(a: string, b: string, c: string)
    requires StrLess(a, b) && StrLess(b, c)
    ensures StrLess(a, c)
    decreases |a|
  {
    if a != [] && b != [] && c != [] && a[0] == b[0] == c[0] {
      StrLessTransitive(a[1..], b[1..], c[1..]);
    }
  }

  lemma {:induction false} StrLessTotal(a: string, b: string)
    ensures a == b || StrLess(a, b) || StrLess(b, a)
    decreases |a|
  {
    if a != [] && b != [] && a[0] == b[0] {
      StrLessTotal(a[1..], b[1..]);
      if a[1..] == b[1..] {
        assert a == [a[0]] + a[1..] && b == [b[0]] + b[1..];
      }
    }
  }

  /** `Skill.__eq__`: same scope and same name. */
  predicate SameKey(a: Skill, b: Skill) {
    a.scope == b.scope && a.name == b.name
  }

  /** `Skill.__lt__`: the tuples (scope, name) compared lexicographically. */
  predicate SkillLess(a: Skill, b: Skill) {
    if a.scope != b.scope then ScopeLess(a.scope, b.scope) else StrLess(a.name, b.name)
  }

  /** Skill comparison is a strict order that is total up to equality of
      (scope, name), puts every LOCAL skill before every GLOBAL one, and
      ignores description and path. */
  lemma SkillOrder(a: Skill, b: Skill, c: Skill)
    ensures !SkillLess(a, a)
    ensures SkillLess(a, b) && SkillLess(b, c) ==> SkillLess(a, c)
    ensures SameKey(a, b) || SkillLess(a, b) || SkillLess(b, a)
    ensures a.scope == Local && b.scope == Global ==> SkillLess(a, b)
    ensures SameKey(b, c) ==> (SkillLess(a, b) <==> SkillLess(a, c)) && (SkillLess(b, a) <==> SkillLess(c, a))
  {
    StrLessIrreflexive(a.name);
    StrLessTotal(a.name, b.name);
    if SkillLess(a, b) && SkillLess(b, c) && a.scope == b.scope == c.scope {
      StrLessTransitive(a.name, b.name, c.name);
    }
  }

  /** "Not greater" is transitive as well; sorting relies on it. */
  lemma NotLessTransitive(a: Skill, b: Skill, c: Skill)
    requires !SkillLess(b, a) && !SkillLess(c, b)
    ensures !SkillLess(c, a)
  {
    SkillOrder(a, b, c);
    SkillOrder(c, a, b);
    SkillOrder(b, c, a);
  }

  /** Non-decreasing by (scope, name). */
  predicate Sorted(s: seq<Skill>) {
    forall i, j :: 0 <= i < j < |s| ==> !SkillLess(s[j], s[i])
  }

  /** A sorted sequence stays sorted with a smallest element in front. */
  lemma SortedCons(h: Skill, t: seq<Skill>)
    requires Sorted(t)
    requires forall y :: y in t ==> !SkillLess(y, h)
    ensures Sorted([h] + t)
  {
    var r := [h] + t;
    forall i, j | 0 <= i < j < |r| ensures !SkillLess(r[j], r[i]) {
      assert r[j] == t[j - 1];
      if i > 0 {
        assert r[i] == t[i - 1];
      }
    }
  }

  /** Insert `x` before the first element that is not smaller than it. */
  function Insert(x: Skill, s: seq<Skill>): (r: seq<Skill>)
    requires Sorted(s)
    ensures Sorted(r)
    ensures multiset(r) == multiset(s) + multiset{x}
  {
    if s == [] || !SkillLess(s[0], x) then
      forall y | y in s ensures !SkillLess(y, x) {
        var j :| 0 <= j < |s| && s[j] == y;
        if j > 0 { NotLessTransitive(x, s[0], s[j]); }
      }
      SortedCons(x, s);
      [x] + s
    else
      var r' := Insert(x, s[1..]);
      assert s == [s[0]] + s[1..];
      forall y | y in r' ensures !SkillLess(y, s[0]) {
        assert y in multiset(r');
        if y == x {
          SkillOrder(x, s[0], x);
        } else {
          assert s[1..][0] == s[1];
          var j :| 0 <= j < |s[1..]| && s[1..][j] == y;
          assert y == s[j + 1];
        }
      }
      SortedCons(s[0], r');
      [s[0]] + r'
  }

  /** Python's `sorted(skills)`: ordered by (scope, name), stably (see
      `SortSkillsStable`). */
  function SortSkills(s: seq<Skill>): (r: seq<Skill>)
    ensures Sorted(r)
    ensures multiset(r) == multiset(s)
  {
    if s == [] then []
    else
      assert s == [s[0]] + s[1..];
      Insert(s[0], SortSkills(s[1..]))
  }

  /** The skills of `s` that compare equal to `k`, in their order in `s`. */
  function WithKey(s: seq<Skill>, k: Skill): seq<Skill> {
    if s == [] then []
    else (if SameKey(s[0], k) then [s[0]] else []) + WithKey(s[1..], k)
  }

  /** Inserting `x` puts it before every skill that compares equal to it. */
  lemma {:induction false} InsertWithKey(x: Skill, s: seq<Skill>, k: Skill)
    requires Sorted(s)
    ensures WithKey(Insert(x, s), k) == (if SameKey(x, k) then [x] else []) + WithKey(s, k)
  {
    if s == [] || !SkillLess(s[0], x) {
      assert ([x] + s)[1..] == s;
    } else {
      InsertWithKey(x, s[1..], k);
      assert ([s[0]] + Insert(x, s[1..]))[1..] == Insert(x, s[1..]);
      if SameKey(x, k) && SameKey(s[0], k) {
        StrLessIrreflexive(x.name);
      }
    }
  }

  /** `sorted` is stable: skills that compare equal keep their order. */
  lemma {:induction false} SortSkillsStable(s: seq<Skill>, k: Skill)
    ensures WithKey(SortSkills(s), k) == WithKey(s, k)
  {
    if s != [] {
      SortSkillsStable(s[1..], k);
      InsertWithKey(s[0], SortSkills(s[1..]), k);
    }
  }

  /** After sorting, every LOCAL skill precedes every GLOBAL skill. */
  lemma SortedLocalFirst(s: seq<Skill>, i: nat, j: nat)
    requires Sorted(s) && i < |s| && j < |s|
    requires s[i].scope == Local && s[j].scope == Global
    ensures i < j
  {
    if j <= i {
      assert i != j;
      assert !SkillLess(s[i], s[j]);
      SkillOrder(s[i], s[j], s[j]);
    }
  }

  // ---------------------------------------------------------------------
  // SKILL.md front matter

  /** A YAML value after `str()` coercion, or YAML null. */
  datatype Scalar = Null | Text(str: string)

  /** What `yaml.safe_load` makes of the front-matter block: a syntax error
      (yaml.YAMLError, which is not a ValueError), a document that is not a
      mapping, or a mapping. */
  datatype YamlDoc = Malformed | NotAMapping | Mapping(fields: map<string, Scalar>)

  /** The YAML reader, taken as a given function of the text. */
  type YamlLoader = string -> YamlDoc

  /** Why a skill directory could not be loaded. Every kind except
      YamlSyntaxError is raised as ValueError. */
  datatype ManifestError =
    | NoSkillMd                 // "No SKILL.md found"
    | NoFrontMatter             // "must start with YAML frontmatter"
    | UnterminatedFrontMatter   // "Invalid YAML frontmatter": no closing delimiter
    | InvalidFrontMatter        // "Invalid YAML frontmatter": not a mapping
    | MissingDescription        // "Missing 'description'"
    | YamlSyntaxError           // raised by the YAML reader itself

  predicate IsValueError(e: ManifestError) {
    !e.YamlSyntaxError?
  }

  /** The parsed front matter: an optional name and the description. */
  datatype Manifest = Manifest(name: Option<string>, description: string)

  /** Characters matched by `\s` in a str pattern (those for which
      `str.isspace()` holds). */
  predicate IsSpace(c: char) {
    var n := c as int;
    (9 <= n <= 13) || (28 <= n <= 32) || n == 0x85 || n == 0xA0 || n == 0x1680
    || (0x2000 <= n <= 0x200A) || n == 0x2028 || n == 0x2029 || n == 0x202F
    || n == 0x205F || n == 0x3000
  }

  /** `\s*\n` matches at position `j` of `s`. */
  predicate SpacesThenNewline(s: string, j: nat)
    decreases |s| - j
  {
    j < |s| && (s[j] == '\n' || (IsSpace(s[j]) && SpacesThenNewline(s, j + 1)))
  }

  /** A line break followed by "---" starts at position `i`. */
  predicate DelimiterAt(s: string, i: nat) {
    i + 4 <= |s| && s[i..i + 4] == "\n---"
  }

  /** The closing delimiter pattern `\n---\s*\n` matches at position `i`. */
  predicate ClosesAt(s: string, i: nat) {
    DelimiterAt(s, i) && SpacesThenNewline(s, i + 4)
  }

  /** `i` is where `re.search` finds the closing delimiter: the leftmost match. */
  predicate IsFirstClose(s: string, i: nat) {
    ClosesAt(s, i) && forall j :: 0 <= j < i ==> !ClosesAt(s, j)
  }

  /** Leftmost match of the closing delimiter at or after `i`. */
  function FindClose(s: string, i: nat): (r: Option<nat>)
    ensures r.Some? ==> r.value + 4 <= |s|
    decreases |s| - i
  {
    if i + 4 > |s| then None
    else if ClosesAt(s, i) then Some(i)
    else FindClose(s, i + 1)
  }

  /** FindClose finds the leftmost match at or after `i`, and None means
      there is none. */
  lemma {:induction false} FindCloseSpec(s: string, i: nat)
    ensures var r := FindClose(s, i);
      (r.Some? ==> i <= r.value && ClosesAt(s, r.value) && forall j :: i <= j < r.value ==> !ClosesAt(s, j))
      && (r.None? ==> forall j :: i <= j ==> !ClosesAt(s, j))
    decreases |s| - i
  {
    if i + 4 <= |s| && !ClosesAt(s, i) {
      FindCloseSpec(s, i + 1);
    }
  }

  predicate StartsWithDelimiter(content: string) {
    |content| >= 3 && content[..3] == "---"
  }

  /** `data.get(key)` followed by `str()`: absent keys and nulls give None. */
  function Field(fields: map<string, Scalar>, key: string): Option<string> {
    if key in fields && fields[key].Text? then Some(fields[key].str) else None
  }

  /** The checks made on the loaded front matter. */
  function ReadFields(doc: YamlDoc): (r: Result<Manifest, ManifestError>)
    ensures doc.Malformed? ==> r == Err(YamlSyntaxError)
    ensures doc.NotAMapping? ==> r == Err(InvalidFrontMatter)
    ensures doc.Mapping? ==> (r.Ok? <==> Field(doc.fields, "description").Some?)
    ensures doc.Mapping? && r.Err? ==> r.error == MissingDescription
    ensures r.Ok? ==> doc.Mapping? && Some(r.value.description) == Field(doc.fields, "description")
    ensures r.Ok? ==> r.value.name == Field(doc.fields, "name")
  {
    match doc
    case Malformed => Err(YamlSyntaxError)
    case NotAMapping => Err(InvalidFrontMatter)
    case Mapping(fields) =>
      match Field(fields, "description")
      case None => Err(MissingDescription)
      case Some(description) => Ok(Manifest(Field(fields, "name"), description))
  }

  /** `parse_skill_md` on the file's text. */
  function ParseSkillMd(content: string, load: YamlLoader): Result<Manifest, ManifestError> {
    if !StartsWithDelimiter(content) then Err(NoFrontMatter)
    else
      var s := content[3..];
      match FindClose(s, 0)
      case None => Err(UnterminatedFrontMatter)
      case Some(k) => ReadFields(load(s[..k]))
  }

  /** Parsing fails with "must start with YAML frontmatter" exactly when
      the text does not start with "---", fails as unterminated exactly
      when no closing delimiter follows, and otherwise reads the block up
      to the leftmost closing delimiter. */
  lemma ParseSkillMdSpec(content: string, load: YamlLoader)
    ensures var r := ParseSkillMd(content, load);
      (r == Err(NoFrontMatter) <==> !StartsWithDelimiter(content))
      && (r == Err(UnterminatedFrontMatter) <==>
            StartsWithDelimiter(content) && forall j :: !ClosesAt(content[3..], j))
      && forall k: nat :: StartsWithDelimiter(content) && IsFirstClose(content[3..], k) ==>
           k <= |content| - 3 && r == ReadFields(load(content[3..3 + k]))
  {
    if StartsWithDelimiter(content) {
      var s := content[3..];
      FindCloseSpec(s, 0);
      match FindClose(s, 0)
      case None =>
      case Some(k) =>
        assert forall k': nat :: IsFirstClose(s, k') ==> k' == k;
        assert s[..k] == content[3..3 + k];
    }
  }

  /** A manifest made of the delimiter, a front-matter block `fm` that
      contains no line starting with "---", the closing delimiter line and
      any body parses as the YAML reading of exactly `fm`. */
  lemma {:induction false} ParseFrontMatterBlock(fm: string, body: string, load: YamlLoader)
    requires forall j :: !DelimiterAt(fm, j)
    ensures ParseSkillMd("---" + fm + "\n---\n" + body, load) == ReadFields(load(fm))
  {
    var content := "---" + fm + "\n---\n" + body;
    var s := content[3..];
    assert content[..3] == "---";
    assert s == fm + "\n---\n" + body;
    var k := |fm|;
    assert s[k..k + 4] == "\n---";
    assert s[k + 4] == '\n';
    assert ClosesAt(s, k);
    forall j | 0 <= j < k ensures !ClosesAt(s, j) {
      if j + 4 <= |fm| {
        assert s[j..j + 4] == fm[j..j + 4];
        assert !DelimiterAt(fm, j);
      } else {
        // the window straddles the end of fm: its character at offset
        // |fm| - j is the '\n' of the closing delimiter, not '-'
        assert s[j..j + 4][|fm| - j] == s[|fm|] == '\n';
      }
    }
    assert IsFirstClose(s, k);
    assert content[3..3 + k] == fm;
    ParseSkillMdSpec(content, load);
  }

  // ---------------------------------------------------------------------
  // Loading one skill directory

  /** `Skill.from_directory`: `manifest` is the text of `path/SKILL.md`,
      None when that file does not exist. */
  function FromDirectory(path: Path, scope: Scope, manifest: Option<string>, load: YamlLoader)
    : Result<Skill, ManifestError>
  {
    match manifest
    case None => Err(NoSkillMd)
    case Some(content) =>
      match ParseSkillMd(content, load)
      case Err(e) => Err(e)
      case Ok(m) => Ok(Skill(scope, m.name.GetOr(Name(path)), m.description, path))
  }

  /** Loading fails with "No SKILL.md found" when the file is missing and
      with the parser's error when parsing fails; a loaded skill keeps the
      scope and the path, and takes its name from the front matter, or
      from the directory when the front matter has none. */
  lemma FromDirectorySpec(path: Path, scope: Scope, manifest: Option<string>, load: YamlLoader)
    ensures var r := FromDirectory(path, scope, manifest, load);
      (manifest.None? ==> r == Err(NoSkillMd))
      && (manifest.Some? && ParseSkillMd(manifest.value, load).Err? ==>
            r == Err(ParseSkillMd(manifest.value, load).error))
      && (r.Ok? ==>
            manifest.Some? && ParseSkillMd(manifest.value, load).Ok? && r.value.scope == scope && r.value.path == path)
      && (r.Ok? ==>
            var m := ParseSkillMd(manifest.value, load).value;
            && r.value.description == m.description
            && (m.name.Some? ==> r.value.name == m.name.value)
            && (m.name.None? ==> r.value.name == Name(path)))
  {
  }

  // ---------------------------------------------------------------------
  // Discovery

  /** An entry of a listed directory: its name, whether it is a directory,
      and the text of its SKILL.md when that file exists. */
  datatype DirEntry = DirEntry(name: string, isDir: bool, manifest: Option<string>)

  /** An entry of `~/.pixi/envs`: its name and the listing of its
      `share/agent-skills` directory, when that exists. */
  datatype EnvDir = EnvDir(name: string, agentSkills: Option<seq<DirEntry>>)

  /** What discovery reads: for each local environment whose
      `.pixi/envs/<env>/share/agent-skills` exists, its listing; the
      listing of `~/.pixi/envs` when it exists; and the YAML reader.
      Listings are in the (unspecified) order the filesystem yields. */
  datatype Sources = Sources(local: map<string, seq<DirEntry>>, global: Option<seq<EnvDir>>, load: YamlLoader)

  /** A path offered to discovery. */
  datatype Candidate = Candidate(path: Path, isDir: bool, manifest: Option<string>)

  /** "Skipping invalid skill at <path>: <error>" */
  datatype Warning = Warning(path: Path, error: ManifestError)

  const GlobalEnvPrefix := "agent-skill-"

  function LocalBase(env: string): Path {
    Path(false, [".pixi", "envs", env, "share", "agent-skills"])
  }

  function GlobalRoot(home: Path): Path {
    Path(home.absolute, home.parts + [".pixi", "envs"])
  }

  function EntryCandidates(base: Path, listing: seq<DirEntry>): (r: seq<Candidate>)
    ensures |r| == |listing|
    ensures forall i :: 0 <= i < |r| ==> r[i] == Candidate(Join(base, listing[i].name), listing[i].isDir, listing[i].manifest)
  {
    if listing == [] then []
    else
      var e := listing[|listing| - 1];
      EntryCandidates(base, listing[..|listing| - 1]) + [Candidate(Join(base, e.name), e.isDir, e.manifest)]
  }

  predicate HasPrefix(s: string, prefix: string) {
    |prefix| <= |s| && s[..|prefix|] == prefix
  }

  /** The entries of `~/.pixi/envs/<env>/share/agent-skills` of one
      environment, as matched by the glob pattern
      `agent-skill-<any>/share/agent-skills/<any>`. */
  function EnvCandidates(home: Path, e: EnvDir): seq<Candidate> {
    if HasPrefix(e.name, GlobalEnvPrefix) && e.agentSkills.Some? then
      EntryCandidates(Path(home.absolute, GlobalRoot(home).parts + [e.name, "share", "agent-skills"]), e.agentSkills.value)
    else []
  }

  function GlobalCandidates(home: Path, envs: seq<EnvDir>): seq<Candidate> {
    if envs == [] then []
    else GlobalCandidates(home, envs[..|envs| - 1]) + EnvCandidates(home, envs[|envs| - 1])
  }

  /** A directory that directly contains SKILL.md. */
  predicate Qualifies(c: Candidate) {
    c.isDir && c.manifest.Some?
  }

  function Load(c: Candidate, scope: Scope, load: YamlLoader): Result<Skill, ManifestError> {
    FromDirectory(c.path, scope, c.manifest, load)
  }

  /** One step of the scan: skip a non-qualifying entry, keep a loaded
      skill, turn a failure into a warning. */
  function Visit(acc: (seq<Skill>, seq<Warning>), c: Candidate, scope: Scope, load: YamlLoader)
    : (seq<Skill>, seq<Warning>)
  {
    if !Qualifies(c) then acc
    else match Load(c, scope, load)
      case Ok(s) => (acc.0 + [s], acc.1)
      case Err(e) => (acc.0, acc.1 + [Warning(c.path, e)])
  }

  /** The scan over `cands` in order, skipping and warning on every
      directory that fails to load. */
  function Discover(cands: seq<Candidate>, scope: Scope, load: YamlLoader): (seq<Skill>, seq<Warning>) {
    if cands == [] then ([], [])
    else Visit(Discover(cands[..|cands| - 1], scope, load), cands[|cands| - 1], scope, load)
  }

  /** The scan as the source writes it: only ValueError is caught, so a
      front-matter block the YAML reader rejects ends the whole scan. */
  function DiscoverAsWritten(cands: seq<Candidate>, scope: Scope, load: YamlLoader)
    : Result<(seq<Skill>, seq<Warning>), ManifestError>
  {
    if cands == [] then Ok(([], []))
    else
      var c := cands[|cands| - 1];
      match DiscoverAsWritten(cands[..|cands| - 1], scope, load)
      case Err(e) => Err(e)
      case Ok(acc) =>
        if Qualifies(c) && Load(c, scope, load).Err? && !IsValueError(Load(c, scope, load).error)
        then Err(Load(c, scope, load).error)
        else Ok(Visit(acc, c, scope, load))
  }

  function QualifyingCount(cands: seq<Candidate>): nat {
    if cands == [] then 0
    else QualifyingCount(cands[..|cands| - 1]) + (if Qualifies(cands[|cands| - 1]) then 1 else 0)
  }

  /** Every discovered skill carries the scope it was discovered for. */
  lemma {:induction false} DiscoverScope(cands: seq<Candidate>, scope: Scope, load: YamlLoader)
    ensures forall s :: s in Discover(cands, scope, load).0 ==> s.scope == scope
  {
    if cands != [] {
      DiscoverScope(cands[..|cands| - 1], scope, load);
    }
  }

  /** Each qualifying directory yields exactly one skill or one warning;
      the rest yield nothing. */
  lemma {:induction false} DiscoverCount(cands: seq<Candidate>, scope: Scope, load: YamlLoader)
    ensures |Discover(cands, scope, load).0| + |Discover(cands, scope, load).1| == QualifyingCount(cands)
  {
    if cands != [] {
      DiscoverCount(cands[..|cands| - 1], scope, load);
    }
  }

  /** The skills found are exactly the loads of qualifying directories that
      succeeded, and the warnings exactly the ones that failed. */
  lemma {:induction false} DiscoverMembers(cands: seq<Candidate>, scope: Scope, load: YamlLoader)
    ensures forall s :: s in Discover(cands, scope, load).0 <==>
      exists c :: c in cands && Qualifies(c) && Load(c, scope, load) == Ok(s)
    ensures forall w :: w in Discover(cands, scope, load).1 <==>
      exists c :: c in cands && Qualifies(c) && Load(c, scope, load).Err?
                  && w == Warning(c.path, Load(c, scope, load).error)
  {
    if cands != [] {
      var init, c := cands[..|cands| - 1], cands[|cands| - 1];
      DiscoverMembers(init, scope, load);
      assert cands == init + [c];
      assert forall x :: x in cands <==> x in init || x == c;
    }
  }

  /** Where no directory's front matter is rejected by the YAML reader, the
      scan as written agrees with the tolerant scan. */
  lemma {:induction false} DiscoverAsWrittenAgrees(cands: seq<Candidate>, scope: Scope, load: YamlLoader)
    requires forall c :: c in cands && Qualifies(c) ==> Load(c, scope, load) != Err(YamlSyntaxError)
    ensures DiscoverAsWritten(cands, scope, load) == Ok(Discover(cands, scope, load))
  {
    if cands != [] {
      var init := cands[..|cands| - 1];
      assert forall c :: c in init ==> c in cands;
      DiscoverAsWrittenAgrees(init, scope, load);
    }
  }

  /** One directory whose SKILL.md front matter is not valid YAML: the scan
      as written stops with the YAML error and returns no skills at all,
      where the tolerant scan reports one warning. */
  lemma DiscoverAsWrittenAborts()
    ensures var c := Candidate(Path(false, ["broken"]), true, Some("---\n[\n---\n"));
      var load: YamlLoader := _ => Malformed;
      DiscoverAsWritten([c], Local, load) == Err(YamlSyntaxError)
      && Discover([c], Local, load) == ([], [Warning(c.path, YamlSyntaxError)])
  {
    var c := Candidate(Path(false, ["broken"]), true, Some("---\n[\n---\n"));
    var load: YamlLoader := _ => Malformed;
    var content := c.manifest.value;
    assert content == "---" + "\n[" + "\n---\n" + "";
    ParseFrontMatterBlock("\n[", "", load);
    assert [c][..0] == [];
    assert Load(c, Local, load) == Err(YamlSyntaxError);
    assert [] + [Warning(c.path, YamlSyntaxError)] == [Warning(c.path, YamlSyntaxError)];
  }

  function LocalCandidates(env: string, src: Sources): seq<Candidate> {
    if env in src.local then EntryCandidates(LocalBase(env), src.local[env]) else []
  }

  function GlobalDiscovered(home: Path, src: Sources): seq<Candidate> {
    if src.global.Some? then GlobalCandidates(home, src.global.value) else []
  }

  /** One entry of a discovery loop: a directory holding SKILL.md is
      loaded, and a failure to load it becomes a warning. After the
      candidates `done`, the scan is one candidate further. */
  method ScanOne(skills: seq<Skill>, warnings: seq<Warning>, c: Candidate, scope: Scope, load: YamlLoader,
                 ghost done: seq<Candidate>)
    returns (skills': seq<Skill>, warnings': seq<Warning>)
    requires (skills, warnings) == Discover(done, scope, load)
    ensures (skills', warnings') == Discover(done + [c], scope, load)
  {
    assert (done + [c])[..|done|] == done;
    skills', warnings' := skills, warnings;
    if c.isDir && c.manifest.Some? {
      var loaded := FromDirectory(c.path, scope, c.manifest, load);
      match loaded {
        case Ok(s) => skills' := skills + [s];
        case Err(e) => warnings' := warnings + [Warning(c.path, e)];
      }
    }
  }

  /** The loop over one listed directory: every entry in listing order,
      continuing the scan after the candidates `done`. */
  method ScanListing(skills: seq<Skill>, warnings: seq<Warning>, base: Path, listing: seq<DirEntry>, scope: Scope,
                     load: YamlLoader, ghost done: seq<Candidate>)
    returns (skills': seq<Skill>, warnings': seq<Warning>)
    requires (skills, warnings) == Discover(done, scope, load)
    ensures (skills', warnings') == Discover(done + EntryCandidates(base, listing), scope, load)
  {
    ghost var more := EntryCandidates(base, listing);
    skills', warnings' := skills, warnings;
    assert done + more[..0] == done;
    for j := 0 to |listing|
      invariant (skills', warnings') == Discover(done + more[..j], scope, load)
    {
      var c := Candidate(Join(base, listing[j].name), listing[j].isDir, listing[j].manifest);
      assert more[..j + 1] == more[..j] + [c];
      assert done + more[..j + 1] == (done + more[..j]) + [c];
      skills', warnings' := ScanOne(skills', warnings', c, scope, load, done + more[..j]);
    }
    assert more[..|listing|] == more;
  }

  /** `discover_local_skills(env)` */
  method DiscoverLocalSkills(env: string, src: Sources) returns (skills: seq<Skill>, warnings: seq<Warning>)
    ensures env !in src.local ==> skills == [] && warnings == []
    ensures (skills, warnings) == Discover(LocalCandidates(env, src), Local, src.load)
  {
    skills, warnings := [], [];
    if env in src.local {
      skills, warnings := ScanListing(skills, warnings, LocalBase(env), src.local[env], Local, src.load, []);
      assert [] + EntryCandidates(LocalBase(env), src.local[env]) == LocalCandidates(env, src);
    }
  }

  /** `discover_global_skills()`, with `home` for `Path.home()`. */
  method DiscoverGlobalSkills(home: Path, src: Sources) returns (skills: seq<Skill>, warnings: seq<Warning>)
    ensures src.global.None? ==> skills == [] && warnings == []
    ensures (skills, warnings) == Discover(GlobalDiscovered(home, src), Global, src.load)
  {
    skills, warnings := [], [];
    if src.global.Some? {
      var envs := src.global.value;
      for i := 0 to |envs|
        invariant (skills, warnings) == Discover(GlobalCandidates(home, envs[..i]), Global, src.load)
      {
        assert envs[..i + 1][..i] == envs[..i];
        ghost var done := GlobalCandidates(home, envs[..i]);
        assert GlobalCandidates(home, envs[..i + 1]) == done + EnvCandidates(home, envs[i]);
        var e := envs[i];
        if HasPrefix(e.name, GlobalEnvPrefix) && e.agentSkills.Some? {
          var base := Path(home.absolute, GlobalRoot(home).parts + [e.name, "share", "agent-skills"]);
          skills, warnings := ScanListing(skills, warnings, base, e.agentSkills.value, Global, src.load, done);
        } else {
          assert done + [] == done;
        }
      }
      assert envs[..|envs|] == envs;
    }
  }
}
