/** The command layer: the --env/--scope rule and scope narrowing of `list`
    and `manage`, the reconciliation delta of `manage`, and applying it to
    a backend best-effort (installs first, then uninstalls). Prompts are
    outside collaborators whose answers are inputs. */
module Cli {
  import opened Wrappers
  import opened Paths
  import opened Skills
  import opened Backends
  import Selector

  const DefaultEnv := "default"

  // ---------------------------------------------------------------------
  // Option validation and scope narrowing

  /** A non-default environment only makes sense for LOCAL scope. */
  predicate EnvScopeConflict(scope: Option<Scope>, env: string) {
    scope == Some(Global) && env != DefaultEnv
  }

  /** The scopes `list` scans, in order, or the exit code 1. */
  function ListScopes(scope: Option<Scope>, env: string): (r: Result<seq<Scope>, int>)
    ensures r.Err? <==> EnvScopeConflict(scope, env)
    ensures r.Err? ==> r.error == 1
    ensures r.Ok? ==> |r.value| >= 1 && forall i, j :: 0 <= i < j < |r.value| ==> ScopeLess(r.value[i], r.value[j])
    ensures r.Ok? && env != DefaultEnv ==> r.value == [Local]
    ensures r.Ok? && scope.Some? ==> r.value == [scope.value]
    ensures scope.None? && env == DefaultEnv ==> r == Ok([Local, Global])
  {
    match scope
    case Some(Global) => if env != DefaultEnv then Err(1) else Ok([Global])
    case Some(Local) => Ok([Local])
    case None => if env != DefaultEnv then Ok([Local]) else Ok([Local, Global])
  }

  /** The scope `manage` works on once the options are valid: the given
      one, LOCAL for a non-default environment, otherwise the prompt's
      answer (None when the prompt is cancelled). */
  function ManageScope(scope: Option<Scope>, env: string, answer: Option<Scope>): Option<Scope> {
    if scope.Some? then scope
    else if env != DefaultEnv then Some(Local)
    else answer
  }

  /** Both commands narrow to LOCAL when only a non-default environment is
      given, and both honour an explicit scope that passes validation;
      neither consults the scope prompt then. */
  lemma ScopeResolutionAgrees(scope: Option<Scope>, env: string, answer: Option<Scope>)
    requires !EnvScopeConflict(scope, env)
    ensures env != DefaultEnv && scope.None? ==>
      ListScopes(scope, env) == Ok([Local]) && ManageScope(scope, env, answer) == Some(Local)
    ensures scope.Some? ==>
      ListScopes(scope, env) == Ok([scope.value]) && ManageScope(scope, env, answer) == scope
    ensures env != DefaultEnv ==> ManageScope(scope, env, answer) == Some(Local)
  {
  }

  // ---------------------------------------------------------------------
  // The reconciliation delta

  function Names(skills: seq<Skill>): set<string> {
    set s | s in skills :: s.name
  }

  /** `[s for s in selected if s.name not in installed_names]` */
  function ToInstall(selected: seq<Skill>, installed: set<string>): (r: seq<Skill>)
    ensures forall s :: s in r <==> s in selected && s.name !in installed
  {
    if selected == [] then []
    else
      var s := selected[|selected| - 1];
      var init := selected[..|selected| - 1];
      assert selected == init + [s];
      ToInstall(init, installed) + (if s.name in installed then [] else [s])
  }

  /** `[name for name in installed_names if name not in selected_names]` */
  function ToUninstall(selected: seq<Skill>, installed: set<string>): set<string> {
    installed - Names(selected)
  }

  /** The delta goes both ways: a name both installed and selected is left
      alone, the two sides never share a name, the delta is empty exactly
      when the installed names are the selected ones, and applying it
      would leave exactly the selected names installed. */
  lemma DeltaSpec(selected: seq<Skill>, installed: set<string>)
    ensures var ti, tu := ToInstall(selected, installed), ToUninstall(selected, installed);
      Names(ti) == Names(selected) - installed
      && Names(ti) !! tu
      && (forall n :: n in installed && n in Names(selected) ==> n !in Names(ti) && n !in tu)
      && ((ti == [] && tu == {}) <==> Names(selected) == installed)
      && (installed - tu) + Names(ti) == Names(selected)
  {
    var ti := ToInstall(selected, installed);
    assert Names(ti) == Names(selected) - installed by {
      forall n | n in Names(selected) - installed ensures n in Names(ti) {
        var s :| s in selected && s.name == n;
        assert s in ti;
      }
    }
    var tu := ToUninstall(selected, installed);
    if ti != [] {
      assert ti[0].name in Names(ti);
    }
    if ti == [] && tu == {} {
      assert Names(ti) == {};
      assert Names(selected) <= installed && installed <= Names(selected);
    }
  }

  /** With {a, b} installed and {b, c} selected, only c is installed and
      only a is uninstalled. */
  lemma DeltaExample(a: Skill, b: Skill, c: Skill)
    requires a.name == "a" && b.name == "b" && c.name == "c"
    ensures ToInstall([b, c], {"a", "b"}) == [c]
    ensures ToUninstall([b, c], {"a", "b"}) == {"a"}
  {
    var installed := {"a", "b"};
    assert [b][..0] == [];
    assert ToInstall([b], installed) == ToInstall([], installed) + [];
    assert [b, c][..1] == [b];
    assert ToInstall([b, c], installed) == ToInstall([b], installed) + [c];
    assert Names([b, c]) == {"b", "c"};
  }

  // ---------------------------------------------------------------------
  // Applying the delta, as a specification

  /** Installing `skills` one after another into directory `d`; the flag
      says whether an install raised something other than ValueError,
      which ends the command. */
  function InstallFold(e: Dir, d: seq<string>, cwd: seq<string>, existing: set<seq<string>>, skills: seq<Skill>)
    : (Dir, bool)
  {
    if skills == [] then (e, false)
    else
      var prev := InstallFold(e, d, cwd, existing, skills[..|skills| - 1]);
      if prev.1 then prev else InstallTurn(prev.0, d, cwd, existing, skills[|skills| - 1])
  }

  /** One turn of the install loop: the new entries, and whether `install`
      raised something other than ValueError. */
  function InstallTurn(e: Dir, d: seq<string>, cwd: seq<string>, existing: set<seq<string>>, s: Skill): (Dir, bool) {
    var target := AbsPath(cwd, s.path);
    if InstallStepOf(e, d, s.name, target, existing) == Failed(DanglingLink) then (e, true)
    else (InstallEntries(e, d, s.name, target, existing), false)
  }

  /** One more skill of the install loop. */
  lemma FoldAppend(e: Dir, d: seq<string>, cwd: seq<string>, existing: set<seq<string>>, done: seq<Skill>, s: Skill)
    requires !InstallFold(e, d, cwd, existing, done).1
    ensures InstallFold(e, d, cwd, existing, done + [s])
      == InstallTurn(InstallFold(e, d, cwd, existing, done).0, d, cwd, existing, s)
  {
    assert (done + [s])[..|done|] == done;
  }

  /** Uninstalling every name of `names`: the links among them go. */
  function UninstallSet(e: Dir, names: set<string>): Dir {
    map n | n in e && !(n in names && e[n].Symlink?) :: e[n]
  }

  predicate IsLink(e: Dir, n: string) {
    n in e && e[n].Symlink?
  }

  function RegularNames(e: Dir): set<string> {
    set n | n in e && e[n].Regular?
  }

  /** Once the install loop has stopped, later skills change nothing. */
  lemma {:induction false} FoldCrashSticks(e: Dir, d: seq<string>, cwd: seq<string>, existing: set<seq<string>>,
                                            skills: seq<Skill>, i: nat)
    requires i <= |skills| && InstallFold(e, d, cwd, existing, skills[..i]).1
    ensures InstallFold(e, d, cwd, existing, skills) == InstallFold(e, d, cwd, existing, skills[..i])
    decreases |skills| - i
  {
    if i < |skills| {
      var init := skills[..|skills| - 1];
      assert init[..i] == skills[..i];
      FoldCrashSticks(e, d, cwd, existing, init, i);
    } else {
      assert skills[..i] == skills;
    }
  }

  /** The install loop never removes or alters a non-link, never creates
      one, and leaves names it is not asked about untouched. */
  lemma {:induction false} FoldSafety(e: Dir, d: seq<string>, cwd: seq<string>, existing: set<seq<string>>, skills: seq<Skill>)
    ensures var r := InstallFold(e, d, cwd, existing, skills).0;
      (forall n :: n in e && e[n].Regular? ==> n in r && r[n] == Regular)
      && (forall n :: n in r && r[n].Regular? ==> n in e && e[n].Regular?)
      && (forall n :: n !in Names(skills) ==> (n in r <==> n in e) && (n in e ==> r[n] == e[n]))
  {
    if skills != [] {
      var init, s := skills[..|skills| - 1], skills[|skills| - 1];
      FoldSafety(e, d, cwd, existing, init);
      assert skills == init + [s];
      assert Names(skills) == Names(init) + {s.name};
      var prev := InstallFold(e, d, cwd, existing, init).0;
      InstallSafety(prev, d, s.name, AbsPath(cwd, s.path), existing);
    }
  }

  /** When the loop runs to the end, every skill whose name is not held by
      a non-link ends up as a link. */
  lemma {:induction false} FoldLinks(e: Dir, d: seq<string>, cwd: seq<string>, existing: set<seq<string>>, skills: seq<Skill>)
    requires !InstallFold(e, d, cwd, existing, skills).1
    ensures forall s :: s in skills && s.name !in RegularNames(e) ==> IsLink(InstallFold(e, d, cwd, existing, skills).0, s.name)
  {
    if skills != [] {
      var init, last := skills[..|skills| - 1], skills[|skills| - 1];
      assert skills == init + [last];
      FoldLinks(e, d, cwd, existing, init);
      FoldSafety(e, d, cwd, existing, init);
      var prev := InstallFold(e, d, cwd, existing, init).0;
      var target := AbsPath(cwd, last.path);
      var r := InstallEntries(prev, d, last.name, target, existing);
      assert InstallFold(e, d, cwd, existing, skills).0 == r;
      forall s | s in skills && s.name !in RegularNames(e) ensures IsLink(r, s.name) {
        if s.name == last.name {
          assert !(last.name in prev && prev[last.name].Regular?);
        } else {
          assert s in init;
        }
      }
    }
  }

  /** The loop runs to the end when no skill's name is already a link and
      every skill directory exists: the only names it then meets are free,
      held by non-links, or links it made itself to existing targets. */
  lemma {:induction false} FoldNoCrash(e: Dir, d: seq<string>, cwd: seq<string>, existing: set<seq<string>>, skills: seq<Skill>)
    requires Canonical(d)
    requires forall s :: s in skills ==> !IsLink(e, s.name) && AbsPath(cwd, s.path) in existing
    ensures !InstallFold(e, d, cwd, existing, skills).1
    ensures forall n :: IsLink(InstallFold(e, d, cwd, existing, skills).0, n) ==>
      (IsLink(e, n) && InstallFold(e, d, cwd, existing, skills).0[n] == e[n])
      || LinkTarget(d, InstallFold(e, d, cwd, existing, skills).0[n].target) in existing
  {
    if skills != [] {
      var init, last := skills[..|skills| - 1], skills[|skills| - 1];
      assert forall s :: s in init ==> s in skills;
      FoldNoCrash(e, d, cwd, existing, init);
      var prev := InstallFold(e, d, cwd, existing, init).0;
      var target := AbsPath(cwd, last.path);
      InstallLinks(prev, d, last.name, target, existing);
      assert InstallStepOf(prev, d, last.name, target, existing) != Failed(DanglingLink);
    }
  }

  /** One name of `ReconcileReachesSelection`: after both loops, `n` is a
      link exactly when it is selected and no non-link holds it. */
  lemma ReachesSelectionAt(e: Dir, d: seq<string>, cwd: seq<string>, existing: set<seq<string>>,
                           selected: seq<Skill>, n: string)
    requires var ti := ToInstall(selected, Links(e, d).Keys);
      !InstallFold(e, d, cwd, existing, ti).1
    ensures var installed := Links(e, d).Keys;
      var ti, tu := ToInstall(selected, installed), ToUninstall(selected, installed);
      n in Links(UninstallSet(InstallFold(e, d, cwd, existing, ti).0, tu), d) <==> n in Names(selected) - RegularNames(e)
  {
    var installed := Links(e, d).Keys;
    var ti, tu := ToInstall(selected, installed), ToUninstall(selected, installed);
    DeltaSpec(selected, installed);
    FoldSafety(e, d, cwd, existing, ti);
    FoldLinks(e, d, cwd, existing, ti);
    if n in Names(selected) && n !in RegularNames(e) {
      if n in installed {
        assert IsLink(e, n) && n !in Names(ti);
      } else {
        var s :| s in ti && s.name == n;
      }
    }
  }

  /** Reconciliation reaches the selection: when the installs run to the
      end, the links left in the directory are exactly the selected names,
      except names a non-link already occupied. */
  lemma ReconcileReachesSelection(e: Dir, d: seq<string>, cwd: seq<string>, existing: set<seq<string>>, selected: seq<Skill>)
    requires var ti := ToInstall(selected, Links(e, d).Keys);
      !InstallFold(e, d, cwd, existing, ti).1
    ensures var installed := Links(e, d).Keys;
      var ti, tu := ToInstall(selected, installed), ToUninstall(selected, installed);
      Links(UninstallSet(InstallFold(e, d, cwd, existing, ti).0, tu), d).Keys == Names(selected) - RegularNames(e)
  {
    forall n ensures n in Links(UninstallSet(InstallFold(e, d, cwd, existing, ToInstall(selected, Links(e, d).Keys)).0,
                                             ToUninstall(selected, Links(e, d).Keys)), d)
                     <==> n in Names(selected) - RegularNames(e) {
      ReachesSelectionAt(e, d, cwd, existing, selected, n);
    }
  }

  // ---------------------------------------------------------------------
  // Applying the delta to a backend

  /** One line of the command's report. */
  datatype Report =
    | Installed(name: string, at: Path)
    | InstallFailed(name: string, error: InstallError)
    | Uninstalled(name: string)
    | UninstallFailed(name: string)

  /** An install report: the link was made or kept, or a non-link holds the
      name. */
  predicate InstallReport(rep: Report, name: string) {
    rep.name == name && (rep.Installed? || (rep.InstallFailed? && rep.error.failure == NotASymlink))
  }

  /** An uninstall report names a link that went, or a name that held no
      link. */
  predicate UninstallReport(rep: Report, e: Dir) {
    (rep.Uninstalled? || rep.UninstallFailed?) && (rep.Uninstalled? <==> IsLink(e, rep.name))
  }

  /** What the install loop prints for `s` when the skills directory `dir`
      (canonically `d`) holds `e`: the link's path, or the error naming it. */
  function TurnReport(e: Dir, d: seq<string>, cwd: seq<string>, existing: set<seq<string>>, dir: Path, s: Skill)
    : Report
  {
    var at := Join(dir, s.name);
    var step := InstallStepOf(e, d, s.name, AbsPath(cwd, s.path), existing);
    if step.Failed? then InstallFailed(s.name, InstallError(step.failure, at)) else Installed(s.name, at)
  }

  /** The reports the install loop prints over `skills`: one per install,
      in order, none for an install that raised something other than
      ValueError, and none after it. */
  function InstallLog(e: Dir, d: seq<string>, cwd: seq<string>, existing: set<seq<string>>, dir: Path,
                      skills: seq<Skill>): seq<Report>
  {
    if skills == [] then []
    else
      var init, last := skills[..|skills| - 1], skills[|skills| - 1];
      var prev := InstallFold(e, d, cwd, existing, init);
      var rest := InstallLog(e, d, cwd, existing, dir, init);
      if prev.1 || InstallTurn(prev.0, d, cwd, existing, last).1 then rest
      else rest + [TurnReport(prev.0, d, cwd, existing, dir, last)]
  }

  /** When the install loop runs to the end, it prints one report per
      install. */
  lemma {:induction false} InstallLogComplete(e: Dir, d: seq<string>, cwd: seq<string>, existing: set<seq<string>>,
                                              dir: Path, skills: seq<Skill>)
    requires !InstallFold(e, d, cwd, existing, skills).1
    ensures |InstallLog(e, d, cwd, existing, dir, skills)| == |skills|
  {
    if skills != [] {
      InstallLogComplete(e, d, cwd, existing, dir, skills[..|skills| - 1]);
    }
  }

  /** The position of the install that ends the loop, when one does. */
  function CrashIndex(e: Dir, d: seq<string>, cwd: seq<string>, existing: set<seq<string>>, skills: seq<Skill>): nat {
    if skills == [] then 0
    else if InstallFold(e, d, cwd, existing, skills[..|skills| - 1]).1 then CrashIndex(e, d, cwd, existing, skills[..|skills| - 1])
    else |skills| - 1
  }

  /** The install at `CrashIndex` is the first to raise something other
      than ValueError. */
  lemma {:induction false} CrashIndexFirst(e: Dir, d: seq<string>, cwd: seq<string>, existing: set<seq<string>>,
                                           skills: seq<Skill>)
    requires InstallFold(e, d, cwd, existing, skills).1
    ensures CrashIndex(e, d, cwd, existing, skills) < |skills|
    ensures !InstallFold(e, d, cwd, existing, skills[..CrashIndex(e, d, cwd, existing, skills)]).1
    ensures InstallFold(e, d, cwd, existing, skills[..CrashIndex(e, d, cwd, existing, skills) + 1]).1
  {
    var init := skills[..|skills| - 1];
    if InstallFold(e, d, cwd, existing, init).1 {
      var n := CrashIndex(e, d, cwd, existing, init);
      CrashIndexFirst(e, d, cwd, existing, init);
      assert init[..n] == skills[..n] && init[..n + 1] == skills[..n + 1];
    } else {
      CrashIndexLast(e, d, cwd, existing, skills);
    }
  }

  /** `CrashIndexFirst` when the last install is the one that crashes. */
  lemma CrashIndexLast(e: Dir, d: seq<string>, cwd: seq<string>, existing: set<seq<string>>, skills: seq<Skill>)
    requires InstallFold(e, d, cwd, existing, skills).1
    requires !InstallFold(e, d, cwd, existing, skills[..|skills| - 1]).1
    ensures CrashIndex(e, d, cwd, existing, skills) + 1 == |skills|
    ensures !InstallFold(e, d, cwd, existing, skills[..CrashIndex(e, d, cwd, existing, skills)]).1
    ensures InstallFold(e, d, cwd, existing, skills[..CrashIndex(e, d, cwd, existing, skills) + 1]).1
  {
    assert skills[..|skills|] == skills;
  }

  /** The log of a loop that crashed stops at the crash. */
  lemma {:induction false} InstallLogCrashLength(e: Dir, d: seq<string>, cwd: seq<string>, existing: set<seq<string>>,
                                                 dir: Path, skills: seq<Skill>)
    requires InstallFold(e, d, cwd, existing, skills).1
    ensures |InstallLog(e, d, cwd, existing, dir, skills)| == CrashIndex(e, d, cwd, existing, skills)
  {
    var init := skills[..|skills| - 1];
    if InstallFold(e, d, cwd, existing, init).1 {
      InstallLogCrashLength(e, d, cwd, existing, dir, init);
    } else {
      InstallLogComplete(e, d, cwd, existing, dir, init);
    }
  }

  /** When an install ends the loop, the log's length is that install's
      position: the installs before it ran to the end, and it crashed. */
  lemma InstallLogCrashAt(e: Dir, d: seq<string>, cwd: seq<string>, existing: set<seq<string>>,
                          dir: Path, skills: seq<Skill>)
    requires InstallFold(e, d, cwd, existing, skills).1
    ensures var n := |InstallLog(e, d, cwd, existing, dir, skills)|;
      n < |skills| && !InstallFold(e, d, cwd, existing, skills[..n]).1 && InstallFold(e, d, cwd, existing, skills[..n + 1]).1
  {
    InstallLogCrashLength(e, d, cwd, existing, dir, skills);
    CrashIndexFirst(e, d, cwd, existing, skills);
  }

  /** The `k`-th report is the turn of `skills[k]` on the directory the
      installs before it left. */
  lemma {:induction false} InstallLogAt(e: Dir, d: seq<string>, cwd: seq<string>, existing: set<seq<string>>,
                                        dir: Path, skills: seq<Skill>, k: nat)
    requires k < |InstallLog(e, d, cwd, existing, dir, skills)|
    ensures k < |skills|
    ensures InstallLog(e, d, cwd, existing, dir, skills)[k]
      == TurnReport(InstallFold(e, d, cwd, existing, skills[..k]).0, d, cwd, existing, dir, skills[k])
    ensures !InstallFold(e, d, cwd, existing, skills[..k]).1
    ensures !InstallTurn(InstallFold(e, d, cwd, existing, skills[..k]).0, d, cwd, existing, skills[k]).1
  {
    var init := skills[..|skills| - 1];
    var rest := InstallLog(e, d, cwd, existing, dir, init);
    if k < |rest| {
      InstallLogAt(e, d, cwd, existing, dir, init, k);
      assert init[..k] == skills[..k];
    } else {
      InstallLogComplete(e, d, cwd, existing, dir, init);
      assert init == skills[..k];
    }
  }

  /** Every report of the install loop is an install report for its skill. */
  lemma InstallLogReports(e: Dir, d: seq<string>, cwd: seq<string>, existing: set<seq<string>>,
                          dir: Path, skills: seq<Skill>)
    requires Canonical(d)
    ensures var log := InstallLog(e, d, cwd, existing, dir, skills);
      |log| <= |skills| && forall k :: 0 <= k < |log| ==> InstallReport(log[k], skills[k].name)
  {
    var log := InstallLog(e, d, cwd, existing, dir, skills);
    if InstallFold(e, d, cwd, existing, skills).1 {
      InstallLogCrashAt(e, d, cwd, existing, dir, skills);
    } else {
      InstallLogComplete(e, d, cwd, existing, dir, skills);
    }
    forall k | 0 <= k < |log| ensures InstallReport(log[k], skills[k].name) {
      InstallLogAt(e, d, cwd, existing, dir, skills, k);
      TurnReportTruthful(InstallFold(e, d, cwd, existing, skills[..k]).0, d, cwd, existing, dir, skills[k]);
    }
  }

  /** A printed report tells the truth: "installed" exactly when the name
      then links to the skill, and "failed" only for the ValueError of a
      non-link. */
  lemma TurnReportTruthful(e: Dir, d: seq<string>, cwd: seq<string>, existing: set<seq<string>>, dir: Path, s: Skill)
    requires Canonical(d) && !InstallTurn(e, d, cwd, existing, s).1
    ensures var r := TurnReport(e, d, cwd, existing, dir, s);
      InstallReport(r, s.name)
      && (r.Installed? <==> LinkedTo(InstallTurn(e, d, cwd, existing, s).0, d, s.name, AbsPath(cwd, s.path)))
  {
    InstallLinks(e, d, s.name, AbsPath(cwd, s.path), existing);
  }

  /** Once the install loop has stopped, it prints nothing more. */
  lemma {:induction false} InstallLogSticks(e: Dir, d: seq<string>, cwd: seq<string>, existing: set<seq<string>>,
                                            dir: Path, skills: seq<Skill>, i: nat)
    requires i <= |skills| && InstallFold(e, d, cwd, existing, skills[..i]).1
    ensures InstallLog(e, d, cwd, existing, dir, skills) == InstallLog(e, d, cwd, existing, dir, skills[..i])
    decreases |skills| - i
  {
    if i < |skills| {
      var init := skills[..|skills| - 1];
      assert init[..i] == skills[..i];
      InstallLogSticks(e, d, cwd, existing, dir, init, i);
      FoldCrashSticks(e, d, cwd, existing, init, i);
    } else {
      assert skills[..i] == skills;
    }
  }

  /** Uninstalling one more name of the set. */
  lemma UninstallSetStep(e: Dir, done: set<string>, n: string)
    requires n !in done
    ensures var cur := UninstallSet(e, done);
      var step := UninstallEntries(cur, n);
      (step.0 <==> IsLink(e, n))
      && UninstallSet(e, done + {n}) == step.1
  {
    var cur := UninstallSet(e, done);
    var step := UninstallEntries(cur, n);
    assert n in e ==> n in cur && cur[n] == e[n];
    assert UninstallSet(e, done + {n}).Keys == step.1.Keys;
  }

  /** One turn of the install loop, on `toInstall[i]`: `install`, reporting
      a ValueError and going on; `crashed` is any other error, which ends
      the command. The directory moves one turn further along the install
      loop's specification; after a crash, that of the whole loop is
      already reached. */
  method InstallOne(b: Backend, scope: Scope, toInstall: seq<Skill>, i: nat, ghost e0: Dir)
    returns (report: Report, crashed: bool)
    requires i < |toInstall| && toInstall[i].scope == scope
    requires InstallFold(e0, b.DirKey(scope), b.fs.cwd, b.fs.existing, toInstall[..i]) == (b.Entries(scope), false)
    modifies b.fs
    ensures InstallFold(e0, b.DirKey(scope), b.fs.cwd, b.fs.existing, toInstall[..i + 1]) == (b.Entries(scope), crashed)
    ensures crashed ==> InstallFold(e0, b.DirKey(scope), b.fs.cwd, b.fs.existing, toInstall) == (b.Entries(scope), true)
    ensures b.fs.dirs - {b.DirKey(scope)} == old(b.fs.dirs) - {b.DirKey(scope)} && b.DirKey(scope) in b.fs.dirs
    ensures var log := InstallLog(e0, b.DirKey(scope), b.fs.cwd, b.fs.existing, b.SkillsDir(scope), toInstall[..i]);
      if crashed then InstallLog(e0, b.DirKey(scope), b.fs.cwd, b.fs.existing, b.SkillsDir(scope), toInstall) == log
      else InstallLog(e0, b.DirKey(scope), b.fs.cwd, b.fs.existing, b.SkillsDir(scope), toInstall[..i + 1]) == log + [report]
  {
    var s := toInstall[i];
    assert toInstall[..i + 1] == toInstall[..i] + [s];
    FoldAppend(e0, b.DirKey(scope), b.fs.cwd, b.fs.existing, toInstall[..i], s);
    ghost var d, before := b.DirKey(scope), b.fs.dirs;
    InstallLogStep(e0, d, b.fs.cwd, b.fs.existing, b.SkillsDir(scope), toInstall, i);
    var r := b.Install(s);
    assert b.fs.dirs - {d} == before - {d};
    crashed := r.Err? && r.error.failure == DanglingLink;
    report := if r.Ok? then Installed(s.name, r.value) else InstallFailed(s.name, r.error);
    if crashed {
      FoldCrashSticks(e0, b.DirKey(scope), b.fs.cwd, b.fs.existing, toInstall, i + 1);
    }
  }

  /** One more turn of the install loop adds its report to the log, unless
      it crashes, which ends the log. */
  lemma InstallLogStep(e: Dir, d: seq<string>, cwd: seq<string>, existing: set<seq<string>>, dir: Path,
                       skills: seq<Skill>, i: nat)
    requires i < |skills| && !InstallFold(e, d, cwd, existing, skills[..i]).1
    ensures var prev := InstallFold(e, d, cwd, existing, skills[..i]).0;
      var log := InstallLog(e, d, cwd, existing, dir, skills[..i]);
      if InstallTurn(prev, d, cwd, existing, skills[i]).1 then InstallLog(e, d, cwd, existing, dir, skills) == log
      else InstallLog(e, d, cwd, existing, dir, skills[..i + 1]) == log + [TurnReport(prev, d, cwd, existing, dir, skills[i])]
  {
    assert skills[..i + 1][..i] == skills[..i];
    if InstallTurn(InstallFold(e, d, cwd, existing, skills[..i]).0, d, cwd, existing, skills[i]).1 {
      InstallLogSticks(e, d, cwd, existing, dir, skills, i + 1);
    }
  }

  /** The first loop of `manage`: installs `toInstall` in order, reporting
      and skipping ValueError; any other error ends the loop. */
  method InstallAll(b: Backend, scope: Scope, toInstall: seq<Skill>) returns (log: seq<Report>, crashed: bool)
    requires forall s :: s in toInstall ==> s.scope == scope
    modifies b.fs
    ensures var d := b.DirKey(scope);
      InstallFold(old(b.Entries(scope)), d, b.fs.cwd, b.fs.existing, toInstall) == (b.Entries(scope), crashed)
      && b.fs.dirs - {d} == old(b.fs.dirs) - {d}
      && (d in b.fs.dirs <==> d in old(b.fs.dirs) || toInstall != [])
    ensures log == InstallLog(old(b.Entries(scope)), b.DirKey(scope), b.fs.cwd, b.fs.existing, b.SkillsDir(scope), toInstall)
  {
    var d := b.DirKey(scope);
    ghost var dir := b.SkillsDir(scope);
    ghost var e0 := b.Entries(scope);
    ghost var cwd, existing := b.fs.cwd, b.fs.existing;
    log, crashed := [], false;
    for i := 0 to |toInstall|
      invariant log == InstallLog(e0, d, cwd, existing, dir, toInstall[..i])
      invariant InstallFold(e0, d, cwd, existing, toInstall[..i]) == (b.Entries(scope), false)
      invariant b.fs.dirs - {d} == old(b.fs.dirs) - {d}
      invariant d in b.fs.dirs <==> d in old(b.fs.dirs) || i > 0
    {
      assert toInstall[i] in toInstall;
      var report;
      report, crashed := InstallOne(b, scope, toInstall, i, e0);
      if crashed {
        return;
      }
      log := log + [report];
    }
    assert toInstall[..|toInstall|] == toInstall;
  }

  /** One turn of the uninstall loop: `uninstall` and its report. After
      the names `done`, the directory is one name further along. */
  method UninstallOne(b: Backend, scope: Scope, n: string, ghost e0: Dir, ghost done: set<string>)
    returns (report: Report)
    requires n !in done && b.Entries(scope) == UninstallSet(e0, done)
    modifies b.fs
    ensures b.Entries(scope) == UninstallSet(e0, done + {n})
    ensures b.fs.dirs - {b.DirKey(scope)} == old(b.fs.dirs) - {b.DirKey(scope)}
    ensures b.DirKey(scope) in b.fs.dirs <==> b.DirKey(scope) in old(b.fs.dirs)
    ensures report.name == n && UninstallReport(report, e0)
  {
    UninstallSetStep(e0, done, n);
    var removed := b.Uninstall(n, scope);
    report := if removed then Uninstalled(n) else UninstallFailed(n);
  }

  /** The second loop of `manage`: uninstalls every name of `names`,
      reporting which ones were links. */
  method UninstallAll(b: Backend, scope: Scope, names: set<string>) returns (log: seq<Report>)
    modifies b.fs
    ensures var d := b.DirKey(scope);
      b.Entries(scope) == UninstallSet(old(b.Entries(scope)), names)
      && b.fs.dirs - {d} == old(b.fs.dirs) - {d}
      && (d in b.fs.dirs <==> d in old(b.fs.dirs))
    ensures |log| == |names|
    ensures forall i :: 0 <= i < |log| ==> log[i].name in names && UninstallReport(log[i], old(b.Entries(scope)))
    ensures forall i, j :: 0 <= i < j < |log| ==> log[i].name != log[j].name
  {
    var d := b.DirKey(scope);
    ghost var e0 := b.Entries(scope);
    log := [];
    var rest := names;
    ghost var done: set<string> := {};
    assert UninstallSet(e0, {}) == e0;
    while rest != {}
      invariant done !! rest && done + rest == names
      invariant b.Entries(scope) == UninstallSet(e0, done)
      invariant b.fs.dirs - {d} == old(b.fs.dirs) - {d}
      invariant d in b.fs.dirs <==> d in old(b.fs.dirs)
      invariant |log| == |done|
      invariant forall k :: 0 <= k < |log| ==> log[k].name in done && UninstallReport(log[k], e0)
      invariant forall k, j :: 0 <= k < j < |log| ==> log[k].name != log[j].name
      decreases rest
    {
      var n :| n in rest;
      var report := UninstallOne(b, scope, n, e0, done);
      log := log + [report];
      done, rest := done + {n}, rest - {n};
    }
  }

  /** Both loops of `manage`: the installs, then, unless an install raised
      something other than ValueError, the uninstalls. */
  method ApplyDelta(b: Backend, scope: Scope, toInstall: seq<Skill>, toUninstall: set<string>)
    returns (log: seq<Report>, crashed: bool)
    requires forall s :: s in toInstall ==> s.scope == scope
    modifies b.fs
    ensures var d := b.DirKey(scope);
      var fold := InstallFold(old(b.Entries(scope)), d, b.fs.cwd, b.fs.existing, toInstall);
      crashed == fold.1
      && b.Entries(scope) == (if crashed then fold.0 else UninstallSet(fold.0, toUninstall))
      && b.fs.dirs - {d} == old(b.fs.dirs) - {d}
      && (d in b.fs.dirs <==> d in old(b.fs.dirs) || toInstall != [])
    ensures var il := InstallLog(old(b.Entries(scope)), b.DirKey(scope), b.fs.cwd, b.fs.existing, b.SkillsDir(scope), toInstall);
      (crashed ==> log == il)
      && (!crashed ==> |log| == |toInstall| + |toUninstall| && log[..|toInstall|] == il)
    ensures forall i :: |toInstall| <= i < |log| ==>
      log[i].name in toUninstall
      && UninstallReport(log[i], InstallFold(old(b.Entries(scope)), b.DirKey(scope), b.fs.cwd, b.fs.existing, toInstall).0)
    ensures forall i, j :: |toInstall| <= i < j < |log| ==> log[i].name != log[j].name
  {
    ghost var e0 := b.Entries(scope);
    log, crashed := InstallAll(b, scope, toInstall);
    if !crashed {
      InstallLogComplete(e0, b.DirKey(scope), b.fs.cwd, b.fs.existing, b.SkillsDir(scope), toInstall);
      var more := UninstallAll(b, scope, toUninstall);
      assert (log + more)[..|toInstall|] == log;
      log := log + more;
    } else {
      InstallLogCrashAt(e0, b.DirKey(scope), b.fs.cwd, b.fs.existing, b.SkillsDir(scope), toInstall);
    }
  }

  // ---------------------------------------------------------------------
  // The commands

  /** What discovery yields for a scope: the skills and the warnings. */
  function Scanned(scope: Scope, env: string, home: Path, src: Sources): (seq<Skill>, seq<Warning>) {
    match scope
    case Local => Discover(LocalCandidates(env, src), Local, src.load)
    case Global => Discover(GlobalDiscovered(home, src), Global, src.load)
  }

  /** The skills a scope offers. */
  function Available(scope: Scope, env: string, home: Path, src: Sources): seq<Skill> {
    Scanned(scope, env, home, src).0
  }

  /** `list`: exit code 1 on the --env/--scope conflict before anything is
      scanned; otherwise, per scope to scan, the sorted table and the
      warnings its discovery issued. */
  method ListSkills(home: Path, scope: Option<Scope>, env: string, src: Sources)
    returns (code: int, tables: seq<(Scope, seq<Skill>, seq<Warning>)>)
    ensures EnvScopeConflict(scope, env) ==> code == 1 && tables == []
    ensures !EnvScopeConflict(scope, env) ==> code == 0 && |tables| == |ListScopes(scope, env).value|
    ensures !EnvScopeConflict(scope, env) ==> forall i :: 0 <= i < |tables| ==>
      tables[i].0 == ListScopes(scope, env).value[i]
      && tables[i].1 == SortSkills(Available(tables[i].0, env, home, src))
      && tables[i].2 == Scanned(tables[i].0, env, home, src).1
  {
    var scopes := ListScopes(scope, env);
    if scopes.Err? {
      return 1, [];
    }
    code, tables := 0, [];
    for i := 0 to |scopes.value|
      invariant |tables| == i
      invariant forall k :: 0 <= k < i ==>
        tables[k].0 == scopes.value[k]
        && tables[k].1 == SortSkills(Available(tables[k].0, env, home, src))
        && tables[k].2 == Scanned(tables[k].0, env, home, src).1
    {
      var s := scopes.value[i];
      var skills, warnings;
      if s == Local {
        skills, warnings := DiscoverLocalSkills(env, src);
      } else {
        skills, warnings := DiscoverGlobalSkills(home, src);
      }
      tables := tables + [(s, SortSkills(skills), warnings)];
    }
  }

  /** The answers the user gives to the prompts; None is a cancelled
      prompt. `selection` is the set of positions left checked. */
  datatype Answers = Answers(backend: Option<BackendName>, scope: Option<Scope>, selection: Option<set<nat>>)

  /** How `manage` ends. The exit code is 1 for UsageError, NoSkills and
      Crashed (a traceback), and 0 otherwise. */
  datatype Outcome = UsageError | Cancelled | NoSkills | NoChanges | Applied | Crashed

  /** Applying the delta never removes, alters or creates a non-link,
      whether the install loop runs to the end or stops early. */
  lemma ApplyKeepsNonLinks(e: Dir, d: seq<string>, cwd: seq<string>, existing: set<seq<string>>,
                           toInstall: seq<Skill>, toUninstall: set<string>)
    ensures var r := InstallFold(e, d, cwd, existing, toInstall).0;
      var f := UninstallSet(r, toUninstall);
      (forall n :: n in e && e[n].Regular? ==> n in r && r[n] == Regular && n in f && f[n] == Regular)
      && (forall n :: n in r && r[n].Regular? ==> n in e && e[n].Regular?)
      && (forall n :: n in f && f[n].Regular? ==> n in e && e[n].Regular?)
  {
    FoldSafety(e, d, cwd, existing, toInstall);
  }

  /** What `manage` prints when it installs `ti` and uninstalls `tu` in the
      skills directory `dir` (`d` once resolved), holding `e` before:
      - a crash prints the install loop's reports up to the install that
        crashed, which is the first to raise anything but ValueError;
      - otherwise the install loop's reports, one per skill, in order,
        then one uninstall report per name, each once;
      - with every offered skill's directory present there is no crash. */
  predicate LogReconciled(e: Dir, d: seq<string>, dir: Path, cwd: seq<string>, existing: set<seq<string>>,
                          available: seq<Skill>, outcome: Outcome, log: seq<Report>, ti: seq<Skill>, tu: set<string>)
  {
    var fold := InstallFold(e, d, cwd, existing, ti);
    (outcome == Crashed ==>
       log == InstallLog(e, d, cwd, existing, dir, ti)
       && |log| < |ti| && !InstallFold(e, d, cwd, existing, ti[..|log|]).1
       && InstallFold(e, d, cwd, existing, ti[..|log| + 1]).1)
    && (outcome == Applied ==> |log| == |ti| + |tu| && log[..|ti|] == InstallLog(e, d, cwd, existing, dir, ti))
    && (forall i :: 0 <= i < |log| && i < |ti| ==> InstallReport(log[i], ti[i].name))
    && ((forall s :: s in available ==> AbsPath(cwd, s.path) in existing) ==> outcome != Crashed)
    && (forall i :: |ti| <= i < |log| ==> log[i].name in tu && UninstallReport(log[i], fold.0))
    && (forall i, j :: |ti| <= i < j < |log| ==> log[i].name != log[j].name)
  }

  /** How `manage` ends once it has reached the selection prompt, for the
      skills directory `d` holding `e` before and `now` after (`had` and
      `has`: whether it exists before and after), with the report `log`:
      - cancelled exactly when the prompt is, and then nothing changes;
      - otherwise `selected` is the prompt's answer, and "no changes"
        exactly when the delta is empty, and then nothing changes;
      - otherwise the install loop runs (the command crashes exactly when
        the loop stops early) and, unless it crashed, the uninstall loop,
        printing what `LogReconciled` says;
      - the directory comes into being only through an install;
      - every non-link stays, and none is created;
      - on success the links are exactly the selected names, minus the
        names a non-link occupies. */
  predicate Reconciled(e: Dir, now: Dir, had: bool, has: bool, d: seq<string>, dir: Path, cwd: seq<string>,
                       existing: set<seq<string>>,
                       available: seq<Skill>, selection: Option<set<nat>>,
                       outcome: Outcome, log: seq<Report>, selected: seq<Skill>)
  {
    var installed := Links(e, d).Keys;
    var ti, tu := ToInstall(selected, installed), ToUninstall(selected, installed);
    var fold := InstallFold(e, d, cwd, existing, ti);
    outcome in {Cancelled, NoChanges, Applied, Crashed}
    && (outcome == Cancelled <==> selection.None?)
    && (outcome != Cancelled ==> Selector.SelectSkillsInteractively(available, Some(installed), selection) == Some(selected))
    && (outcome == NoChanges <==> outcome != Cancelled && ti == [] && tu == {})
    && (outcome in {Cancelled, NoChanges} ==> now == e && log == [])
    && (outcome in {Applied, Crashed} ==>
          (outcome == Crashed <==> fold.1)
          && now == (if fold.1 then fold.0 else UninstallSet(fold.0, tu)))
    && (has <==> had || (outcome in {Applied, Crashed} && ti != []))
    && LogReconciled(e, d, dir, cwd, existing, available, outcome, log, ti, tu)
    && (forall n :: n in e && e[n].Regular? ==> n in now && now[n] == Regular)
    && (forall n :: n in now && now[n].Regular? ==> n in e && e[n].Regular?)
    && (outcome == Applied ==> Links(now, d).Keys == Names(selected) - RegularNames(e))
  }

  /** When the prompt is cancelled, or its answer leaves nothing to do,
      `manage` has ended as `Reconciled` says, with nothing changed. */
  lemma ReconciledEarly(e: Dir, had: bool, d: seq<string>, dir: Path, cwd: seq<string>, existing: set<seq<string>>,
                        available: seq<Skill>, selection: Option<set<nat>>, outcome: Outcome, selected: seq<Skill>)
    requires available != []
    requires var installed := Links(e, d).Keys;
      var answer := Selector.SelectSkillsInteractively(available, Some(installed), selection);
      if answer.None? then outcome == Cancelled
      else (outcome == NoChanges && answer == Some(selected)
            && ToInstall(selected, installed) == [] && ToUninstall(selected, installed) == {})
    ensures Reconciled(e, e, had, had, d, dir, cwd, existing, available, selection, outcome, [], selected)
  {
  }

  /** Once the delta between the answer and the installed names is applied,
      with the outcome and the log the two loops give, `manage` has ended
      as `Reconciled` says. */
  lemma ReconciledByApply(e: Dir, now: Dir, had: bool, has: bool, d: seq<string>, dir: Path, cwd: seq<string>,
                          existing: set<seq<string>>, available: seq<Skill>, selection: Option<set<nat>>,
                          outcome: Outcome, log: seq<Report>, selected: seq<Skill>)
    requires Canonical(d)
    requires available != []
    requires Selector.SelectSkillsInteractively(available, Some(Links(e, d).Keys), selection) == Some(selected)
    requires var installed := Links(e, d).Keys;
      var ti, tu := ToInstall(selected, installed), ToUninstall(selected, installed);
      var fold := InstallFold(e, d, cwd, existing, ti);
      !(ti == [] && tu == {})
      && outcome == (if fold.1 then Crashed else Applied)
      && now == (if fold.1 then fold.0 else UninstallSet(fold.0, tu))
      && (has <==> had || ti != [])
      && (fold.1 ==> log == InstallLog(e, d, cwd, existing, dir, ti))
      && (!fold.1 ==> |log| == |ti| + |tu| && log[..|ti|] == InstallLog(e, d, cwd, existing, dir, ti))
      && (forall i :: |ti| <= i < |log| ==> log[i].name in tu && UninstallReport(log[i], fold.0))
      && (forall i, j :: |ti| <= i < j < |log| ==> log[i].name != log[j].name)
    ensures Reconciled(e, now, had, has, d, dir, cwd, existing, available, selection, outcome, log, selected)
  {
    var installed := Links(e, d).Keys;
    var ti, tu := ToInstall(selected, installed), ToUninstall(selected, installed);
    ApplyKeepsNonLinks(e, d, cwd, existing, ti, tu);
    if outcome == Applied {
      ReconcileReachesSelection(e, d, cwd, existing, selected);
    }
    if forall s :: s in available ==> AbsPath(cwd, s.path) in existing {
      NoCrashWhenTargetsExist(e, d, cwd, existing, available, selection, selected);
    }
    ApplyLogReconciled(e, d, dir, cwd, existing, available, outcome, log, ti, tu);
  }

  /** The two loops' reports, as `ApplyDelta` gives them, are what
      `LogReconciled` says. */
  lemma ApplyLogReconciled(e: Dir, d: seq<string>, dir: Path, cwd: seq<string>, existing: set<seq<string>>,
                           available: seq<Skill>, outcome: Outcome, log: seq<Report>, ti: seq<Skill>, tu: set<string>)
    requires Canonical(d)
    requires var fold := InstallFold(e, d, cwd, existing, ti);
      outcome == (if fold.1 then Crashed else Applied)
      && ((forall s :: s in available ==> AbsPath(cwd, s.path) in existing) ==> !fold.1)
      && (fold.1 ==> log == InstallLog(e, d, cwd, existing, dir, ti))
      && (!fold.1 ==> |log| == |ti| + |tu| && log[..|ti|] == InstallLog(e, d, cwd, existing, dir, ti))
      && (forall i :: |ti| <= i < |log| ==> log[i].name in tu && UninstallReport(log[i], fold.0))
      && (forall i, j :: |ti| <= i < j < |log| ==> log[i].name != log[j].name)
    ensures LogReconciled(e, d, dir, cwd, existing, available, outcome, log, ti, tu)
  {
    InstallLogReports(e, d, cwd, existing, dir, ti);
    if outcome == Applied {
      assert forall i :: 0 <= i < |ti| ==> log[i] == log[..|ti|][i];
    } else {
      InstallLogCrashAt(e, d, cwd, existing, dir, ti);
    }
  }

  /** When every skill offered has its directory, no install raises
      anything but ValueError, so `manage` does not crash. */
  lemma NoCrashWhenTargetsExist(e: Dir, d: seq<string>, cwd: seq<string>, existing: set<seq<string>>,
                                available: seq<Skill>, selection: Option<set<nat>>, selected: seq<Skill>)
    requires Canonical(d)
    requires Selector.SelectSkillsInteractively(available, Some(Links(e, d).Keys), selection) == Some(selected)
    requires forall s :: s in available ==> AbsPath(cwd, s.path) in existing
    ensures !InstallFold(e, d, cwd, existing, ToInstall(selected, Links(e, d).Keys)).1
  {
    var ti := ToInstall(selected, Links(e, d).Keys);
    forall s | s in ti ensures !IsLink(e, s.name) && AbsPath(cwd, s.path) in existing {
      assert s in multiset(selected);
      assert s in available;
    }
    FoldNoCrash(e, d, cwd, existing, ti);
  }

  /** The part of `manage` after discovery: read the installed names, ask,
      and apply the delta between the answer and the installed names. */
  method Reconcile(b: Backend, sc: Scope, available: seq<Skill>, selection: Option<set<nat>>)
    returns (outcome: Outcome, log: seq<Report>, ghost selected: seq<Skill>)
    requires available != []
    requires forall s :: s in available ==> s.scope == sc
    modifies b.fs
    ensures Reconciled(old(b.Entries(sc)), b.Entries(sc), b.DirKey(sc) in old(b.fs.dirs), b.DirKey(sc) in b.fs.dirs,
                       b.DirKey(sc), b.SkillsDir(sc), b.fs.cwd, b.fs.existing,
                       available, selection, outcome, log, selected)
    ensures outcome in {Cancelled, NoChanges} ==> b.fs.dirs == old(b.fs.dirs)
    ensures b.fs.dirs - {b.DirKey(sc)} == old(b.fs.dirs) - {b.DirKey(sc)}
  {
    selected := [];
    var pairs := b.GetInstalledSkills(sc);
    var installed := set i | 0 <= i < |pairs| :: pairs[i].0;
    ghost var d := b.DirKey(sc);
    ghost var e0 := b.Entries(sc);
    assert installed == Links(e0, d).Keys;
    var answer := Selector.SelectSkillsInteractively(available, Some(installed), selection);
    if answer.None? {
      ReconciledEarly(e0, d in b.fs.dirs, d, b.SkillsDir(sc), b.fs.cwd, b.fs.existing, available, selection, Cancelled, selected);
      return Cancelled, [], selected;
    }
    var sel := answer.value;
    selected := sel;
    var toInstall := ToInstall(sel, installed);
    var toUninstall := ToUninstall(sel, installed);
    if toInstall == [] && toUninstall == {} {
      ReconciledEarly(e0, d in b.fs.dirs, d, b.SkillsDir(sc), b.fs.cwd, b.fs.existing, available, selection, NoChanges, selected);
      return NoChanges, [], selected;
    }
    forall s | s in toInstall ensures s.scope == sc {
      assert s in multiset(sel);
      assert s in available;
    }
    var crashed;
    log, crashed := ApplyDelta(b, sc, toInstall, toUninstall);
    outcome := if crashed then Crashed else Applied;
    ReconciledByApply(e0, b.Entries(sc), d in old(b.fs.dirs), d in b.fs.dirs, d, b.SkillsDir(sc), b.fs.cwd, b.fs.existing,
                      available, selection, outcome, log, selected);
  }

  /** The backend and scope `manage` works on: None on the --env/--scope
      conflict or when a prompt it needs is cancelled. */
  function ManageTarget(backend: Option<BackendName>, scope: Option<Scope>, env: string, answers: Answers)
    : Option<(BackendName, Scope)>
  {
    var b := if backend.Some? then backend else answers.backend;
    var sc := ManageScope(scope, env, answers.scope);
    if EnvScopeConflict(scope, env) || b.None? || sc.None? then None else Some((b.value, sc.value))
  }

  /** `manage` once the backend and the scope are known: discover, then
      reconcile the backend's skills directory with the user's choice. */
  method ManageScoped(fs: FileSystem, bname: BackendName, sc: Scope, env: string, selection: Option<set<nat>>,
                      src: Sources)
    returns (outcome: Outcome, log: seq<Report>, warnings: seq<Warning>, ghost selected: seq<Skill>)
    modifies fs
    ensures warnings == Scanned(sc, env, fs.home, src).1
    ensures outcome == NoSkills <==> Available(sc, env, fs.home, src) == []
    ensures outcome == NoSkills ==> log == []
    ensures outcome in {NoSkills, Cancelled, NoChanges} ==> fs.dirs == old(fs.dirs)
    ensures var d := AbsPath(fs.cwd, SkillsDirOf(bname, sc, fs.home));
      var e := if d in old(fs.dirs) then old(fs.dirs)[d] else map[];
      var now := if d in fs.dirs then fs.dirs[d] else map[];
      Available(sc, env, fs.home, src) != [] ==>
        Reconciled(e, now, d in old(fs.dirs), d in fs.dirs, d, SkillsDirOf(bname, sc, fs.home), fs.cwd, fs.existing,
                   Available(sc, env, fs.home, src), selection, outcome, log, selected)
        && fs.dirs - {d} == old(fs.dirs) - {d}
  {
    selected := [];
    var b := GetBackend(bname, fs);
    var available;
    if sc == Local {
      available, warnings := DiscoverLocalSkills(env, src);
      DiscoverScope(LocalCandidates(env, src), Local, src.load);
    } else {
      available, warnings := DiscoverGlobalSkills(fs.home, src);
      DiscoverScope(GlobalDiscovered(fs.home, src), Global, src.load);
    }
    assert (available, warnings) == Scanned(sc, env, fs.home, src);
    if available == [] {
      return NoSkills, [], warnings, selected;
    }
    assert b.SkillsDir(sc) == SkillsDirOf(bname, sc, fs.home);
    assert b.DirKey(sc) == AbsPath(fs.cwd, SkillsDirOf(bname, sc, fs.home));
    outcome, log, selected := Reconcile(b, sc, available, selection);
  }

  /** `manage`: validate, resolve backend and scope, discover, then
      reconcile the backend's skills directory with the user's choice.
      `warnings` are the ones discovery issued. */
  method ManageSkills(fs: FileSystem, backend: Option<BackendName>, scope: Option<Scope>, env: string,
                      answers: Answers, src: Sources)
    returns (outcome: Outcome, log: seq<Report>, warnings: seq<Warning>,
             ghost chosen: BackendName, ghost managed: Scope, ghost selected: seq<Skill>)
    modifies fs
    ensures outcome == UsageError <==> EnvScopeConflict(scope, env)
    ensures ManageTarget(backend, scope, env, answers).None? ==>
      outcome in {UsageError, Cancelled} && log == [] && warnings == [] && fs.dirs == old(fs.dirs)
    ensures ManageTarget(backend, scope, env, answers).Some? ==>
      ManageTarget(backend, scope, env, answers) == Some((chosen, managed))
      && warnings == Scanned(managed, env, fs.home, src).1
      && (outcome == NoSkills <==> Available(managed, env, fs.home, src) == [])
    ensures outcome == NoSkills ==> log == []
    ensures outcome in {UsageError, Cancelled, NoSkills, NoChanges} ==> fs.dirs == old(fs.dirs)
    ensures var d := AbsPath(fs.cwd, SkillsDirOf(chosen, managed, fs.home));
      var e := if d in old(fs.dirs) then old(fs.dirs)[d] else map[];
      var now := if d in fs.dirs then fs.dirs[d] else map[];
      ManageTarget(backend, scope, env, answers).Some? && Available(managed, env, fs.home, src) != [] ==>
        Reconciled(e, now, d in old(fs.dirs), d in fs.dirs, d, SkillsDirOf(chosen, managed, fs.home), fs.cwd,
                   fs.existing, Available(managed, env, fs.home, src), answers.selection, outcome, log, selected)
        && fs.dirs - {d} == old(fs.dirs) - {d}
  {
    log, warnings := [], [];
    chosen, managed, selected := Claude, Local, [];
    if EnvScopeConflict(scope, env) {
      return UsageError, [], [], chosen, managed, selected;
    }
    var bname;
    if backend.Some? {
      bname := backend.value;
    } else if answers.backend.Some? {
      bname := answers.backend.value;
    } else {
      return Cancelled, [], [], chosen, managed, selected;
    }
    chosen := bname;
    var resolved := ManageScope(scope, env, answers.scope);
    if resolved.None? {
      return Cancelled, [], [], chosen, managed, selected;
    }
    var sc := resolved.value;
    managed := sc;
    outcome, log, warnings, selected := ManageScoped(fs, bname, sc, env, answers.selection, src);
  }
}
