# pixi-skills, modelled in Dafny

pixi-skills installs "agent skills" for LLM coding agents. A skill is a directory
holding a `SKILL.md` whose YAML front matter gives a description and, optionally,
a name. Local skills come from the project's pixi environment
(`.pixi/envs/<env>/share/agent-skills/*`). Global skills come from the user's
global environments (`~/.pixi/envs/agent-skill-*/share/agent-skills/*`).

A backend is a known agent (claude, codex, copilot, crush, cursor, gemini,
opencode). It owns a skills directory per scope. A skill is installed there as a
symbolic link with a relative target pointing at the skill's directory.

The `manage` command reconciles that directory with the user's choice:
- it discovers the available skills;
- it reads the installed link names;
- it lets the user tick the skills to keep, pre-ticked from what is installed;
- it installs the newly ticked skills, then uninstalls the unticked ones.

Only links are ever created, replaced or removed. A non-link entry in the way is
reported and left alone.

The model has six modules:

- `Wrappers`: `Option` and `Result`.
- `Paths`: paths as values (`Path(absolute, parts)`).
  - `AbsPath` is lexical normalisation onto a working directory.
  - `RelPath` is `os.path.relpath`.
  - It is proved that a relative link computed by `RelPath` leads back to its target.
- `Skills`: the two scopes and their order, and `Skill` with its `(scope, name)` order and sorting.
  - It also covers the `SKILL.md` front-matter parser and loading one skill directory.
  - Discovery is a pure scan (`Discover`) that two imperative loops are proved against.
- `Backends`:
  - the backend names, the registry and the skills directory of each backend;
  - the pure install/uninstall steps on a directory's entry map;
  - a `FileSystem` class whose `dirs` map is updated in place;
  - a `Backend` class whose `Install`, `Uninstall` and `GetInstalledSkills` methods act on it.
- `Selector`: the choice list offered to the checkbox prompt, and what the prompt's answer yields.
- `Cli`: the `--env`/`--scope` rule and scope narrowing of `list` and `manage`.
  - It covers the reconciliation delta and the two apply loops.
  - The apply loops are specified by a fold (`InstallFold`) and by `UninstallSet`.
  - The commands `list` and `manage` are modelled end to end, with prompt answers as inputs.

The model's world:

- A skills directory is a map from entry name to `Symlink(target) | Regular`.
- `FileSystem.dirs` holds the skills directories that exist, keyed by canonical absolute path.
- `existing` is the set of other paths that exist. It decides whether a link dangles.
- The YAML reader is a function parameter (`YamlLoader`). It yields a syntax error, a non-mapping, or a mapping of scalars.
- Directory listings are inputs (`Sources`), in the order the filesystem gives them.
- The home and working directories are values.

## Model

| member | source | states |
|---|---|---|
| Paths.NormFrom | pixi_skills/backend.py:54 | normalising (as `resolve`/`abspath` do without links) always yields a canonical path: no empty, `.` or `..` component, and no longer than its input |
| Paths.CommonPrefixLength | pixi_skills/backend.py:63 | the common prefix `relpath` climbs to: both paths agree on it, and they differ right after it |
| Paths.NormFromAppend | pixi_skills/backend.py:63 | normalising a concatenation equals normalising the second part onto the normalised first part |
| Paths.NormFromCanonical | pixi_skills/backend.py:63 | canonical components are appended unchanged |
| Paths.NormFromDots | pixi_skills/backend.py:63 | each `..` of a relative target removes exactly one trailing component |
| Paths.ClimbThenDescend | pixi_skills/backend.py:63-64 | climbing n levels out of a directory and descending into a canonical rest lands on that prefix plus the rest |
| Paths.RelPathResolves | pixi_skills/backend.py:62-64 | the stored target `relpath(skill.path, skills_dir)` is relative, and read from the skills directory it resolves back to the skill's path, whatever the nesting of either |
| Backends.RegistryComplete | pixi_skills/backend.py:174-182 | every backend name has a registry entry, and the registry lists each name once |
| Backends.SkillsDirConvention | pixi_skills/backend.py:89-170 | LOCAL is the relative `.<tool>/skills` and GLOBAL is `home/.<tool>/skills`; the tool is the backend's name, except that copilot uses `.github` |
| Backends.SkillsDirDistinct | pixi_skills/backend.py:89-170 | two different backends never share a skills directory in the same scope |
| Backends.InstallEntries | pixi_skills/backend.py:52-64 | install touches only the skill's own entry, and changes nothing unless it links |
| Backends.UninstallEntries | pixi_skills/backend.py:75-78 | removal happens exactly when the name is a link; only that entry goes and all others keep their value |
| Backends.InstallSafety | pixi_skills/backend.py:52-60 | install fails with "not a symlink" exactly when a non-link holds the name; it fails on a dangling link exactly when one holds it; a failure changes nothing; every non-link survives |
| Backends.InstallLinks | pixi_skills/backend.py:52-65 | after a successful install the name is a link resolving to the skill's path; a new link stores the relative `relpath` target; a link resolving elsewhere is always replaced |
| Backends.InstallIdempotent | pixi_skills/backend.py:52-55 | when the skill directory exists, once install has succeeded, installing again reports "already installed" and changes nothing |
| Backends.InstallAgainDangles | pixi_skills/backend.py:52-64 | when the skill directory does not exist, the link a first install made dangles, `exists()` is false for it, and installing again fails with FileExistsError |
| Backends.UninstallUndoesInstall | pixi_skills/backend.py:62-77 | uninstalling a link that install created on a free name restores the directory exactly |
| Backends.Backend.GetInstalledSkills | pixi_skills/backend.py:31-41 | `[]` when the directory is missing; otherwise exactly one (name, resolved target) pair per link, each name once, with non-links ignored |
| Backends.Backend.Install | pixi_skills/backend.py:43-65 | the directory exists afterwards (mkdir before the checks); its entries become the install step's result; the return is the link path, or the error "not a symlink"/dangling link; on success `is_installed(skill)` holds |
| Backends.Backend.Uninstall | pixi_skills/backend.py:67-78 | returns true iff the name was a link; then exactly that entry is removed, otherwise nothing changes |
| Backends.Backend.IsInstalled | pixi_skills/backend.py:80-86 | true iff `get_installed_skills` reports the name with the skill's resolved path |
| Backends.InstallTwice | pixi_skills/backend.py:52-55 | a second install of a skill whose directory exists returns the same path as the first successful one and leaves the filesystem as the first one left it |
| Backends.GetBackend | pixi_skills/backend.py:185-187 | a fresh instance of the named backend, for every name |
| Backends.GetAllBackends | pixi_skills/backend.py:190-192 | one fresh instance per registry entry, in registry order |
| Skills.ScopeTotalOrder | pixi_skills/skill.py:11-39 | LOCAL < GLOBAL; `<` is a strict total order; `<=`, `>` and `>=` agree with it |
| Skills.StrLessIrreflexive | pixi_skills/skill.py:42-52 | string `<` (used for names) is irreflexive |
| Skills.StrLessTransitive | pixi_skills/skill.py:42-52 | string `<` is transitive |
| Skills.StrLessTotal | pixi_skills/skill.py:42-52 | any two different strings are ordered one way |
| Skills.SkillOrder | pixi_skills/skill.py:42-52 | skill `<` is a strict order that is total up to equal (scope, name), puts LOCAL before GLOBAL, and ignores description and path |
| Skills.NotLessTransitive | pixi_skills/skill.py:42-52 | "not greater" is transitive |
| Skills.SortedCons | pixi_skills/selector.py:40 | a sorted sequence stays sorted with a smallest element in front |
| Skills.Insert | pixi_skills/selector.py:40 | inserting into a sorted sequence keeps it sorted and adds exactly that element |
| Skills.SortSkills | pixi_skills/selector.py:40 | `sorted(skills)` is sorted by (scope, name) and is a permutation of its input |
| Skills.InsertWithKey | pixi_skills/selector.py:40 | inserting a skill puts it before every skill that compares equal to it |
| Skills.SortSkillsStable | pixi_skills/selector.py:40 | `sorted` is stable: the skills that compare equal to any given one appear in the result in their input order |
| Skills.SortedLocalFirst | pixi_skills/skill.py:42-52 | in a sorted list every LOCAL skill comes before every GLOBAL skill |
| Skills.FindClose | pixi_skills/skill.py:80 | a closing delimiter found lies within the text |
| Skills.FindCloseSpec | pixi_skills/skill.py:80-82 | the search finds the leftmost `\n---\s*\n`, and finds none only when there is none |
| Skills.ReadFields | pixi_skills/skill.py:86-98 | a YAML error propagates; a non-mapping is "invalid front matter"; a mapping succeeds iff its description is present and not null; `name` is None when absent and the coerced string otherwise |
| Skills.ParseSkillMdSpec | pixi_skills/skill.py:68-98 | "must start with front matter" iff the text does not start with `---`; "invalid" iff no closing delimiter follows; otherwise the result is the reading of exactly `content[3:3+start]` of the first match |
| Skills.ParseFrontMatterBlock | pixi_skills/skill.py:80-86 | `---`, a block with no `\n---` inside, a closing line and any body parse as the YAML reading of exactly that block |
| Skills.FromDirectorySpec | pixi_skills/skill.py:54-65 | "No SKILL.md" when the file is missing; a parser error is passed on; a loaded skill keeps scope and path, and takes the front-matter name, or the directory's final component |
| Skills.EntryCandidates | pixi_skills/skill.py:110 | one candidate per listed entry, in listing order, under the base directory |
| Skills.DiscoverScope | pixi_skills/skill.py:110-129 | every discovered skill has the scope it was discovered for |
| Skills.DiscoverCount | pixi_skills/skill.py:110-115 | each qualifying directory (one that contains SKILL.md) yields exactly one skill or one warning; other entries yield nothing |
| Skills.DiscoverMembers | pixi_skills/skill.py:110-115 | the skills are exactly the successful loads of qualifying directories, and the warnings exactly the failed ones |
| Skills.DiscoverAsWrittenAgrees | pixi_skills/skill.py:110-129 | as written, the scan equals the tolerant scan whenever no front matter is a YAML syntax error |
| Skills.DiscoverAsWrittenAborts | pixi_skills/skill.py:112-115 | as written, one directory with malformed YAML ends the whole scan with the YAML error, where the tolerant scan gives one warning |
| Skills.ScanOne | pixi_skills/skill.py:111-115 | one loop turn advances the scan by exactly one candidate |
| Skills.ScanListing | pixi_skills/skill.py:110-115 | the loop over one listing advances the scan by that listing's candidates, in order |
| Skills.DiscoverLocalSkills | pixi_skills/skill.py:101-116 | `[]` with no warnings when the environment's directory is missing; otherwise exactly the scan of its listing |
| Skills.DiscoverGlobalSkills | pixi_skills/skill.py:119-130 | `[]` when `~/.pixi/envs` is missing; otherwise the scan of every entry of every `agent-skill-*` environment's `share/agent-skills`, in listing order |
| Selector.ChoicesSpec | pixi_skills/selector.py:37-49 | one choice per input skill, a permutation of them, sorted by (scope, name); all ticked when nothing is installed; otherwise a choice is ticked iff its name is installed |
| Selector.PickedFrom | pixi_skills/selector.py:51-60 | every skill the prompt returns is the skill of a ticked position |
| Selector.PickedComplete | pixi_skills/selector.py:51-60 | the skill of every ticked position is returned |
| Selector.PickedCount | pixi_skills/selector.py:51-60 | the prompt returns one skill per ticked position |
| Selector.PickedMultiset | pixi_skills/selector.py:51-60 | the prompt returns no skill more often than it is offered |
| Selector.PickedSorted | pixi_skills/selector.py:51-60 | the prompt's answer keeps the sorted order of the choices |
| Selector.SelectSkillsInteractively | pixi_skills/selector.py:22-60 | `[]` without a prompt for no skills; None exactly when the prompt is cancelled; no installed set counts as an empty one; otherwise exactly the skills of the ticked choices, one per ticked position, a sorted sub-multiset of the skills |
| Selector.SelectWithoutInstalled | pixi_skills/selector.py:37-38 | passing no installed set is passing an empty one |
| Cli.ListScopes | pixi_skills/cli.py:88-98 | exit 1 iff GLOBAL is given with a non-default env; a non-default env narrows to LOCAL; an explicit scope is kept; no scope with the default env scans LOCAL then GLOBAL |
| Cli.ScopeResolutionAgrees | pixi_skills/cli.py:177-185 | `manage` resolves the scope as `list` does at lines 96-98: an explicit valid scope is kept, and a non-default env means LOCAL without a prompt |
| Cli.ToInstall | pixi_skills/cli.py:212 | a skill is to be installed iff it is selected and its name is not installed |
| Cli.DeltaSpec | pixi_skills/cli.py:209-215 | the installs cover exactly the selected names that are not installed; installs and uninstalls share no name; a name both installed and selected is in neither; the delta is empty iff the installed names are the selected ones; applying it leaves exactly the selected names |
| Cli.DeltaExample | pixi_skills/cli.py:209-213 | with {a, b} installed and {b, c} selected, only c is installed and only a is uninstalled |
| Cli.FoldAppend | pixi_skills/cli.py:220-225 | the install loop over `done + [s]` is its run over `done` followed by one turn for `s` |
| Cli.FoldCrashSticks | pixi_skills/cli.py:220-225 | once an install raised something other than ValueError, the remaining skills change nothing |
| Cli.FoldSafety | pixi_skills/cli.py:220-225 | the install loop never removes, alters or creates a non-link, and leaves names outside its skills untouched |
| Cli.FoldLinks | pixi_skills/cli.py:220-225 | when the loop runs to the end, every skill whose name no non-link holds ends up as a link |
| Cli.FoldNoCrash | pixi_skills/cli.py:220-225 | the loop runs to the end when no skill's name is a link yet and every skill directory exists; every link it leaves is an old one or resolves to something existing |
| Cli.ReconcileReachesSelection | pixi_skills/cli.py:209-232 | after both loops, the links in the directory are exactly the selected names, minus names a non-link occupied |
| Cli.ReachesSelectionAt | pixi_skills/cli.py:209-232 | after both loops, one name is a link exactly when it is selected and no non-link holds it |
| Cli.UninstallSetStep | pixi_skills/cli.py:228-232 | uninstalling one more name removes it iff it is a link of the original directory |
| Cli.InstallOne | pixi_skills/cli.py:221-225 | one turn of the install loop: the directory advances by one turn; without a crash the log of the turns so far grows by this turn's report, `Installed` with the link's path or `InstallFailed` with the ValueError that names it; any other error ends the command and the log, the remaining skills changing nothing |
| Cli.InstallAll | pixi_skills/cli.py:220-225 | the install loop: the directory ends as the fold over `to_install`; the log is exactly the turns' reports in order, up to the first install that raises something other than ValueError; only the skills directory changes |
| Cli.InstallLogStep | pixi_skills/cli.py:221-225 | one more turn appends its own report to the install log, or, when it raises something other than ValueError, the log ends there for the whole loop |
| Cli.InstallLogComplete | pixi_skills/cli.py:220-225 | when no install raises anything but ValueError, the loop prints exactly one report per skill |
| Cli.InstallLogSticks | pixi_skills/cli.py:220-225 | once an install has raised something other than ValueError, the remaining skills print nothing |
| Cli.CrashIndexFirst | pixi_skills/cli.py:220-225 | when the loop crashes, `CrashIndex` is a position within the skills; the installs before it do not crash, and the one at it does |
| Cli.CrashIndexLast | pixi_skills/cli.py:220-225 | when only the last install crashes, the crash position is the last one |
| Cli.InstallLogCrashLength | pixi_skills/cli.py:220-225 | when the loop crashes, it printed exactly as many reports as there are installs before the crashing one |
| Cli.InstallLogCrashAt | pixi_skills/cli.py:220-225 | when the loop crashes, the number of reports is the position of the first install that raised something other than ValueError |
| Cli.InstallLogAt | pixi_skills/cli.py:221-225 | the k-th report is the turn report of the k-th skill on the directory the earlier installs left, and neither it nor an earlier install crashed |
| Cli.TurnReportTruthful | pixi_skills/cli.py:221-225 | a turn that does not crash reports its skill's name, "installed" exactly when the name then links to the skill's directory, and a failure only for the ValueError of a non-link |
| Cli.InstallLogReports | pixi_skills/cli.py:221-225 | the loop prints at most one report per skill, and each is an install report for its skill: "installed", or the ValueError of a non-link |
| Cli.NoCrashWhenTargetsExist | pixi_skills/cli.py:219-225 | when every offered skill's directory exists, no install of the selection raises anything but ValueError |
| Cli.ApplyLogReconciled | pixi_skills/cli.py:219-232 | the reports of the two loops, as `Cli.ApplyDelta` gives them, are those `LogReconciled` describes |
| Cli.UninstallOne | pixi_skills/cli.py:229-232 | one uninstall: the name goes iff it is a link; the report says which |
| Cli.UninstallAll | pixi_skills/cli.py:228-232 | the uninstall loop: every link among the names goes, nothing else changes, and there is one report per name, each name once |
| Cli.ApplyDelta | pixi_skills/cli.py:219-232 | installs first and then uninstalls, in one report log: on a crash the log is the install loop's, ending before the crashing install; otherwise it is the install loop's full log followed by one uninstall report per name, each name once, "uninstalled" iff the name was a link after the installs; a ValueError does not stop either loop; nothing is rolled back |
| Cli.ListSkills | pixi_skills/cli.py:68-105 | exit 1 with nothing scanned on the env/scope conflict; otherwise one table per scope to scan, in order, holding that scope's discovered skills sorted and the warnings its discovery issued |
| Cli.ApplyKeepsNonLinks | pixi_skills/cli.py:219-232 | after the install loop and after the uninstall loop, every non-link of the directory is still there, and no new non-link exists |
| Cli.Reconcile | pixi_skills/cli.py:200-232 | (through the predicates `Reconciled` and `LogReconciled`) cancelled iff the prompt is; otherwise the selection is the prompt's answer over the installed names, and "no changes" iff the delta is empty; early endings change nothing and report nothing; otherwise a crash iff the install loop stops early, the directory then holding the loop's state, and otherwise the loop's state after the uninstalls; the log is exactly the install loop's reports for `to_install`, each the turn's own (link path or ValueError); on a crash its length is the position of the first install that raised something other than ValueError; without a crash, one uninstall report per name of `to_uninstall` follows, each name once; when every offered skill's directory exists there is no crash; the directory is created only when something is installed; non-links are never removed, altered or created; on success the links are exactly the selection minus names a non-link holds; only the skills directory changes |
| Cli.ReconciledEarly | pixi_skills/cli.py:200-217 | a cancelled prompt, or an answer with an empty delta, ends `manage` as `Reconciled` says with nothing changed and nothing reported |
| Cli.ReconciledByApply | pixi_skills/cli.py:219-232 | the state and log the two loops leave end `manage` as `Reconciled` says |
| Cli.ManageScoped | pixi_skills/cli.py:187-232 | with the backend and scope fixed: the warnings are those of discovering the scope, "no skills" iff discovery finds none, and then nothing changes; otherwise the skills directory ends as for `Cli.Reconcile`, and only it changes |
| Cli.ManageSkills | pixi_skills/cli.py:141-232 | a usage error (exit 1) iff GLOBAL with a non-default env; cancelled with no warnings when a backend or scope prompt is; otherwise the backend and scope come from the options or the prompts, the warnings are those of discovering that scope, "no skills" iff discovery finds none, and from there the backend's skills directory and the log end as for `Cli.Reconcile`; usage error, cancellation, no skills and no changes leave the filesystem as it was; only that directory changes |

## Left out

- Prompts, option parsing and output: the questionary prompts, typer, rich tables, colours and `CUSTOM_STYLE`. Prompt answers are inputs (`Answers`). Printed messages become report values (`Report`), warnings and outcomes.
- The `--version` callback and the `status` command (`pixi_skills/cli.py:235-264`). `status` only displays `get_installed_skills`.
- YAML parsing: `yaml.safe_load` is a function parameter. Multi-line scalars and quoting depend on it.
- Real filesystem semantics. Symbolic links on the way to a path are not followed: `AbsPath` and `LinkTarget` are lexical normalisation, which is what `resolve` gives when no link lies on the way.
- Permissions and I/O errors, apart from the dangling-link failure of `symlink_to`, are not modelled.
- Directory listing order (`iterdir`, `glob`) and the iteration order of the `to_uninstall` set are inputs or unspecified, not derived.
- `WindsurfBackend` is not part of this model. The repository's tests mention it, but `pixi_skills/backend.py` does not define it.
- `Backend.name` as a class attribute is modelled as `Value(name)`. The constructors are not listed.
- Cli.InstallAll: when an install raises something other than ValueError, the command ends with a traceback. The model stops the loop and reports `Crashed` (exit 1) instead of modelling the exception's propagation.
- Cli.ManageSkills: reports the directory's final state, the outcome and the log as report values (name, kind, and for an install its path or error), not the wording of each printed line.
- Skills.ScanOne, Skills.ScanListing, Skills.DiscoverLocalSkills, Skills.DiscoverGlobalSkills: model the corrected scan of the finding below, in which a YAML syntax error in a front matter is a warning like any other invalid manifest. As written, `yaml.YAMLError` escapes discovery (`Skills.DiscoverAsWritten`, `Skills.DiscoverAsWrittenAborts`).
- Cli.ManageScoped, Cli.ListSkills, Cli.ManageSkills: discover with the corrected scan, so a YAML syntax error never ends `list` or `manage`; as written, both commands end with that exception.
- Skills.FromDirectory: the text of SKILL.md is taken as already decoded. A UnicodeDecodeError (a ValueError, so a warning in the source) and the newline translation of `read_text` are not modelled.
- Backends.InstallStepOf, Backends.Backend.Install, Backends.Backend.Uninstall: a skill name is taken to be one path component. A name that is empty, `.`, `..` or contains `/` would make the source touch the skills directory itself, its parent or a subdirectory; the model treats it as a plain entry name.
- Backends.Backend.Install: whether a link target exists is read from `existing`, which is not tied to `dirs`. A link pointing at an entry of another modelled skills directory counts as existing only if `existing` says so.

## Findings

| source | as written | input that shows it | evidently intended | confidence | as-written member | corrected member |
|---|---|---|---|---|---|---|
| pixi_skills/skill.py:112-115 | discovery catches only ValueError, but a front matter that is not valid YAML makes `yaml.safe_load` raise `yaml.YAMLError`, which is not a ValueError, so the whole `list`/`manage` command fails | one skill directory whose SKILL.md is `---\n[\n---\n` | skip the directory with a warning, like every other invalid manifest | not executed | Skills.DiscoverAsWrittenAborts | Skills.DiscoverMembers |
