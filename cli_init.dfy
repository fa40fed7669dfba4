/** `src/cli/commands/init.ts`: `code-gate init` installs the pre-commit hook
    (native `.githooks`, husky, or simple-git-hooks in `package.json`),
    optionally writes the configuration file, and offers to add the tool's
    files to `.gitignore`. The working tree is a `Workspace` whose fields are
    the text files, the directories, the files made executable, the parsed
    `package.json`, and the log of external commands started. */
module CliInit {
  import opened Util
  import opened Strings
  import opened Json
  import Config

  /** The hook command every installer adds. */
  const HookLine := "npx code-gate hook"
  const Shebang := "#!/usr/bin/env sh"
  const HuskySource := ". \"$(dirname -- \"$0\")/_/husky.sh\""

  datatype HookKind = Husky | Git

  /** The file `ensurePreCommitContains` creates when the hook is missing. */
  function NewHook(kind: HookKind, line: string): string {
    match kind
    case Husky => Join([Shebang, HuskySource, line], "\n") + "\n"
    case Git => Join([Shebang, line], "\n") + "\n"
  }

  /** The hook file's content after `ensurePreCommitContains`, given its
      content before (`None`: no such file). */
  function PreCommitContent(existing: Option<string>, line: string, kind: HookKind): string {
    match existing
    case Some(c) => if Contains(c, line) then c else TrimEnd(c) + "\n" + line + "\n"
    case None => NewHook(kind, line)
  }

  /** Afterwards the hook file always holds the line. */
  lemma PreCommitContainsLine(existing: Option<string>, line: string, kind: HookKind)
    requires '\n' !in line
    ensures Contains(PreCommitContent(existing, line, kind), line)
  {
    var r := PreCommitContent(existing, line, kind);
    match existing
    case Some(c) =>
      if !Contains(c, line) {
        ContainsSelf(line);
        ContainsInfix(TrimEnd(c) + "\n", line, "\n", line);
        assert r == TrimEnd(c) + "\n" + line + "\n";
      }
    case None =>
      NewHookLines(kind, line);
      JoinContainsPart(Split(r, '\n'), "\n", if kind == Husky then 2 else 1);
      JoinSplit(r, '\n');
  }

  /** A second run changes nothing. */
  lemma PreCommitIdempotent(existing: Option<string>, line: string, kind: HookKind, again: HookKind)
    requires '\n' !in line
    ensures PreCommitContent(Some(PreCommitContent(existing, line, kind)), line, again)
         == PreCommitContent(existing, line, kind)
  {
    PreCommitContainsLine(existing, line, kind);
  }

  /** A missing line is added as the last line after the old lines, from
      which trailing white space (blank lines included) is dropped. */
  lemma PreCommitAppendsLine(c: string, line: string, kind: HookKind)
    requires '\n' !in line && !Contains(c, line)
    ensures Split(PreCommitContent(Some(c), line, kind), '\n') == Split(TrimEnd(c), '\n') + [line, ""]
  {
    assert TrimEnd(c) + "\n" + line + "\n" == TrimEnd(c) + ['\n'] + (line + ['\n']);
    SplitAppend(TrimEnd(c), line + ['\n'], '\n');
    SplitLine(line, '\n');
  }

  /** The lines of a freshly created hook file. */
  lemma NewHookLines(kind: HookKind, line: string)
    requires '\n' !in line
    ensures Split(NewHook(kind, line), '\n')
         == (if kind == Husky then [Shebang, HuskySource, line, ""] else [Shebang, line, ""])
  {
    var parts := if kind == Husky then [Shebang, HuskySource, line] else [Shebang, line];
    assert NewHook(kind, line) == Join(parts, "\n") + "\n";
    assert forall p :: p in parts ==> '\n' !in p by {
      HeaderLinesFree();
    }
    EntryLines(parts);
  }

  /** The fixed lines of a new hook file are single lines. */
  lemma HeaderLinesFree()
    ensures '\n' !in Shebang && '\n' !in HuskySource
  {
  }

  /** `path.dirname` */
  function DirName(p: string): string {
    match Config.LastIndex(p, '/')
    case None => "."
    case Some(k) => p[..k]
  }

  /** The state of the working tree the installers touch. */
  datatype Disk = Disk(
    files: map<string, string>,
    dirs: set<string>,
    executable: set<string>,
    packageJson: Option<Value>,
    spawned: seq<seq<string>>)

  function Spawn(d: Disk, cmd: seq<string>): Disk {
    d.(spawned := d.spawned + [cmd])
  }

  /** `ensurePreCommitContains(p, line, kind)`: an existing file is only
      rewritten when the line is missing; a new one is created with its
      directory and made executable. */
  function EnsureHook(d: Disk, p: string, line: string, kind: HookKind): Disk {
    if p in d.files then d.(files := d.files[p := PreCommitContent(Some(d.files[p]), line, kind)])
    else d.(files := d.files[p := NewHook(kind, line)], dirs := d.dirs + {DirName(p)}, executable := d.executable + {p})
  }

  /** The hook file of an installer rooted at `dir`. */
  function HookPath(cwd: string, dir: string): string {
    Config.JoinPath(Config.JoinPath(cwd, dir), "pre-commit")
  }

  /** `initGitHooks` */
  function GitHooksAfter(d: Disk, cwd: string): Disk {
    Spawn(EnsureHook(d, HookPath(cwd, ".githooks"), HookLine, Git), ["git", "config", "core.hooksPath", ".githooks"])
  }

  /** `initHusky`: `npx husky init` runs first when `.husky` is missing. */
  function HuskyAfter(d: Disk, cwd: string): Disk {
    var d1 := if Config.JoinPath(cwd, ".husky") in d.dirs then d else Spawn(d, ["npx", "husky", "init"]);
    Spawn(EnsureHook(d1, HookPath(cwd, ".husky"), HookLine, Husky), ["git", "config", "core.hooksPath", ".husky"])
  }

  const SimpleHooksKey := "simple-git-hooks"

  /** The edit `initSimpleGitHooks` makes to the parsed `package.json`;
      `None` when setting a property throws (`null` or a primitive). An array
      takes the properties but `JSON.stringify` drops them again. */
  function PkgUpdate(pkg: Value): Option<Value> {
    match pkg
    case Obj(f) =>
      Some(Obj(f[SimpleHooksKey := Obj(PropsOr(Get(pkg, SimpleHooksKey))["pre-commit" := Str(HookLine)])]
               ["scripts" := Obj(PropsOr(Get(pkg, "scripts"))["postinstall" := Str("simple-git-hooks")])]))
    case Arr(_) => Some(pkg)
    case _ => None
  }

  /** The two entries are set, everything else in the object is kept. */
  lemma PkgUpdateSetsHook(f: map<string, Value>, k: string, h: string, s: string)
    ensures PkgUpdate(Obj(f)).Some?
    ensures var r := PkgUpdate(Obj(f)).value;
            && Get(Get(r, SimpleHooksKey), "pre-commit") == Str(HookLine)
            && Get(Get(r, "scripts"), "postinstall") == Str("simple-git-hooks")
            && (k != SimpleHooksKey && k != "scripts" ==> Get(r, k) == Get(Obj(f), k))
            && (h != "pre-commit" ==> Get(Get(r, SimpleHooksKey), h) == Get(Obj(PropsOr(Get(Obj(f), SimpleHooksKey))), h))
            && (s != "postinstall" ==> Get(Get(r, "scripts"), s) == Get(Obj(PropsOr(Get(Obj(f), "scripts"))), s))
  {
  }

  /** `scripts` given as an array keeps its elements under their index keys
      beside `postinstall`. */
  lemma PkgUpdateKeepsScriptIndices(f: map<string, Value>, a: seq<Value>, i: nat)
    requires "scripts" in f && f["scripts"] == Arr(a) && i < |a|
    ensures Get(Get(PkgUpdate(Obj(f)).value, "scripts"), Decimal(i)) == a[i]
  {
    DecimalNotName(i, "postinstall");
    PkgUpdateSetsHook(f, "", "", Decimal(i));
    assert Get(Obj(f), "scripts") == Arr(a);
    ArrayIndexProp(a, i);
  }

  /** Running the edit on its own result changes nothing. */
  lemma PkgUpdateIdempotent(pkg: Value)
    requires PkgUpdate(pkg).Some?
    ensures PkgUpdate(PkgUpdate(pkg).value) == PkgUpdate(pkg)
  {
    if pkg.Obj? {
      PkgUpdateSetsHook(pkg.fields, "", "", "");
      UpdateSettled(PkgUpdate(pkg).value.fields);
    }
  }

  /** An object that already holds both entries is left as it is. */
  lemma UpdateSettled(f: map<string, Value>)
    requires Get(Get(Obj(f), SimpleHooksKey), "pre-commit") == Str(HookLine)
    requires Get(Get(Obj(f), "scripts"), "postinstall") == Str("simple-git-hooks")
    ensures PkgUpdate(Obj(f)) == Some(Obj(f))
  {
    var hooks, scripts := f[SimpleHooksKey].fields, f["scripts"].fields;
    assert hooks["pre-commit" := Str(HookLine)] == hooks;
    assert scripts["postinstall" := Str("simple-git-hooks")] == scripts;
    assert f[SimpleHooksKey := Obj(hooks)]["scripts" := Obj(scripts)] == f;
  }

  /** `package.json` holding `null` or a primitive makes the edit throw. */
  lemma PkgUpdateRejects(pkg: Value)
    requires !pkg.Obj? && !pkg.Arr?
    ensures PkgUpdate(pkg).None?
  {
  }

  /** `initSimpleGitHooks`: nothing happens without a `package.json`;
      `None` when the edit throws. */
  function SimpleAfter(d: Disk): Option<Disk> {
    match d.packageJson
    case None => Some(d)
    case Some(pkg) =>
      match PkgUpdate(pkg)
      case None => None
      case Some(v) => Some(d.(packageJson := Some(v)))
  }

  /** `generateConfig`: an existing `.codegate.js` is kept unless `force`. */
  function ConfigAfter(d: Disk, cwd: string, force: bool, template: string): Disk {
    var p := Config.JoinPath(cwd, ".codegate.js");
    if p in d.files && !force then d else d.(files := d.files[p := template])
  }

  /** What `checkAndAddToGitignore` offers to ignore. */
  const IgnoreList: seq<string> := [".codegate.js", ".code-gate"]

  /** The entries not yet mentioned anywhere in `content`, in order. */
  function Missing(entries: seq<string>, content: string): (r: seq<string>)
    ensures IsSubsequence(r, entries)
    ensures forall e :: e in r <==> e in entries && !Contains(content, e)
  {
    if entries == [] then []
    else
      var rest := Missing(entries[1..], content);
      if Contains(content, entries[0]) then rest
      else
        assert ([entries[0]] + rest)[1..] == rest;
        [entries[0]] + rest
  }

  /** `toAdd` */
  function ToAdd(content: string): seq<string> {
    Missing(IgnoreList, content)
  }

  /** What goes before the appended entries: a newline unless the file is
      empty or already ends in one. */
  function Separator(content: string): string {
    if content == "" || content[|content| - 1] == '\n' then "" else "\n"
  }

  /** `content` with the missing `entries` appended one per line. */
  function AppendMissing(content: string, entries: seq<string>): string {
    var t := Missing(entries, content);
    if t == [] then content else content + Separator(content) + Join(t, "\n") + "\n"
  }

  /** `.gitignore` after the step (`""` stands for a missing file). */
  function GitignoreText(content: string, confirmed: bool): string {
    if confirmed then AppendMissing(content, IgnoreList) else content
  }

  function GitignoreAfter(d: Disk, cwd: string, confirmed: bool): Disk {
    var p := Config.JoinPath(cwd, ".gitignore");
    var c := if p in d.files then d.files[p] else "";
    if ToAdd(c) == [] || !confirmed then d else d.(files := d.files[p := GitignoreText(c, confirmed)])
  }

  /** Once confirmed, every entry is ignored. */
  lemma GitignoreCovers(content: string)
    ensures forall e :: e in IgnoreList ==> Contains(GitignoreText(content, true), e)
  {
    forall e | e in IgnoreList
      ensures Contains(AppendMissing(content, IgnoreList), e)
    {
      AppendMissingCovers(content, IgnoreList, e);
    }
  }

  lemma AppendMissingCovers(content: string, entries: seq<string>, e: string)
    requires e in entries
    ensures Contains(AppendMissing(content, entries), e)
  {
    var t := Missing(entries, content);
    if t != [] {
      if Contains(content, e) {
        KeptEntryContained(content, t, e);
      } else {
        assert e in t;
        AddedEntryContained(content + Separator(content), t, e);
      }
    }
  }

  lemma KeptEntryContained(content: string, t: seq<string>, e: string)
    requires Contains(content, e)
    ensures Contains(content + Separator(content) + Join(t, "\n") + "\n", e)
  {
    ContainsExtend(content, Separator(content), e);
    ContainsExtend(content + Separator(content), Join(t, "\n"), e);
    ContainsExtend(content + Separator(content) + Join(t, "\n"), "\n", e);
  }

  lemma AddedEntryContained(prefix: string, t: seq<string>, e: string)
    requires e in t
    ensures Contains(prefix + Join(t, "\n") + "\n", e)
  {
    var k :| 0 <= k < |t| && t[k] == e;
    JoinContainsPart(t, "\n", k);
    ContainsInfix(prefix, Join(t, "\n"), "\n", e);
  }

  /** A second run finds nothing to add. */
  lemma GitignoreIdempotent(content: string, confirmed: bool)
    ensures ToAdd(GitignoreText(content, true)) == []
    ensures GitignoreText(GitignoreText(content, confirmed), confirmed) == GitignoreText(content, confirmed)
  {
    GitignoreCovers(content);
    NothingMissing(GitignoreText(content, true), IgnoreList);
  }

  lemma {:induction false} NothingMissing(content: string, entries: seq<string>)
    requires forall e :: e in entries ==> Contains(content, e)
    ensures Missing(entries, content) == []
  {
    if entries != [] {
      assert entries[0] in entries;
      NothingMissing(content, entries[1..]);
    }
  }

  /** The text of a non-empty file without its final newline, if any. */
  function Body(content: string): string {
    if content != "" && content[|content| - 1] == '\n' then content[..|content| - 1] else content
  }

  /** The lines of an existing file: a final newline ends the last line
      rather than starting an empty one, and an empty file has none. */
  function OldLines(content: string): seq<string> {
    if content == "" then [] else Split(Body(content), '\n')
  }

  /** The old lines are kept and each missing entry follows on a line of
      its own. */
  lemma GitignoreLines(content: string)
    requires ToAdd(content) != []
    ensures Split(GitignoreText(content, true), '\n') == OldLines(content) + ToAdd(content) + [""]
  {
    assert forall p :: p in IgnoreList ==> '\n' !in p;
    AppendMissingLines(content, IgnoreList);
  }

  lemma AppendMissingLines(content: string, entries: seq<string>)
    requires Missing(entries, content) != []
    requires forall p :: p in entries ==> '\n' !in p
    ensures Split(AppendMissing(content, entries), '\n') == OldLines(content) + Missing(entries, content) + [""]
  {
    var t := Missing(entries, content);
    assert forall p :: p in t ==> '\n' !in p;
    AppendedLines(content, t);
  }

  /** The lines of `content` followed by the separator and the entries. */
  lemma AppendedLines(content: string, t: seq<string>)
    requires t != []
    requires forall p :: p in t ==> '\n' !in p
    ensures Split(content + Separator(content) + Join(t, "\n") + "\n", '\n') == OldLines(content) + t + [""]
  {
    EntryLines(t);
    var added := Join(t, "\n") + "\n";
    var whole := content + Separator(content) + Join(t, "\n") + "\n";
    if content == "" {
      assert whole == added;
      assert OldLines(content) + t + [""] == t + [""];
    } else {
      assert whole == Body(content) + ['\n'] + added by {
        SeparatorEndsLine(content);
      }
      SplitAppend(Body(content), added, '\n');
      assert OldLines(content) + t + [""] == Split(Body(content), '\n') + (t + [""]);
    }
  }

  /** With the separator the old content ends in exactly one newline. */
  lemma SeparatorEndsLine(content: string)
    requires content != ""
    ensures content + Separator(content) == Body(content) + ['\n']
  {
    if content[|content| - 1] == '\n' {
      assert content == Body(content) + ['\n'];
    }
  }

  /** Newline-free entries joined and terminated: one line each. */
  lemma EntryLines(t: seq<string>)
    requires t != []
    requires forall p :: p in t ==> '\n' !in p
    ensures Split(Join(t, "\n") + "\n", '\n') == t + [""]
  {
    SplitJoin(t, '\n');
    var j := Join(t, "\n");
    assert j + "\n" == j + ['\n'] + [];
    SplitAppend(j, [], '\n');
  }

  datatype Outcome = Exited(code: int) | Completed | Crashed

  /** The hook installer chosen by the method name. */
  function InstallAfter(d: Disk, cwd: string, hookMethod: string): Option<Disk> {
    if hookMethod == "husky" then Some(HuskyAfter(d, cwd))
    else if hookMethod == "simple" then SimpleAfter(d)
    else Some(GitHooksAfter(d, cwd))
  }

  /** `runInit`; `gitignoreStep` tells the command-line version (which ends
      with the `.gitignore` step) from the older one (which does not). */
  function RunInitAfter(d: Disk, cwd: string, isGitRepo: bool, hookMethod: string, genConfig: bool,
                        force: bool, template: string, confirmed: bool, gitignoreStep: bool): (Outcome, Disk)
  {
    if !isGitRepo then (Exited(1), d)
    else match InstallAfter(d, cwd, hookMethod)
      case None => (Crashed, d)
      case Some(d1) =>
        var d2 := if genConfig then ConfigAfter(d1, cwd, force, template) else d1;
        (Completed, if gitignoreStep then GitignoreAfter(d2, cwd, confirmed) else d2)
  }

  /** Outside a git repository the command exits with 1 and touches nothing. */
  lemma NotARepository(d: Disk, cwd: string, hookMethod: string, genConfig: bool, force: bool,
                       template: string, confirmed: bool, gitignoreStep: bool)
    ensures RunInitAfter(d, cwd, false, hookMethod, genConfig, force, template, confirmed, gitignoreStep) == (Exited(1), d)
  {
  }

  /** Only the simple-git-hooks installer reads `package.json`; the others
      install the hook file of their own directory. */
  lemma InstallDispatch(d: Disk, cwd: string, hookMethod: string)
    ensures hookMethod != "simple" ==> InstallAfter(d, cwd, hookMethod).Some?
    ensures hookMethod != "simple" ==> InstallAfter(d, cwd, hookMethod).value.packageJson == d.packageJson
    ensures hookMethod == "husky" ==>
      InstallAfter(d, cwd, hookMethod).value.files[HookPath(cwd, ".husky")] == PreCommitContent(
        if HookPath(cwd, ".husky") in d.files then Some(d.files[HookPath(cwd, ".husky")]) else None, HookLine, Husky)
    ensures hookMethod != "simple" && hookMethod != "husky" ==>
      InstallAfter(d, cwd, hookMethod).value.files[HookPath(cwd, ".githooks")] == PreCommitContent(
        if HookPath(cwd, ".githooks") in d.files then Some(d.files[HookPath(cwd, ".githooks")]) else None, HookLine, Git)
    ensures hookMethod == "simple" ==> InstallAfter(d, cwd, hookMethod) == SimpleAfter(d)
    ensures hookMethod == "simple" && d.packageJson.None? ==> InstallAfter(d, cwd, hookMethod) == Some(d)
  {
  }

  /** Where `generateConfig` writes. */
  function ConfigPath(cwd: string): string {
    Config.JoinPath(cwd, ".codegate.js")
  }

  /** `.gitignore` as the step reads it. */
  function GitignoreContent(d: Disk, cwd: string): string {
    var p := Config.JoinPath(cwd, ".gitignore");
    if p in d.files then d.files[p] else ""
  }

  predicate HasHook(d: Disk, p: string) {
    p in d.files && Contains(d.files[p], HookLine)
  }

  /** The state in which `runInit` with these arguments has nothing left to do. */
  predicate Settled(d: Disk, cwd: string, hookMethod: string, genConfig: bool, force: bool, template: string,
                    confirmed: bool, gitignoreStep: bool)
  {
    && HookSettled(d, cwd, hookMethod)
    && ConfigSettled(d, cwd, genConfig, force, template)
    && (gitignoreStep && confirmed ==> ToAdd(GitignoreContent(d, cwd)) == [])
  }

  predicate HookSettled(d: Disk, cwd: string, hookMethod: string) {
    && (hookMethod == "husky" ==> HasHook(d, HookPath(cwd, ".husky")))
    && (hookMethod == "simple" ==> d.packageJson.Some? ==> PkgUpdate(d.packageJson.value) == d.packageJson)
    && (hookMethod != "husky" && hookMethod != "simple" ==> HasHook(d, HookPath(cwd, ".githooks")))
  }

  predicate ConfigSettled(d: Disk, cwd: string, genConfig: bool, force: bool, template: string) {
    genConfig ==> ConfigPath(cwd) in d.files && (force ==> d.files[ConfigPath(cwd)] == template)
  }

  /** Running `init` a second time with the same answers leaves every file,
      the executable bits and `package.json` as the first run left them. */
  lemma RunInitTwice(d: Disk, cwd: string, hookMethod: string, genConfig: bool, force: bool, template: string,
                     confirmed: bool, gitignoreStep: bool)
    requires RunInitAfter(d, cwd, true, hookMethod, genConfig, force, template, confirmed, gitignoreStep).0 == Completed
    ensures var d1 := RunInitAfter(d, cwd, true, hookMethod, genConfig, force, template, confirmed, gitignoreStep).1;
            var r2 := RunInitAfter(d1, cwd, true, hookMethod, genConfig, force, template, confirmed, gitignoreStep);
            && r2.0 == Completed
            && r2.1.files == d1.files && r2.1.executable == d1.executable && r2.1.packageJson == d1.packageJson
  {
    FirstRunSettles(d, cwd, hookMethod, genConfig, force, template, confirmed, gitignoreStep);
    var d1 := RunInitAfter(d, cwd, true, hookMethod, genConfig, force, template, confirmed, gitignoreStep).1;
    SettledRunChangesNothing(d1, cwd, hookMethod, genConfig, force, template, confirmed, gitignoreStep);
  }

  lemma SettledRunChangesNothing(d: Disk, cwd: string, hookMethod: string, genConfig: bool, force: bool,
                                 template: string, confirmed: bool, gitignoreStep: bool)
    requires Settled(d, cwd, hookMethod, genConfig, force, template, confirmed, gitignoreStep)
    ensures var r := RunInitAfter(d, cwd, true, hookMethod, genConfig, force, template, confirmed, gitignoreStep);
            && r.0 == Completed
            && r.1.files == d.files && r.1.executable == d.executable && r.1.packageJson == d.packageJson
  {
    assert '\n' !in HookLine;
    var i := InstallAfter(d, cwd, hookMethod);
    assert i.Some?;
    assert i.value.files == d.files && i.value.executable == d.executable && i.value.packageJson == d.packageJson;
  }

  lemma FirstRunSettles(d: Disk, cwd: string, hookMethod: string, genConfig: bool, force: bool,
                        template: string, confirmed: bool, gitignoreStep: bool)
    requires RunInitAfter(d, cwd, true, hookMethod, genConfig, force, template, confirmed, gitignoreStep).0 == Completed
    ensures Settled(RunInitAfter(d, cwd, true, hookMethod, genConfig, force, template, confirmed, gitignoreStep).1,
                    cwd, hookMethod, genConfig, force, template, confirmed, gitignoreStep)
  {
    InstallSettles(d, cwd, hookMethod);
    var d1 := InstallAfter(d, cwd, hookMethod).value;
    var d2 := if genConfig then ConfigAfter(d1, cwd, force, template) else d1;
    ConfigStepSettles(d1, cwd, hookMethod, genConfig, force, template);
    var d3 := if gitignoreStep then GitignoreAfter(d2, cwd, confirmed) else d2;
    GitignoreStepSettles(d2, cwd, hookMethod, genConfig, force, template, confirmed, gitignoreStep);
  }

  lemma InstallSettles(d: Disk, cwd: string, hookMethod: string)
    requires InstallAfter(d, cwd, hookMethod).Some?
    ensures HookSettled(InstallAfter(d, cwd, hookMethod).value, cwd, hookMethod)
  {
    assert '\n' !in HookLine;
    if hookMethod == "husky" {
      var p := HookPath(cwd, ".husky");
      PreCommitContainsLine(if p in d.files then Some(d.files[p]) else None, HookLine, Husky);
    } else if hookMethod == "simple" {
      if d.packageJson.Some? {
        PkgUpdateIdempotent(d.packageJson.value);
      }
    } else {
      var p := HookPath(cwd, ".githooks");
      PreCommitContainsLine(if p in d.files then Some(d.files[p]) else None, HookLine, Git);
    }
  }

  lemma ConfigStepSettles(d: Disk, cwd: string, hookMethod: string, genConfig: bool, force: bool, template: string)
    requires HookSettled(d, cwd, hookMethod)
    ensures var d2 := if genConfig then ConfigAfter(d, cwd, force, template) else d;
            && HookSettled(d2, cwd, hookMethod)
            && ConfigSettled(d2, cwd, genConfig, force, template)
            && GitignoreContent(d2, cwd) == GitignoreContent(d, cwd)
  {
    assert |ConfigPath(cwd)| != |HookPath(cwd, ".husky")| && |ConfigPath(cwd)| != |HookPath(cwd, ".githooks")|;
    assert |ConfigPath(cwd)| != |Config.JoinPath(cwd, ".gitignore")|;
  }

  lemma GitignoreStepSettles(d: Disk, cwd: string, hookMethod: string, genConfig: bool, force: bool,
                             template: string, confirmed: bool, gitignoreStep: bool)
    requires HookSettled(d, cwd, hookMethod) && ConfigSettled(d, cwd, genConfig, force, template)
    ensures Settled(if gitignoreStep then GitignoreAfter(d, cwd, confirmed) else d,
                    cwd, hookMethod, genConfig, force, template, confirmed, gitignoreStep)
  {
    var gi := Config.JoinPath(cwd, ".gitignore");
    assert |gi| != |HookPath(cwd, ".husky")| && |gi| != |HookPath(cwd, ".githooks")| && |gi| != |ConfigPath(cwd)|;
    var d3 := if gitignoreStep then GitignoreAfter(d, cwd, confirmed) else d;
    if gitignoreStep && confirmed {
      var c := GitignoreContent(d, cwd);
      GitignoreIdempotent(c, true);
      if ToAdd(c) != [] {
        assert GitignoreContent(d3, cwd) == GitignoreText(c, true);
      }
    }
  }

  class Workspace {
    const cwd: string
    /** Whether `git rev-parse --is-inside-work-tree` succeeds in `cwd`. */
    const isGitRepo: bool
    var files: map<string, string>
    var dirs: set<string>
    var executable: set<string>
    var packageJson: Option<Value>
    var spawned: seq<seq<string>>

    function Snapshot(): Disk
      reads this
    {
      Disk(files, dirs, executable, packageJson, spawned)
    }

    constructor (cwd: string, isGitRepo: bool, d: Disk)
      ensures this.cwd == cwd && this.isGitRepo == isGitRepo && Snapshot() == d
    {
      this.cwd := cwd;
      this.isGitRepo := isGitRepo;
      files := d.files;
      dirs := d.dirs;
      executable := d.executable;
      packageJson := d.packageJson;
      spawned := d.spawned;
    }

    /** `writeFileSafe`: creates the parent directory, then writes. */
    method WriteFileSafe(p: string, content: string)
      modifies this
      ensures Snapshot() == old(Snapshot()).(files := old(files)[p := content], dirs := old(dirs) + {DirName(p)})
    {
      dirs := dirs + {DirName(p)};
      files := files[p := content];
    }

    method SpawnSync(cmd: seq<string>)
      modifies this
      ensures Snapshot() == Spawn(old(Snapshot()), cmd)
    {
      spawned := spawned + [cmd];
    }

    /** `ensurePreCommitContains` */
    method EnsurePreCommitContains(p: string, line: string, kind: HookKind)
      modifies this
      ensures Snapshot() == EnsureHook(old(Snapshot()), p, line, kind)
    {
      if p in files {
        var content := files[p];
        if !Contains(content, line) {
          files := files[p := TrimEnd(content) + "\n" + line + "\n"];
        }
        return;
      }
      WriteFileSafe(p, NewHook(kind, line));
      executable := executable + {p};
    }

    /** `initGitHooks` */
    method InitGitHooks()
      modifies this
      ensures Snapshot() == GitHooksAfter(old(Snapshot()), cwd)
    {
      EnsurePreCommitContains(HookPath(cwd, ".githooks"), HookLine, Git);
      SpawnSync(["git", "config", "core.hooksPath", ".githooks"]);
    }

    /** `initHusky` */
    method InitHusky()
      modifies this
      ensures Snapshot() == HuskyAfter(old(Snapshot()), cwd)
    {
      var huskyDir := Config.JoinPath(cwd, ".husky");
      if huskyDir !in dirs {
        SpawnSync(["npx", "husky", "init"]);
      }
      EnsurePreCommitContains(HookPath(cwd, ".husky"), HookLine, Husky);
      SpawnSync(["git", "config", "core.hooksPath", ".husky"]);
    }

    /** `initSimpleGitHooks`: `ok` is false when the edit throws. */
    method InitSimpleGitHooks() returns (ok: bool)
      modifies this
      ensures ok == SimpleAfter(old(Snapshot())).Some?
      ensures ok ==> Snapshot() == SimpleAfter(old(Snapshot())).value
      ensures !ok ==> Snapshot() == old(Snapshot())
    {
      if packageJson.None? {
        return true;
      }
      var pkg := packageJson.value;
      match pkg
      case Obj(f) =>
        var hooks := PropsOr(Get(pkg, SimpleHooksKey))["pre-commit" := Str(HookLine)];
        f := f[SimpleHooksKey := Obj(hooks)];
        var scripts := PropsOr(Get(Obj(f), "scripts"))["postinstall" := Str("simple-git-hooks")];
        f := f["scripts" := Obj(scripts)];
        packageJson := Some(Obj(f));
        ok := true;
      case Arr(_) =>
        packageJson := Some(pkg);
        ok := true;
      case _ =>
        ok := false;
    }

    /** `generateConfig` with the template text as a parameter. */
    method GenerateConfig(force: bool, template: string)
      modifies this
      ensures Snapshot() == ConfigAfter(old(Snapshot()), cwd, force, template)
    {
      var configPath := Config.JoinPath(cwd, ".codegate.js");
      if configPath in files && !force {
        return;
      }
      files := files[configPath := template];
    }

    /** `checkAndAddToGitignore`; `confirmed` is the user's answer to the prompt. */
    method CheckAndAddToGitignore(confirmed: bool)
      modifies this
      ensures Snapshot() == GitignoreAfter(old(Snapshot()), cwd, confirmed)
    {
      var gitignorePath := Config.JoinPath(cwd, ".gitignore");
      var content := "";
      if gitignorePath in files {
        content := files[gitignorePath];
      }
      var toAdd := Missing(IgnoreList, content);
      if |toAdd| == 0 {
        return;
      }
      if confirmed {
        files := files[gitignorePath := content + Separator(content) + Join(toAdd, "\n") + "\n"];
      }
    }

    /** `runInit` */
    method RunInit(hookMethod: string, genConfig: bool, force: bool, template: string, confirmed: bool)
      returns (outcome: Outcome)
      modifies this
      ensures (outcome, Snapshot())
           == RunInitAfter(old(Snapshot()), cwd, isGitRepo, hookMethod, genConfig, force, template, confirmed, true)
    {
      if !isGitRepo {
        return Exited(1);
      }
      if hookMethod == "husky" {
        InitHusky();
      } else if hookMethod == "simple" {
        var ok := InitSimpleGitHooks();
        if !ok {
          return Crashed;
        }
      } else {
        InitGitHooks();
      }
      if genConfig {
        GenerateConfig(force, template);
      }
      CheckAndAddToGitignore(confirmed);
      outcome := Completed;
    }
  }
}
