/** The pure part of `src/core/git.ts`: turning the output of `git diff
    --staged --name-only` into a file list, filtering it by extension, and
    picking the commit subject. Running git itself is an input. */
module Git {
  import opened Util
  import opened Strings

  /** `runGit`: the standard output of a git command that exited with status
      0; the empty string when it failed or was killed (no exit status). */
  function RunGit(exitStatus: Option<int>, stdout: string): string {
    if exitStatus == Some(0) then stdout else ""
  }

  /** `getStagedFiles`: `out.split('\n').map(s => s.trim()).filter(Boolean)`. */
  function StagedFiles(out: string): seq<string> {
    KeepTrimmed(Split(out, '\n'))
  }

  /** The non-empty trimmed lines, in order. */
  function KeepTrimmed(lines: seq<string>): seq<string> {
    if lines == [] then [] else KeepLine(lines[0]) + KeepTrimmed(lines[1..])
  }

  /** One line's contribution: its trimmed form unless that is empty. */
  function KeepLine(line: string): seq<string> {
    var t := Trim(line);
    if t == "" then [] else [t]
  }

  /** A file name as `getStagedFiles` returns it. */
  predicate IsListedName(n: string) {
    n != "" && IsTrimmed(n) && '\n' !in n
  }

  lemma {:induction false} KeepTrimmedWellFormed(lines: seq<string>)
    requires forall l :: l in lines ==> '\n' !in l
    ensures forall n :: n in KeepTrimmed(lines) ==> IsListedName(n)
  {
    if lines != [] {
      KeepTrimmedWellFormed(lines[1..]);
      var t := Trim(lines[0]);
      assert lines[0] in lines;
      TrimShape(lines[0]);
      if '\n' in t {
        TrimKeepsOnly(lines[0], '\n');
      }
    }
  }

  /** Every listed staged file name is non-empty, trimmed and one line. */
  lemma StagedFilesWellFormed(out: string)
    ensures forall n :: n in StagedFiles(out) ==> IsListedName(n)
  {
    SplitPiecesFree(out, '\n');
    KeepTrimmedWellFormed(Split(out, '\n'));
  }

  /** A failed git command lists no files. */
  lemma FailedGitListsNothing(exitStatus: Option<int>, stdout: string)
    requires exitStatus != Some(0)
    ensures StagedFiles(RunGit(exitStatus, stdout)) == []
  {
  }

  lemma {:induction false} KeepTrimmedAppend(a: seq<string>, b: seq<string>)
    ensures KeepTrimmed(a + b) == KeepTrimmed(a) + KeepTrimmed(b)
  {
    if a == [] {
      assert a + b == b;
    } else {
      var l, rest := a[0], a[1..];
      assert a == [l] + rest;
      assert a + b == [l] + (rest + b);
      KeepTrimmedCons(l, rest);
      KeepTrimmedCons(l, rest + b);
      KeepTrimmedAppend(rest, b);
      AppendAssoc(KeepLine(l), KeepTrimmed(rest), KeepTrimmed(b));
    }
  }

  lemma KeepTrimmedCons(l: string, rest: seq<string>)
    ensures KeepTrimmed([l] + rest) == KeepLine(l) + KeepTrimmed(rest)
  {
    assert ([l] + rest)[0] == l && ([l] + rest)[1..] == rest;
  }

  lemma {:induction false} KeepTrimmedListed(names: seq<string>)
    requires forall n :: n in names ==> IsListedName(n)
    ensures KeepTrimmed(names) == names
  {
    if names != [] {
      assert names[0] in names;
      KeepTrimmedListed(names[1..]);
      TrimmedFixed(names[0]);
      assert [names[0]] + names[1..] == names;
    }
  }

  lemma {:induction false} JoinAppendEmpty(names: seq<string>, sep: string)
    requires names != []
    ensures Join(names + [""], sep) == Join(names, sep) + sep
  {
    if |names| > 1 {
      JoinAppendEmpty(names[1..], sep);
      assert (names + [""])[1..] == names[1..] + [""];
    }
  }

  /** Git prints one name per line, each line ending in a newline; parsing
      that output gives back exactly the names, in order. */
  lemma StagedFilesRoundTrip(names: seq<string>)
    requires forall n :: n in names ==> IsListedName(n)
    ensures StagedFiles(Join(names, "\n") + "\n") == names
  {
    EmptyLineDropped();
    if names == [] {
      assert Join(names, "\n") + "\n" == "\n";
      assert Split("\n", '\n') == ["", ""];
      KeepTrimmedAppend([""], [""]);
      assert [""] + [""] == ["", ""];
    } else {
      var parts := names + [""];
      JoinAppendEmpty(names, "\n");
      ListedLinesFree(names);
      SplitJoin(parts, '\n');
      KeepTrimmedAppend(names, [""]);
      KeepTrimmedListed(names);
    }
  }

  lemma ListedLinesFree(names: seq<string>)
    requires forall n :: n in names ==> IsListedName(n)
    ensures forall p :: p in names + [""] ==> '\n' !in p
  {
  }

  /** A blank line lists nothing. */
  lemma EmptyLineDropped()
    ensures KeepTrimmed([""]) == []
  {
    assert Trim("") == "";
    assert [""][1..] == [];
  }

  /** A configured type with one leading '.' removed, lower-cased. */
  function NormalizeType(t: string): string {
    LowerStr(if |t| > 0 && t[0] == '.' then t[1..] else t)
  }

  function Extensions(fileTypes: seq<string>): set<string> {
    set t | t in fileTypes :: NormalizeType(t)
  }

  /** `f.split('.').pop()` */
  function LastSegment(f: string): string {
    var parts := Split(f, '.');
    parts[|parts| - 1]
  }

  /** The filter's test: a non-empty last segment whose lower-cased form is
      one of the extensions. */
  predicate Accepts(exts: set<string>, f: string) {
    var m := LastSegment(f);
    m != "" && LowerStr(m) in exts
  }

  /** `filterFiles`: without configured types (absent or empty) every file
      passes; otherwise the accepted files, in input order. */
  function FilterFiles(files: seq<string>, fileTypes: Option<seq<string>>): (r: seq<string>)
  {
    if fileTypes.None? || fileTypes.value == [] then files
    else KeepAccepted(files, Extensions(fileTypes.value))
  }

  function KeepAccepted(files: seq<string>, exts: set<string>): (r: seq<string>)
    ensures IsSubsequence(r, files)
    ensures forall f :: f in r <==> f in files && Accepts(exts, f)
  {
    if files == [] then []
    else
      var rest := KeepAccepted(files[1..], exts);
      assert files == [files[0]] + files[1..];
      if Accepts(exts, files[0]) then [files[0]] + rest else rest
  }

  /** The outcome of `filterFiles` as the source promises it. */
  lemma FilterFilesSpec(files: seq<string>, fileTypes: Option<seq<string>>)
    ensures fileTypes.None? || fileTypes.value == [] ==> FilterFiles(files, fileTypes) == files
    ensures IsSubsequence(FilterFiles(files, fileTypes), files)
    ensures fileTypes.Some? && fileTypes.value != [] ==>
      forall f :: f in FilterFiles(files, fileTypes) <==>
        f in files && LastSegment(f) != "" && LowerStr(LastSegment(f)) in Extensions(fileTypes.value)
  {
    if fileTypes.None? || fileTypes.value == [] {
      SubsequenceRefl(files);
    }
  }

  lemma {:induction false} SubsequenceRefl<T>(s: seq<T>)
    ensures IsSubsequence(s, s)
  {
    if s != [] {
      SubsequenceRefl(s[1..]);
    }
  }

  lemma {:induction false} JoinLast(parts: seq<string>, sep: string)
    requires |parts| >= 2
    ensures Join(parts, sep) == Join(parts[..|parts| - 1], sep) + sep + parts[|parts| - 1]
  {
    if |parts| > 2 {
      JoinLast(parts[1..], sep);
      assert parts[1..][..|parts| - 2] == parts[..|parts| - 1][1..];
    }
  }

  /** The last segment is what follows the last '.', or the whole name when
      there is no '.'. */
  lemma LastSegmentShape(f: string)
    ensures '.' !in LastSegment(f)
    ensures exists k :: 0 <= k <= |f| && f[k..] == LastSegment(f) && (k == 0 || f[k - 1] == '.')
  {
    var parts := Split(f, '.');
    var m := parts[|parts| - 1];
    SplitPiecesFree(f, '.');
    JoinSplit(f, '.');
    if |parts| == 1 {
      assert f[0..] == m;
    } else {
      JoinLast(parts, ".");
      var k := |f| - |m|;
      assert f[k..] == m;
    }
  }

  lemma NoDotIsWholeName(f: string)
    requires '.' !in f
    ensures LastSegment(f) == f
  {
    SplitNoSep(f, '.');
  }

  /** A name ending in '.' has an empty last segment and is never kept. */
  lemma TrailingDotRejected(exts: set<string>, f: string)
    requires f != [] && f[|f| - 1] == '.'
    ensures LastSegment(f) == "" && !Accepts(exts, f)
  {
    LastSegmentShape(f);
    var k :| 0 <= k <= |f| && f[k..] == LastSegment(f) && (k == 0 || f[k - 1] == '.');
  }

  /** The subject line of a commit message: its first line, trimmed. */
  function Subject(msg: string): string {
    Trim(Split(Trim(msg), '\n')[0])
  }

  /** `getCommitMessage`: the subject of `COMMIT_EDITMSG` inside the git
      directory when there is one and it is not empty, otherwise the subject
      of the HEAD commit as `git log -1 --pretty=%s` prints it. */
  function CommitMessage(gitDirOutput: string, editMsg: Option<string>, headSubject: string): (r: string)
  {
    var gitDir := Trim(gitDirOutput);
    if gitDir != "" && editMsg.Some? && Subject(editMsg.value) != "" then Subject(editMsg.value)
    else Trim(headSubject)
  }

  lemma {:induction false} TrimEndAfter(s: string, t: string)
    requires s != [] && !IsSpace(s[|s| - 1])
    ensures TrimEnd(s + t) == s + TrimEnd(t)
  {
    if t != [] && IsSpace(t[|t| - 1]) {
      TrimEndAfter(s, t[..|t| - 1]);
      assert (s + t)[..|s + t| - 1] == s + t[..|t| - 1];
    }
  }

  /** A message whose first line is a non-empty trimmed subject has that
      subject, whatever the body. */
  lemma SubjectOfMessage(subject: string, body: string)
    requires IsListedName(subject)
    ensures Subject(subject + "\n" + body) == subject
  {
    var x := TrimEnd("\n" + body);
    TrimMessage(subject, body);
    FirstLine(subject, x);
    TrimmedFixed(subject);
  }

  /** Trimming such a message only cuts the end of the body. */
  lemma TrimMessage(subject: string, body: string)
    requires IsListedName(subject)
    ensures var x := TrimEnd("\n" + body);
            Trim(subject + "\n" + body) == subject + x && (x == [] || x[0] == '\n')
  {
    var tail := "\n" + body;
    TrimEndAfter(subject, tail);
    assert subject + "\n" + body == subject + tail;
    var x := TrimEnd(tail);
    assert TrimStart(subject + x) == subject + x;
  }

  /** A separator-free head followed by nothing or by a new line is the first line. */
  lemma FirstLine(head: string, x: string)
    requires '\n' !in head && (x == [] || x[0] == '\n')
    ensures Split(head + x, '\n')[0] == head
  {
    if x == [] {
      SplitNoSep(head, '\n');
      assert head + x == head;
    } else {
      assert head + x == head + ['\n'] + x[1..];
      SplitPrefix(head, x[1..], '\n');
    }
  }

  /** The chosen message: the edited subject when usable, which is a single
      trimmed line; the HEAD subject otherwise. */
  lemma CommitMessageChoice(gitDirOutput: string, editMsg: Option<string>, headSubject: string)
    ensures var r := CommitMessage(gitDirOutput, editMsg, headSubject);
      if Trim(gitDirOutput) != "" && editMsg.Some? && Subject(editMsg.value) != ""
      then r == Subject(editMsg.value) && '\n' !in r && IsTrimmed(r)
      else r == Trim(headSubject)
  {
    if Trim(gitDirOutput) != "" && editMsg.Some? && Subject(editMsg.value) != "" {
      var msg := editMsg.value;
      var first := Split(Trim(msg), '\n')[0];
      SplitPiecesFree(Trim(msg), '\n');
      assert first in Split(Trim(msg), '\n');
      TrimShape(first);
      if '\n' in Subject(msg) {
        TrimKeepsOnly(first, '\n');
      }
    }
  }
}
