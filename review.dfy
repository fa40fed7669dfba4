/** `src/core/review.ts`: the review engine. Given the staged files and
    diff, it either asks the provider for one summary of the whole diff, or
    lets a pool of workers take the files one by one from a shared queue
    and ask for a review of each, optionally followed by the summary. It
    collects one item per reviewed file, keeps the AI flags and the status
    line, and answers the live page's status requests from what it has
    collected. The provider, the per-file diff and the preview address are
    parameters; serving, saving and rendering the pages are left out. */
module Review {
  import opened Util
  import Git

  /** What the provider's `review` call is given. */
  datatype Request = Request(prompt: string, diff: string)

  /** What the call yields: a text, or a failure with its description
      (`e.message`, or the thrown value itself when that is empty). */
  datatype Reply = Ok(text: string) | Fail(reason: string)

  /** `cfg.reviewMode || 'files'`; any other string is kept and then
      matches none of the three names. */
  datatype Mode = SummaryOnly | FilesOnly | Both | Other

  function ParseMode(reviewMode: string): (m: Mode)
    ensures m == SummaryOnly <==> reviewMode == "summary"
    ensures m == Both <==> reviewMode == "both"
    ensures m == FilesOnly <==> reviewMode == "" || reviewMode == "files"
  {
    if reviewMode == "" || reviewMode == "files" then FilesOnly
    else if reviewMode == "summary" then SummaryOnly
    else if reviewMode == "both" then Both
    else Other
  }

  datatype ReviewItem = ReviewItem(file: string, review: string, diff: string, done: bool)

  /** One `onProgress(file, index, total)` call. */
  datatype Progress = Progress(file: string, index: nat, total: nat)

  /** The answer to a status request: the finished items and whether all
      expected ones are there. */
  datatype StatusSnapshot = StatusSnapshot(files: seq<ReviewItem>, done: bool)

  const SummaryFile := "Summary"

  const DiffHeaderStart := "diff --git a/"
  const DiffHeaderMiddle := " b/"
  const FailureStatusPrefix := "LLM 调用失败："
  const FailureReviewPrefix := "未生成 AI 审查结果。\n错误信息："

  /** `fdiff || 'diff --git a/' + f + ' b/' + f`: the file's own diff, or a
      bare header naming it; never empty. */
  function ShownDiff(f: string, fdiff: string): (d: string)
    ensures d != ""
    ensures fdiff != "" ==> d == fdiff
    ensures fdiff == "" ==> d == DiffHeaderStart + f + DiffHeaderMiddle + f
  {
    if fdiff != "" then fdiff else DiffHeaderStart + f + DiffHeaderMiddle + f
  }

  /** The status line after a failed summary call. */
  function FailureStatus(reason: string): string {
    FailureStatusPrefix + reason
  }

  /** The summary text after a failed summary call. */
  function FailureReview(reason: string): string {
    FailureReviewPrefix + reason
  }

  /** `Math.max(1, Math.min(8, concurrencyFiles || 1))` for an integer
      setting (0 standing for unset). */
  function WorkerCount(concurrencyFiles: int): (n: nat)
    ensures 1 <= n <= 8
    ensures 1 <= concurrencyFiles <= 8 ==> n == concurrencyFiles
    ensures concurrencyFiles > 8 ==> n == 8
    ensures concurrencyFiles < 1 ==> n == 1
  {
    var c := if concurrencyFiles == 0 then 1 else concurrencyFiles;
    var m := if c < 8 then c else 8;
    if m > 1 then m else 1
  }

  /** `files.slice(0, maxFiles || files.length)` for an integer setting (0
      standing for unset): a prefix of the files, all of them when the
      bound is unset or too large, and a negative bound counting from the
      end. */
  function DispatchList(files: seq<string>, maxFiles: int): (r: seq<string>)
    ensures |r| <= |files| && r == files[..|r|]
    ensures maxFiles == 0 || maxFiles >= |files| ==> r == files
    ensures 0 < maxFiles <= |files| ==> |r| == maxFiles
    ensures maxFiles < 0 ==> |r| == if |files| + maxFiles > 0 then |files| + maxFiles else 0
  {
    var end := if maxFiles == 0 then |files| else maxFiles;
    var k := if end < 0 then (if |files| + end > 0 then |files| + end else 0)
             else if end > |files| then |files| else end;
    files[..k]
  }

  /** The entries of a list the workers review: all but the empty name,
      which makes the worker that takes it stop. */
  function Named(fs: seq<string>): (r: seq<string>)
    ensures "" !in r
    ensures "" !in fs ==> r == fs
  {
    if fs == [] then []
    else
      assert fs == [fs[0]] + fs[1..];
      (if fs[0] == "" then [] else [fs[0]]) + Named(fs[1..])
  }

  lemma {:induction false} NamedAppend(a: seq<string>, b: seq<string>)
    ensures Named(a + b) == Named(a) + Named(b)
  {
    if a == [] {
      assert a + b == b;
    } else {
      assert (a + b)[0] == a[0] && (a + b)[1..] == a[1..] + b;
      NamedAppend(a[1..], b);
    }
  }

  function Files(items: seq<ReviewItem>): (r: seq<string>)
    ensures |r| == |items|
    ensures forall i :: 0 <= i < |items| ==> r[i] == items[i].file
  {
    seq(|items|, i requires 0 <= i < |items| => items[i].file)
  }

  lemma FilesAppend(items: seq<ReviewItem>, x: ReviewItem)
    ensures Files(items + [x]) == Files(items) + [x.file]
  {
  }

  lemma FilesAppendAll(a: seq<ReviewItem>, b: seq<ReviewItem>)
    ensures Files(a + b) == Files(a) + Files(b)
  {
  }

  /** `items.filter(it => it.done)` */
  function DoneItems(items: seq<ReviewItem>): (r: seq<ReviewItem>)
    ensures IsSubsequence(r, items)
    ensures forall it :: it in r <==> it in items && it.done
    ensures forall it :: multiset(r)[it] == if it.done then multiset(items)[it] else 0
    ensures (forall i :: 0 <= i < |items| ==> items[i].done) ==> r == items
  {
    if items == [] then []
    else
      var rest := DoneItems(items[1..]);
      assert items == [items[0]] + items[1..];
      assert multiset(items) == multiset{items[0]} + multiset(items[1..]);
      if items[0].done then
        assert ([items[0]] + rest)[1..] == rest;
        [items[0]] + rest
      else rest
  }

  /** The review `runTask` records for a file: the provider's text, or ''
      when the call failed. */
  function FileReview(prompt: string, backend: Request -> Reply, fdiff: string): string {
    match backend(Request(prompt, fdiff))
    case Ok(t) => t
    case Fail(_) => ""
  }

  /** What the provider answers `runSummary`. */
  function SummaryReply(prompt: string, diff: string, backend: Request -> Reply): Reply {
    backend(Request(prompt, diff))
  }

  /** What `runTask` asks the provider for `f`. */
  function FileRequest(prompt: string, fileDiff: string -> string, f: string): Request {
    Request(prompt, fileDiff(f))
  }

  /** The item `runTask` appends for `f`. */
  function FileItem(prompt: string, fileDiff: string -> string, backend: Request -> Reply, f: string): ReviewItem {
    ReviewItem(f, FileReview(prompt, backend, fileDiff(f)), ShownDiff(f, fileDiff(f)), true)
  }

  /** Each item is the one `runTask` appends for its file. */
  predicate ItemsForFiles(items: seq<ReviewItem>, prompt: string, fileDiff: string -> string, backend: Request -> Reply) {
    forall i :: 0 <= i < |items| ==> items[i] == FileItem(prompt, fileDiff, backend, items[i].file)
  }

  lemma ItemsForFilesAppend(items: seq<ReviewItem>, prompt: string, fileDiff: string -> string,
                            backend: Request -> Reply, f: string)
    requires ItemsForFiles(items, prompt, fileDiff, backend)
    ensures ItemsForFiles(items + [FileItem(prompt, fileDiff, backend, f)], prompt, fileDiff, backend)
  {
  }

  /** Some item holds a non-empty review. */
  predicate SomeReview(items: seq<ReviewItem>) {
    exists i :: 0 <= i < |items| && items[i].review != ""
  }

  lemma SomeReviewAppend(items: seq<ReviewItem>, x: ReviewItem)
    ensures SomeReview(items + [x]) == (SomeReview(items) || x.review != "")
  {
    if x.review != "" {
      assert (items + [x])[|items|].review != "";
    }
    if SomeReview(items) {
      var i :| 0 <= i < |items| && items[i].review != "";
      assert (items + [x])[i] == items[i];
    }
  }

  /** The `onProgress` calls made so far: one per item, counting up, with
      the total of the list. */
  predicate Reported(progress: seq<Progress>, items: seq<ReviewItem>, total: nat) {
    && |progress| == |items|
    && forall i :: 0 <= i < |items| ==> progress[i] == Progress(items[i].file, i + 1, total)
  }

  lemma ReportedAppend(progress: seq<Progress>, items: seq<ReviewItem>, total: nat, item: ReviewItem)
    requires Reported(progress, items, total)
    ensures Reported(progress + [Progress(item.file, |items| + 1, total)], items + [item], total)
  {
  }

  /** The files taken from the queue are the finished and the running ones. */
  predicate Accounted(items: seq<ReviewItem>, running: seq<string>, taken: seq<string>) {
    multiset(Files(items)) + multiset(running) == multiset(taken)
  }

  /** Taking the head of the queue consumes one more entry of the list. */
  lemma ConsumeOne(list: seq<string>, queue: seq<string>)
    requires queue != [] && |queue| <= |list| && queue == list[|list| - |queue|..]
    ensures list[..|list| - |queue| + 1] == list[..|list| - |queue|] + [queue[0]]
    ensures queue[1..] == list[|list| - |queue[1..]|..]
  {
    assert queue[0] == list[|list| - |queue|];
  }

  /** Taking the head of the queue consumes one more entry of the list;
      the named entries taken grow by that entry unless it is empty. */
  lemma {:induction false} TakeStep(list: seq<string>, q: seq<string>)
    requires q != [] && |q| <= |list| && q == list[|list| - |q|..]
    ensures q[1..] == list[|list| - |q| + 1..]
    ensures Named(list[..|list| - |q| + 1]) == Named(list[..|list| - |q|]) + (if q[0] == "" then [] else [q[0]])
  {
    ConsumeOne(list, q);
    NamedAppend(list[..|list| - |q|], [q[0]]);
    assert Named([q[0]]) == (if q[0] == "" then [] else [q[0]]);
  }

  /** The busy workers after worker `k` finished: it takes `next`, or
      leaves the pool when there is none. */
  function Reassign(running: seq<string>, k: nat, next: Option<string>): (r: seq<string>)
    requires k < |running|
    ensures |r| == if next.Some? then |running| else |running| - 1
  {
    if next.Some? then running[k := next.value] else running[..k] + running[k + 1..]
  }

  /** The accounting of the pool survives a finished file: it moves from the
      busy workers to the items, and the next file taken joins the busy
      workers. */
  lemma PoolStep(files: seq<string>, running: seq<string>, k: nat, taken: seq<string>, next: Option<string>)
    requires k < |running| && multiset(files) + multiset(running) == multiset(taken)
    ensures multiset(files + [running[k]]) + multiset(Reassign(running, k, next))
         == multiset(taken + if next.Some? then [next.value] else [])
  {
    assert running == running[..k] + [running[k]] + running[k + 1..];
    if next.Some? {
      assert running[k := next.value] == running[..k] + [next.value] + running[k + 1..];
    }
  }

  /** The named entries of a list are among its entries. */
  lemma {:induction false} NamedWithin(fs: seq<string>)
    ensures multiset(Named(fs)) <= multiset(fs)
  {
    if fs != [] {
      NamedWithin(fs[1..]);
      assert fs == [fs[0]] + fs[1..];
    }
  }

  /** The file-type filter only drops files. */
  lemma FilteredWithin(staged: seq<string>, fileTypes: Option<seq<string>>)
    ensures forall f :: f in Git.FilterFiles(staged, fileTypes) ==> f in staged
  {
    if fileTypes.Some? && fileTypes.value != [] {
      assert Git.FilterFiles(staged, fileTypes) == Git.KeepAccepted(staged, Git.Extensions(fileTypes.value));
    }
  }

  /** The staged files a run dispatches are all named: the queue never
      holds the empty string that would stop a worker early. */
  lemma DispatchedNamed(stagedOutput: string, fileTypes: Option<seq<string>>, maxFiles: int)
    ensures "" !in DispatchList(Git.FilterFiles(Git.StagedFiles(stagedOutput), fileTypes), maxFiles)
  {
    var staged := Git.StagedFiles(stagedOutput);
    Git.StagedFilesWellFormed(stagedOutput);
    var files := Git.FilterFiles(staged, fileTypes);
    FilteredWithin(staged, fileTypes);
    assert "" !in staged;
    assert "" !in files;
    var list := DispatchList(files, maxFiles);
    assert forall i :: 0 <= i < |list| ==> list[i] == files[i];
  }

  /** What a worker's `while (queue.length)`, `queue.shift()` and
      `if (!f) break` hand it: the head of the queue, or `None` when the
      worker stops, at the end of the queue or at an empty name. */
  function Next(queue: seq<string>): (next: Option<string>)
    ensures next.Some? ==> queue != [] && next.value == queue[0] && next.value != ""
    ensures next.None? ==> queue == [] || queue[0] == ""
  {
    if queue == [] || queue[0] == "" then None else Some(queue[0])
  }

  /** The queue after that `shift()`. */
  function Shift(queue: seq<string>): (r: seq<string>)
    ensures queue != [] ==> |r| == |queue| - 1
  {
    if queue == [] then [] else queue[1..]
  }

  /** The files taken from the queue so far, with the one just taken. */
  function Took(taken: seq<string>, next: Option<string>): seq<string> {
    if next.Some? then taken + [next.value] else taken
  }

  /** The queue is what is left of the list, and the files taken are the
      named entries before it. */
  ghost predicate QueueValid(list: seq<string>, queue: seq<string>, taken: seq<string>) {
    && |queue| <= |list|
    && queue == list[|list| - |queue|..]
    && taken == Named(list[..|list| - |queue|])
  }

  /** A worker taking from the queue keeps it a suffix of the list; with no
      empty name in the list, a worker only stops at the end of the queue. */
  lemma TakeValid(list: seq<string>, queue: seq<string>, taken: seq<string>)
    requires QueueValid(list, queue, taken)
    ensures QueueValid(list, Shift(queue), Took(taken, Next(queue)))
    ensures "" !in list && queue != [] ==> Next(queue).Some?
  {
    if queue != [] {
      TakeStep(list, queue);
      assert queue[0] == list[|list| - |queue|];
    }
  }

  /** The requests `runTask` sends for the files, in order. */
  function FileRequests(prompt: string, fileDiff: string -> string, files: seq<string>): (r: seq<Request>)
    ensures |r| == |files|
    ensures forall i :: 0 <= i < |files| ==> r[i] == FileRequest(prompt, fileDiff, files[i])
  {
    seq(|files|, i requires 0 <= i < |files| => FileRequest(prompt, fileDiff, files[i]))
  }

  lemma FileRequestsAppend(prompt: string, fileDiff: string -> string, files: seq<string>, f: string)
    ensures FileRequests(prompt, fileDiff, files + [f]) == FileRequests(prompt, fileDiff, files) + [FileRequest(prompt, fileDiff, f)]
  {
  }

  /** `previewUrl` is opened by the first `runTask` to finish, in `files`
      mode only. */
  function OpenCount(mode: Mode, previewUrl: string, items: seq<ReviewItem>): nat {
    if mode == FilesOnly && previewUrl != "" && items != [] then 1 else 0
  }

  /** What a run leaves behind: the items, the two AI flags, the status
      line, the `onProgress` calls, how often the preview was opened, and
      the requests sent to the provider in order. */
  datatype Outcome = Outcome(items: seq<ReviewItem>, aiInvoked: bool, aiSucceeded: bool, status: string,
                             progress: seq<Progress>, openCount: nat, requests: seq<Request>)

  /** What the worker pool is set up with: the prompt, the mode, the files
      dispatched, the number of workers, the preview address (empty when
      the server gave none), `getStagedDiffForFile` and `provider.review`. */
  datatype Job = Job(prompt: string, mode: Mode, list: seq<string>, workers: nat, previewUrl: string,
                     fileDiff: string -> string, backend: Request -> Reply)

  /** The locals of `runReviewFlow` that its workers share; `running` holds
      the file each busy worker waits on. */
  datatype Shared = Shared(queue: seq<string>, running: seq<string>, items: seq<ReviewItem>,
                           aiInvoked: bool, aiSucceeded: bool, completedCount: nat,
                           progress: seq<Progress>, openCount: nat, requests: seq<Request>)

  /** The queue is what is left of the list; the named files taken so far
      are exactly the finished and the running ones; while files wait,
      every worker is busy; the requests went out in the order the files
      were taken. */
  ghost predicate PoolValid(job: Job, st: Shared, taken: seq<string>) {
    && QueueValid(job.list, st.queue, taken)
    && Accounted(st.items, st.running, taken)
    && |st.running| <= job.workers
    && ("" !in job.list && st.queue != [] ==> |st.running| == job.workers)
    && st.aiInvoked == (st.requests != [])
    && st.requests == FileRequests(job.prompt, job.fileDiff, taken)
    && |st.requests| == |st.items| + |st.running|
  }

  /** Each item is the one its file calls for; `aiSucceeded` says whether
      some review came back non-empty; the progress calls count the items
      in order; the preview is opened once, with the first item, and only
      in `files` mode. */
  predicate RecordValid(job: Job, st: Shared) {
    && ItemsForFiles(st.items, job.prompt, job.fileDiff, job.backend)
    && st.aiSucceeded == SomeReview(st.items)
    && st.completedCount == |st.items|
    && Reported(st.progress, st.items, |job.list|)
    && st.openCount == OpenCount(job.mode, job.previewUrl, st.items)
  }

  /** The `for` loop that starts the workers; each takes its first file
      and sends its request. */
  method StartWorkers(job: Job) returns (st: Shared, ghost taken: seq<string>)
    ensures PoolValid(job, st, taken) && RecordValid(job, st)
    ensures st.items == []
  {
    var queue := job.list;
    var running: seq<string> := [];
    var aiInvoked := false;
    var requests: seq<Request> := [];
    taken := [];
    assert job.list[..0] == [];
    var w := 0;
    while w < job.workers
      invariant 0 <= w <= job.workers
      invariant QueueValid(job.list, queue, taken)
      invariant multiset(running) == multiset(taken)
      invariant |running| <= w
      invariant "" !in job.list && queue != [] ==> |running| == w
      invariant aiInvoked == (requests != []) && requests == FileRequests(job.prompt, job.fileDiff, taken)
      invariant |requests| == |running|
    {
      var next := Next(queue);
      TakeValid(job.list, queue, taken);
      queue := Shift(queue);
      if next.Some? {
        aiInvoked := true;
        FileRequestsAppend(job.prompt, job.fileDiff, taken, next.value);
        requests := requests + [FileRequest(job.prompt, job.fileDiff, next.value)];
        taken := taken + [next.value];
        running := running + [next.value];
      }
      w := w + 1;
    }
    st := Shared(queue, running, [], aiInvoked, false, 0, [], 0, requests);
  }

  /** The second half of `runTask` for `f`: its item, the flag, the
      opening of the preview and the progress call. */
  method Record(job: Job, st: Shared, f: string) returns (r: Shared)
    requires RecordValid(job, st)
    ensures RecordValid(job, r)
    ensures r.items == st.items + [FileItem(job.prompt, job.fileDiff, job.backend, f)]
    ensures r.queue == st.queue && r.running == st.running
    ensures r.aiInvoked == st.aiInvoked && r.requests == st.requests
  {
    var item := FileItem(job.prompt, job.fileDiff, job.backend, f);
    SomeReviewAppend(st.items, item);
    ItemsForFilesAppend(st.items, job.prompt, job.fileDiff, job.backend, f);
    ReportedAppend(st.progress, st.items, |job.list|, item);
    r := st.(aiSucceeded := st.aiSucceeded || item.review != "", items := st.items + [item]);
    if job.mode == FilesOnly && |r.items| == 1 && job.previewUrl != "" {
      r := r.(openCount := r.openCount + 1);
    }
    r := r.(completedCount := r.completedCount + 1);
    r := r.(progress := r.progress + [Progress(f, r.completedCount, |job.list|)]);
  }

  /** The file worker `k` waits on comes back; the worker then takes the
      next file or stops. */
  method Complete(job: Job, st: Shared, k: nat, ghost taken: seq<string>) returns (r: Shared, ghost taken': seq<string>)
    requires PoolValid(job, st, taken) && RecordValid(job, st) && k < |st.running|
    ensures PoolValid(job, r, taken') && RecordValid(job, r)
    ensures r.items == st.items + [FileItem(job.prompt, job.fileDiff, job.backend, st.running[k])]
    ensures |r.queue| + |r.running| < |st.queue| + |st.running|
  {
    var f := st.running[k];
    r := Record(job, st, f);
    var next := Next(r.queue);
    TakeValid(job.list, st.queue, taken);
    PoolStep(Files(st.items), st.running, k, taken, next);
    FilesAppend(st.items, FileItem(job.prompt, job.fileDiff, job.backend, f));
    taken' := Took(taken, next);
    if next.Some? {
      FileRequestsAppend(job.prompt, job.fileDiff, taken, next.value);
      r := r.(aiInvoked := true, requests := r.requests + [FileRequest(job.prompt, job.fileDiff, next.value)]);
    }
    r := r.(queue := Shift(r.queue), running := Reassign(r.running, k, next));
  }

  /** What the worker pool leaves: every item is the one its file calls
      for, reported in order, with one request per item, and the preview
      opened once in `files` mode; the items' files never exceed the list.
      With no empty name and at least one worker, every dispatched file is
      reviewed exactly once and the requests go out in queue order. */
  predicate PoolResult(job: Job, items: seq<ReviewItem>, progress: seq<Progress>, openCount: nat, requests: seq<Request>) {
    && ItemsForFiles(items, job.prompt, job.fileDiff, job.backend)
    && multiset(Files(items)) <= multiset(job.list)
    && ("" !in job.list && job.workers >= 1 ==>
          && multiset(Files(items)) == multiset(job.list)
          && requests == FileRequests(job.prompt, job.fileDiff, job.list))
    && |requests| == |items|
    && Reported(progress, items, |job.list|)
    && openCount == OpenCount(job.mode, job.previewUrl, items)
  }

  /** The worker pool of `runReviewFlow` in `files` and `both` mode: the
      workers share the queue of files; each takes the next file, asks for
      its review and records the item, until the queue is empty or it meets
      an empty name. The `await` lets files come back in any order, so the
      loop finishes an arbitrary busy worker each time. Requests go out in
      queue order; every dispatched file is reviewed exactly once. */
  method ReviewFiles(job: Job) returns (out: Outcome)
    ensures PoolResult(job, out.items, out.progress, out.openCount, out.requests)
    ensures out.aiInvoked == (out.requests != [])
    ensures out.aiSucceeded == SomeReview(out.items)
    ensures out.status == ""
  {
    var st;
    ghost var taken;
    st, taken := StartWorkers(job);
    while st.running != []
      invariant PoolValid(job, st, taken) && RecordValid(job, st)
      decreases |st.queue| + |st.running|
    {
      var k :| 0 <= k < |st.running|;
      st, taken := Complete(job, st, k, taken);
    }
    PoolShape(job.list, st.queue, taken, st.items);
    out := Outcome(st.items, st.aiInvoked, st.aiSucceeded, "", st.progress, st.openCount, st.requests);
  }

  /** With every worker idle, the reviewed files are entries of the list,
      and all of them when no name is empty and the queue is empty. */
  lemma PoolShape(list: seq<string>, queue: seq<string>, taken: seq<string>, items: seq<ReviewItem>)
    requires QueueValid(list, queue, taken) && Accounted(items, [], taken)
    ensures multiset(Files(items)) <= multiset(list)
    ensures "" !in list && queue == [] ==> multiset(Files(items)) == multiset(list) && taken == list
  {
    var c := |list| - |queue|;
    assert list == list[..c] + queue;
    NamedWithin(list[..c]);
  }

  /** The text `runSummary` returns. */
  function SummaryText(prompt: string, diff: string, backend: Request -> Reply): string {
    match SummaryReply(prompt, diff, backend)
    case Ok(t) => t
    case Fail(m) => FailureReview(m)
  }

  /** The item pushed for the summary. */
  function SummaryItem(prompt: string, diff: string, backend: Request -> Reply): ReviewItem {
    ReviewItem(SummaryFile, SummaryText(prompt, diff, backend), diff, true)
  }

  /** The status line after `runSummary` (it starts empty). */
  function SummaryStatus(prompt: string, diff: string, backend: Request -> Reply): string {
    match SummaryReply(prompt, diff, backend)
    case Ok(_) => ""
    case Fail(m) => FailureStatus(m)
  }

  /** `runSummary`: one request for the whole diff; success sets
      `aiSucceeded`, a failure clears it and puts its description in the
      status. */
  method RunSummary(prompt: string, diff: string, backend: Request -> Reply, status: string)
    returns (s: string, aiSucceeded: bool, newStatus: string)
    ensures s == SummaryText(prompt, diff, backend)
    ensures aiSucceeded == SummaryReply(prompt, diff, backend).Ok?
    ensures aiSucceeded ==> newStatus == status
    ensures !aiSucceeded ==> newStatus == FailureStatus(SummaryReply(prompt, diff, backend).reason)
  {
    var reply := SummaryReply(prompt, diff, backend);
    match reply {
      case Ok(t) =>
        aiSucceeded := true;
        s := t;
        newStatus := status;
      case Fail(m) =>
        newStatus := FailureStatus(m);
        aiSucceeded := false;
        s := FailureReview(m);
    }
  }

  /** The status closure given to the server: the finished items, and
      whether all expected ones are there (the summary counts in `both`
      mode; in `summary` mode the run is over when the server starts). */
  function Snapshot(mode: Mode, total: nat, items: seq<ReviewItem>): StatusSnapshot {
    if mode == SummaryOnly then StatusSnapshot(items, true)
    else
      var completed := DoneItems(items);
      StatusSnapshot(completed, |completed| >= total + (if mode == Both then 1 else 0))
  }

  /** While the workers run, every item is finished, and the page is told
      it is done exactly when all expected items are in. */
  lemma SnapshotDoneExactly(mode: Mode, total: nat, items: seq<ReviewItem>)
    requires forall i :: 0 <= i < |items| ==> items[i].done
    requires mode != SummaryOnly
    ensures Snapshot(mode, total, items).files == items
    ensures Snapshot(mode, total, items).done <==> |items| >= total + (if mode == Both then 1 else 0)
  {
  }

  /** What a finished run reports. In `summary` mode: the summary item
      alone, its one request, and the flags and status `runSummary` left.
      Otherwise: what the worker pool leaves, and in `both` mode the summary
      item and its request after it, with the flags and status of the
      summary; in the other modes the flags of the pool. */
  predicate Finished(job: Job, diff: string, out: Outcome) {
    if job.mode == SummaryOnly then
      && out.items == [SummaryItem(job.prompt, diff, job.backend)]
      && out.requests == [Request(job.prompt, diff)]
      && out.aiInvoked && out.aiSucceeded == SummaryReply(job.prompt, diff, job.backend).Ok?
      && out.status == SummaryStatus(job.prompt, diff, job.backend)
      && out.progress == [] && out.openCount == 0
    else
      var n := |out.items| - (if job.mode == Both then 1 else 0);
      && 0 <= n && |out.requests| == |out.items|
      && PoolResult(job, out.items[..n], out.progress, out.openCount, out.requests[..n])
      && (job.mode == Both ==>
            && out.items[n] == SummaryItem(job.prompt, diff, job.backend)
            && out.requests[n] == Request(job.prompt, diff)
            && out.aiInvoked && out.aiSucceeded == SummaryReply(job.prompt, diff, job.backend).Ok?
            && out.status == SummaryStatus(job.prompt, diff, job.backend))
      && (job.mode != Both ==>
            && out.aiInvoked == (out.requests != [])
            && out.aiSucceeded == SomeReview(out.items) && out.status == "")
  }

  /** The body of `runReviewFlow` after its early exits, for the files
      dispatched. With no empty name and at least one worker, the page ends
      done, every dispatched file is reviewed exactly once (plus the summary
      in `both` mode), and the requests are the files' in queue order, then
      the summary's. */
  method Run(job: Job, diff: string) returns (out: Outcome)
    ensures Finished(job, diff, out)
    ensures "" !in job.list && job.workers >= 1 ==> Snapshot(job.mode, |job.list|, out.items).done
    ensures "" !in job.list && job.workers >= 1 && job.mode != SummaryOnly ==>
              && multiset(Files(out.items)) == multiset(job.list) + (if job.mode == Both then multiset{SummaryFile} else multiset{})
              && out.requests == FileRequests(job.prompt, job.fileDiff, job.list) + if job.mode == Both then [Request(job.prompt, diff)] else []
  {
    if job.mode == SummaryOnly {
      var s, succeeded, status := RunSummary(job.prompt, diff, job.backend, "");
      return Outcome([ReviewItem(SummaryFile, s, diff, true)], true, succeeded, status, [], 0, [Request(job.prompt, diff)]);
    }
    var files := ReviewFiles(job);
    out := files;
    if job.mode == Both {
      var s, succeeded, status := RunSummary(job.prompt, diff, job.backend, files.status);
      out := files.(items := files.items + [ReviewItem(SummaryFile, s, diff, true)], aiInvoked := true,
                    aiSucceeded := succeeded, status := status, requests := files.requests + [Request(job.prompt, diff)]);
    }
    PoolFinished(job, diff, files, out);
    if "" !in job.list && job.workers >= 1 {
      RunComplete(job, diff, files.items, files.requests, out);
    }
  }

  /** The worker pool's outcome, followed in `both` mode by the summary,
      is a finished run. */
  lemma PoolFinished(job: Job, diff: string, files: Outcome, out: Outcome)
    requires job.mode != SummaryOnly
    requires PoolResult(job, files.items, files.progress, files.openCount, files.requests)
    requires files.aiInvoked == (files.requests != []) && files.aiSucceeded == SomeReview(files.items) && files.status == ""
    requires job.mode != Both ==> out == files
    requires job.mode == Both ==>
               && out.items == files.items + [SummaryItem(job.prompt, diff, job.backend)]
               && out.requests == files.requests + [Request(job.prompt, diff)]
               && out.progress == files.progress && out.openCount == files.openCount
               && out.aiInvoked && out.aiSucceeded == SummaryReply(job.prompt, diff, job.backend).Ok?
               && out.status == SummaryStatus(job.prompt, diff, job.backend)
    ensures Finished(job, diff, out)
  {
    var n := |files.items|;
    assert out.items[..n] == files.items;
    assert out.requests[..n] == files.requests;
  }

  /** With no empty name and at least one worker, a finished run reports
      itself done, has reviewed each dispatched file once, and sent the
      files' requests in queue order before the summary's. */
  lemma RunComplete(job: Job, diff: string, fileItems: seq<ReviewItem>, fileRequests: seq<Request>, out: Outcome)
    requires job.mode != SummaryOnly
    requires ItemsForFiles(fileItems, job.prompt, job.fileDiff, job.backend)
    requires multiset(Files(fileItems)) == multiset(job.list)
    requires fileRequests == FileRequests(job.prompt, job.fileDiff, job.list)
    requires out.items == fileItems + if job.mode == Both then [SummaryItem(job.prompt, diff, job.backend)] else []
    requires out.requests == fileRequests + if job.mode == Both then [Request(job.prompt, diff)] else []
    ensures Snapshot(job.mode, |job.list|, out.items).done
    ensures multiset(Files(out.items)) == multiset(job.list) + (if job.mode == Both then multiset{SummaryFile} else multiset{})
    ensures out.requests == FileRequests(job.prompt, job.fileDiff, job.list) + if job.mode == Both then [Request(job.prompt, diff)] else []
  {
    FinishedShape(job.mode, job.list, fileItems, out.items[|fileItems|..], job.prompt, job.fileDiff, job.backend, true);
  }

  /** The items of a finished run: the files, then the summary in `both`
      mode; all of them done. */
  lemma FinishedShape(mode: Mode, list: seq<string>, fileItems: seq<ReviewItem>, extra: seq<ReviewItem>,
                      prompt: string, fileDiff: string -> string, backend: Request -> Reply, complete: bool)
    requires mode != SummaryOnly
    requires ItemsForFiles(fileItems, prompt, fileDiff, backend)
    requires complete ==> multiset(Files(fileItems)) == multiset(list)
    requires |extra| == (if mode == Both then 1 else 0)
    requires forall i :: 0 <= i < |extra| ==> extra[i].done && extra[i].file == SummaryFile
    ensures complete ==> Snapshot(mode, |list|, fileItems + extra).done
    ensures complete ==>
              multiset(Files(fileItems + extra)) == multiset(list) + if mode == Both then multiset{SummaryFile} else multiset{}
  {
    var items := fileItems + extra;
    assert forall i :: 0 <= i < |items| ==> items[i].done;
    FilesAppendAll(fileItems, extra);
    if complete {
      assert |Files(fileItems)| == |multiset(Files(fileItems))| == |list|;
      if mode == Both {
        assert Files(extra) == [SummaryFile];
      } else {
        assert Files(extra) == [];
      }
    }
  }

  /** `runReviewFlow`: no review (the commit may go on) when nothing is
      staged after the file-type filter or the staged diff is empty;
      otherwise a run over the dispatched files, which blocks the commit
      and leaves the page reporting itself done. */
  method RunReviewFlow(stagedOutput: string, fileTypes: Option<seq<string>>, diff: string, prompt: string,
                       reviewMode: string, maxFiles: int, concurrencyFiles: int, previewUrl: string,
                       fileDiff: string -> string, backend: Request -> Reply)
    returns (ok: bool, out: Option<Outcome>)
    ensures ok <==> Git.FilterFiles(Git.StagedFiles(stagedOutput), fileTypes) == [] || diff == ""
    ensures ok <==> out.None?
    ensures out.Some? ==>
              var list := DispatchList(Git.FilterFiles(Git.StagedFiles(stagedOutput), fileTypes), maxFiles);
              var mode := ParseMode(reviewMode);
              && Finished(Job(prompt, mode, list, WorkerCount(concurrencyFiles), previewUrl, fileDiff, backend), diff, out.value)
              && Snapshot(mode, |list|, out.value.items).done
              && (mode != SummaryOnly ==>
                    && multiset(Files(out.value.items)) == multiset(list) + (if mode == Both then multiset{SummaryFile} else multiset{})
                    && out.value.requests == FileRequests(prompt, fileDiff, list) + if mode == Both then [Request(prompt, diff)] else [])
  {
    var files := Git.FilterFiles(Git.StagedFiles(stagedOutput), fileTypes);
    if files == [] || diff == "" {
      return true, None;
    }
    var list := DispatchList(files, maxFiles);
    DispatchedNamed(stagedOutput, fileTypes, maxFiles);
    var mode := ParseMode(reviewMode);
    var o := Run(Job(prompt, mode, list, WorkerCount(concurrencyFiles), previewUrl, fileDiff, backend), diff);
    return false, Some(o);
  }
}
