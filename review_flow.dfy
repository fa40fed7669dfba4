/** `src/core/review-flow.ts`: the older, sequential review flow. It makes
    one aggregate call for the whole diff first, whatever the mode; with
    the `per_file` mode it then reviews the dispatched files one after the
    other, and it renders the page with the older renderer. The DeepSeek
    backend is only called when its key is in the environment; the Ollama
    backend is always called. Both backends, the environment and the
    per-file diff are parameters; serving the page is left out. */
module LegacyReview {
  import opened Util
  import Git
  import Review
  import HtmlRender
  import LegacyRender

  /** The two backends of the older flow. */
  datatype Backend = DeepSeek | Ollama

  /** `cfg.review?.provider || cfg.provider`: anything but `deepseek` goes
      to Ollama. */
  function UsedBackend(providerUsed: string): (b: Backend)
    ensures b == DeepSeek <==> providerUsed == "deepseek"
  {
    if providerUsed == "deepseek" then DeepSeek else Ollama
  }

  const DefaultKeyEnv := "DEEPSEEK_API_KEY"

  /** `cfg.deepseek?.apiKeyEnv || 'DEEPSEEK_API_KEY'` */
  function KeyEnv(apiKeyEnv: string): (k: string)
    ensures k != ""
    ensures apiKeyEnv != "" ==> k == apiKeyEnv
  {
    if apiKeyEnv == "" then DefaultKeyEnv else apiKeyEnv
  }

  /** `process.env[k]` is set and non-empty. */
  predicate KeySet(env: map<string, string>, k: string) {
    k in env && env[k] != ""
  }

  /** Whether the flow calls its backend at all: Ollama always, DeepSeek
      only with its key. */
  predicate Calls(b: Backend, env: map<string, string>, keyEnv: string) {
    b == Ollama || KeySet(env, keyEnv)
  }

  /** One call to a backend. */
  datatype Call = Call(backend: Backend, request: Review.Request)

  /** The two backend functions, `deepseekReview` and `ollamaReview`. */
  datatype Backends = Backends(deepseek: Review.Request -> Review.Reply, ollama: Review.Request -> Review.Reply)

  function Answer(bs: Backends, b: Backend, req: Review.Request): Review.Reply {
    if b == DeepSeek then bs.deepseek(req) else bs.ollama(req)
  }

  const MissingKeyStatusStart := "缺少 DeepSeek 密钥 "
  const MissingKeyReason := "未生成 AI 审查结果。\n原因：缺少 DeepSeek 密钥 "
  const MissingKeyFix := "。\n解决方案：在当前环境设置 "
  const MissingKeyExample := "，或切换 provider 为 ollama。\n示例：export "
  const MissingKeyEnd := "=\"你的密钥\""
  const CallFailedStart := "未生成 AI 审查结果。\n可能原因：网络不可达、服务未启动或配置错误。\n当前 provider："
  const OllamaHint := "请检查本地 Ollama 是否运行（默认 http://localhost:11434），模型是否可用。\n示例：ollama list"
  const DeepSeekHintStart := "请检查 "
  const DeepSeekHintEnd := " 是否已设置、baseURL 是否为 https://api.deepseek.com"

  /** The status line when the DeepSeek key is missing; it names the
      variable. */
  function MissingKeyStatus(keyEnv: string): string {
    MissingKeyStatusStart + keyEnv
  }

  /** The review text when the DeepSeek key is missing: the reason, the
      fix and an example, each naming the variable. */
  function MissingKeyContent(keyEnv: string): string {
    MissingKeyReason + keyEnv + MissingKeyFix + keyEnv + MissingKeyExample + keyEnv + MissingKeyEnd
  }

  /** The review text after a failed aggregate call. It names the
      configured `cfg.provider` (not the provider used) and gives the hint
      for that one. */
  function CallFailedContent(cfgProvider: string, keyEnv: string): string {
    CallFailedStart + cfgProvider + "\n"
    + (if cfgProvider == "ollama" then OllamaHint else DeepSeekHintStart + keyEnv + DeepSeekHintEnd)
  }

  /** What the aggregate call leaves: the review text, the two flags, the
      status line and the calls made. */
  datatype Aggregate = Aggregate(content: string, aiInvoked: bool, aiSucceeded: bool, status: string, calls: seq<Call>)

  /** The `try` block of lines 28-60: the aggregate call, or the missing-key
      message without any call. */
  method AggregateReview(b: Backend, bs: Backends, env: map<string, string>, keyEnv: string, cfgProvider: string,
                         prompt: string, diff: string)
    returns (agg: Aggregate)
    ensures var canCall, r := Calls(b, env, keyEnv), Answer(bs, b, Review.Request(prompt, diff));
            && agg.aiInvoked == canCall
            && agg.calls == (if canCall then [Call(b, Review.Request(prompt, diff))] else [])
            && agg.content == (if !canCall then MissingKeyContent(keyEnv)
                               else if r.Ok? then r.text else CallFailedContent(cfgProvider, keyEnv))
            && agg.aiSucceeded == (canCall && r.Ok? && r.text != "")
            && agg.status == (if !canCall then MissingKeyStatus(keyEnv)
                              else if r.Ok? then "" else Review.FailureStatus(r.reason))
  {
    if !Calls(b, env, keyEnv) {
      return Aggregate(MissingKeyContent(keyEnv), false, false, MissingKeyStatus(keyEnv), []);
    }
    var req := Review.Request(prompt, diff);
    var reply := Answer(bs, b, req);
    match reply {
      case Ok(t) =>
        agg := Aggregate(t, true, t != "", "", [Call(b, req)]);
      case Fail(m) =>
        agg := Aggregate(CallFailedContent(cfgProvider, keyEnv), true, false, Review.FailureStatus(m), [Call(b, req)]);
    }
  }

  /** The item the `per_file` loop pushes for `f`: the backend's text, or
      '' when the call failed or was skipped for want of a key. */
  function FileItem(b: Backend, bs: Backends, canCall: bool, prompt: string, fileDiff: string -> string, f: string)
    : (it: HtmlRender.Item)
    ensures it.file == f && it.diff == Review.ShownDiff(f, fileDiff(f))
    ensures !canCall ==> it.review == ""
  {
    var review :=
      if !canCall then ""
      else match Answer(bs, b, Review.Request(prompt, fileDiff(f)))
           case Ok(t) => t
           case Fail(_) => "";
    HtmlRender.Item(f, review, Review.ShownDiff(f, fileDiff(f)))
  }

  /** The calls the `per_file` loop makes for the files, in order. */
  function FileCalls(b: Backend, prompt: string, fileDiff: string -> string, files: seq<string>): (r: seq<Call>)
    ensures |r| == |files|
    ensures forall i :: 0 <= i < |files| ==> r[i] == Call(b, Review.Request(prompt, fileDiff(files[i])))
  {
    seq(|files|, i requires 0 <= i < |files| => Call(b, Review.Request(prompt, fileDiff(files[i]))))
  }

  /** One turn of the `per_file` loop: ask the backend about `f` when it
      may be called, and build the file's item from the reply. */
  method ReviewFile(b: Backend, bs: Backends, canCall: bool, prompt: string, fileDiff: string -> string, f: string)
    returns (item: HtmlRender.Item, invoked: bool, call: seq<Call>)
    ensures item == FileItem(b, bs, canCall, prompt, fileDiff, f)
    ensures invoked == canCall
    ensures call == if canCall then [Call(b, Review.Request(prompt, fileDiff(f)))] else []
  {
    var fdiff := fileDiff(f);
    var frev := "";
    invoked, call := false, [];
    if canCall {
      invoked := true;
      var req := Review.Request(prompt, fdiff);
      call := [Call(b, req)];
      var reply := Answer(bs, b, req);
      if reply.Ok? {
        frev := reply.text;
      }
    }
    item := HtmlRender.Item(f, frev, Review.ShownDiff(f, fdiff));
  }

  lemma FileCallsAppend(b: Backend, prompt: string, fileDiff: string -> string, files: seq<string>, f: string)
    ensures FileCalls(b, prompt, fileDiff, files + [f])
         == FileCalls(b, prompt, fileDiff, files) + [Call(b, Review.Request(prompt, fileDiff(f)))]
  {
    assert (files + [f])[|files|] == f;
  }

  /** Some item holds a non-empty review. */
  predicate AnyReview(items: seq<HtmlRender.Item>) {
    exists i :: 0 <= i < |items| && items[i].review != ""
  }

  /** The `per_file` loop: one item per dispatched file, in order; the
      backend is asked once per file when it may be called at all;
      `aiInvoked` and `aiSucceeded` only ever become true. */
  method ReviewEachFile(b: Backend, bs: Backends, canCall: bool, prompt: string, fileDiff: string -> string,
                        list: seq<string>, aiInvoked0: bool, aiSucceeded0: bool)
    returns (items: seq<HtmlRender.Item>, aiInvoked: bool, aiSucceeded: bool, calls: seq<Call>)
    ensures |items| == |list|
    ensures forall i :: 0 <= i < |list| ==> items[i] == FileItem(b, bs, canCall, prompt, fileDiff, list[i])
    ensures calls == if canCall then FileCalls(b, prompt, fileDiff, list) else []
    ensures aiInvoked == (aiInvoked0 || (canCall && list != []))
    ensures aiSucceeded == (aiSucceeded0 || AnyReview(items))
  {
    items, aiInvoked, aiSucceeded, calls := [], aiInvoked0, aiSucceeded0, [];
    for j := 0 to |list|
      invariant |items| == j
      invariant forall i :: 0 <= i < j ==> items[i] == FileItem(b, bs, canCall, prompt, fileDiff, list[i])
      invariant calls == if canCall then FileCalls(b, prompt, fileDiff, list[..j]) else []
      invariant aiInvoked == (aiInvoked0 || (canCall && j > 0))
      invariant aiSucceeded == (aiSucceeded0 || AnyReview(items))
    {
      var f := list[j];
      var item, invoked, call := ReviewFile(b, bs, canCall, prompt, fileDiff, f);
      aiInvoked := aiInvoked || invoked;
      aiSucceeded := aiSucceeded || item.review != "";
      calls := calls + call;
      AnyReviewAppend(items, item);
      items := items + [item];
      assert list[..j + 1] == list[..j] + [f];
      FileCallsAppend(b, prompt, fileDiff, list[..j], f);
    }
    assert list[..|list|] == list;
  }

  lemma AnyReviewAppend(items: seq<HtmlRender.Item>, x: HtmlRender.Item)
    ensures AnyReview(items + [x]) == (AnyReview(items) || x.review != "")
  {
    if x.review != "" {
      assert (items + [x])[|items|].review != "";
    }
    if AnyReview(items) {
      var i :| 0 <= i < |items| && items[i].review != "";
      assert (items + [x])[i] == items[i];
    }
  }

  /** What a run of the older flow leaves: the aggregate review text, the
      flags and the status line, the per-file items (empty outside the
      `per_file` mode), the backend calls in order and the page served. */
  datatype Outcome = Outcome(content: string, aiInvoked: bool, aiSucceeded: bool, status: string,
                             items: seq<HtmlRender.Item>, calls: seq<Call>, page: string)

  /** The meta block's fields for the page. */
  function PageMeta(aiInvoked: bool, aiSucceeded: bool, providerUsed: string, model: Option<string>, status: string)
    : HtmlRender.Meta
  {
    HtmlRender.Meta(Some(aiInvoked), Some(aiSucceeded), Some(providerUsed), model, Some(status), None, None)
  }

  /** The page served: the tabbed one in `per_file` mode, the single one otherwise. */
  function Page(perFile: bool, items: seq<HtmlRender.Item>, diff: string, content: string,
                meta: HtmlRender.Meta, diffView: string -> string): string
  {
    if perFile then LegacyRender.RenderHTMLTabs(items, Some(meta), diffView)
    else LegacyRender.RenderHTML(diff, content, Some(meta), diffView)
  }

  /** `runReviewFlow` of the older flow. It returns `true` (the commit may
      go on) without any call when nothing is staged after the filter or
      the diff is empty. Otherwise the aggregate call comes first; in
      `per_file` mode the files follow, in order; a missing DeepSeek key
      means no call at all and `aiInvoked` stays false; the page is the
      tabbed one in `per_file` mode and the single one otherwise. */
  method RunReviewFlow(stagedOutput: string, fileTypes: Option<seq<string>>, diff: string, prompt: string,
                       providerUsed: string, cfgProvider: string, apiKeyEnv: string, env: map<string, string>,
                       perFile: bool, maxFiles: int, model: Option<string>,
                       fileDiff: string -> string, bs: Backends, diffView: string -> string)
    returns (ok: bool, out: Option<Outcome>)
    ensures ok <==> Git.FilterFiles(Git.StagedFiles(stagedOutput), fileTypes) == [] || diff == ""
    ensures ok <==> out.None?
    ensures out.Some? ==>
              var b, keyEnv := UsedBackend(providerUsed), KeyEnv(apiKeyEnv);
              var canCall := Calls(b, env, keyEnv);
              var list := Review.DispatchList(Git.FilterFiles(Git.StagedFiles(stagedOutput), fileTypes), maxFiles);
              var o := out.value;
              var r := Answer(bs, b, Review.Request(prompt, diff));
              && o.content == (if !canCall then MissingKeyContent(keyEnv)
                               else if r.Ok? then r.text else CallFailedContent(cfgProvider, keyEnv))
              && o.aiSucceeded == ((canCall && r.Ok? && r.text != "") || (perFile && AnyReview(o.items)))
              && o.calls == (if canCall then [Call(b, Review.Request(prompt, diff))] else [])
                            + (if canCall && perFile then FileCalls(b, prompt, fileDiff, list) else [])
              && (!canCall ==> !o.aiInvoked && o.status == MissingKeyStatus(keyEnv))
              && (canCall ==> o.aiInvoked)
              && (canCall ==> o.status == if r.Ok? then "" else Review.FailureStatus(r.reason))
              && (perFile ==>
                    && |o.items| == |list|
                    && (forall i :: 0 <= i < |list| ==> o.items[i] == FileItem(b, bs, canCall, prompt, fileDiff, list[i])))
              && (!perFile ==> o.items == [])
              && o.page == Page(perFile, o.items, diff, o.content,
                                PageMeta(o.aiInvoked, o.aiSucceeded, providerUsed, model, o.status), diffView)
  {
    var files := Git.FilterFiles(Git.StagedFiles(stagedOutput), fileTypes);
    if files == [] || diff == "" {
      return true, None;
    }
    var b, keyEnv := UsedBackend(providerUsed), KeyEnv(apiKeyEnv);
    var agg := AggregateReview(b, bs, env, keyEnv, cfgProvider, prompt, diff);
    var items: seq<HtmlRender.Item> := [];
    var aiInvoked, aiSucceeded, calls := agg.aiInvoked, agg.aiSucceeded, agg.calls;
    if perFile {
      var list := Review.DispatchList(files, maxFiles);
      var fileCalls;
      items, aiInvoked, aiSucceeded, fileCalls := ReviewEachFile(b, bs, Calls(b, env, keyEnv), prompt, fileDiff, list,
                                                                 aiInvoked, aiSucceeded);
      calls := calls + fileCalls;
    } else {
      assert calls == calls + [];
    }
    var meta := PageMeta(aiInvoked, aiSucceeded, providerUsed, model, agg.status);
    var page := Page(perFile, items, diff, agg.content, meta, diffView);
    return false, Some(Outcome(agg.content, aiInvoked, aiSucceeded, agg.status, items, calls, page));
  }
}
