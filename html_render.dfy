/** `src/ui/render/html.ts`: the pieces of the review pages. It covers HTML
    escaping and the per-file rendering with its empty-review placeholder.
    It gives one tab and one pane per file, both indexed by position. It
    also chooses the AI status badge of the static and the live page, and
    adds the optional meta and header parts, which are always escaped. The
    Markdown and diff renderers are parameters; the page template around
    the body (style sheets, client scripts) is not modelled. */
module HtmlRender {
  import opened Util
  import opened Strings

  // ---------------------------------------------------------------------
  // Escaping

  /** `s.replace(/c/g, by)` for a one-character pattern. */
  function ReplaceChar(s: string, c: char, repl: string): (r: string)
    ensures c !in repl ==> c !in r
    ensures c !in s ==> r == s
    ensures forall d :: d in r ==> (d in s && d != c) || d in repl
  {
    if s == [] then []
    else
      assert s == [s[0]] + s[1..];
      (if s[0] == c then repl else [s[0]]) + ReplaceChar(s[1..], c, repl)
  }

  lemma {:induction false} ReplaceCharAppend(a: string, b: string, c: char, repl: string)
    ensures ReplaceChar(a + b, c, repl) == ReplaceChar(a, c, repl) + ReplaceChar(b, c, repl)
  {
    if a == [] {
      assert a + b == b;
    } else {
      assert (a + b)[0] == a[0];
      assert (a + b)[1..] == a[1..] + b;
      ReplaceCharAppend(a[1..], b, c, repl);
    }
  }

  /** `escapeHtml`: `&`, then `<`, then `>` are replaced by their entities.
      The result holds no angle bracket, and text without the three
      characters is returned unchanged. */
  function EscapeHtml(s: string): (r: string)
    ensures '<' !in r && '>' !in r
    ensures '&' !in s && '<' !in s && '>' !in s ==> r == s
  {
    ReplaceChar(ReplaceChar(ReplaceChar(s, '&', "&amp;"), '<', "&lt;"), '>', "&gt;")
  }

  /** The entity a single character is written as. */
  function EscapeChar(c: char): string {
    if c == '&' then "&amp;" else if c == '<' then "&lt;" else if c == '>' then "&gt;" else [c]
  }

  lemma EscapeAppend(a: string, b: string)
    ensures EscapeHtml(a + b) == EscapeHtml(a) + EscapeHtml(b)
  {
    var a1, b1 := ReplaceChar(a, '&', "&amp;"), ReplaceChar(b, '&', "&amp;");
    var a2, b2 := ReplaceChar(a1, '<', "&lt;"), ReplaceChar(b1, '<', "&lt;");
    ReplaceCharAppend(a, b, '&', "&amp;");
    ReplaceCharAppend(a1, b1, '<', "&lt;");
    ReplaceCharAppend(a2, b2, '>', "&gt;");
  }

  lemma EscapeOne(c: char)
    ensures EscapeHtml([c]) == EscapeChar(c)
  {
    assert [c][1..] == [];
    var s1 := ReplaceChar([c], '&', "&amp;");
    assert s1 == (if c == '&' then "&amp;" else [c]) + ReplaceChar([], '&', "&amp;");
    var s2 := ReplaceChar(s1, '<', "&lt;");
    if c != '&' {
      assert s1 == [c];
      assert s2 == (if c == '<' then "&lt;" else [c]) + ReplaceChar([], '<', "&lt;");
    }
  }

  /** Reading back the three entities the escaping writes. */
  function Unescape(t: string): string
    decreases |t|
  {
    if t == [] then []
    else if |t| >= 5 && t[..5] == "&amp;" then "&" + Unescape(t[5..])
    else if |t| >= 4 && t[..4] == "&lt;" then "<" + Unescape(t[4..])
    else if |t| >= 4 && t[..4] == "&gt;" then ">" + Unescape(t[4..])
    else [t[0]] + Unescape(t[1..])
  }

  lemma UnescapeStep(c: char, rest: string)
    ensures Unescape(EscapeChar(c) + rest) == [c] + Unescape(rest)
  {
    var t := EscapeChar(c) + rest;
    if c == '&' {
      assert t[..5] == "&amp;" && t[5..] == rest;
    } else if c == '<' {
      assert t[..4] == "&lt;" && t[4..] == rest;
      assert |t| >= 5 ==> t[..5][1] == 'l';
    } else if c == '>' {
      assert t[..4] == "&gt;" && t[4..] == rest;
      assert |t| >= 5 ==> t[..5][1] == 'g';
      assert t[..4][1] == 'g';
    } else {
      assert t[0] == c && t[1..] == rest;
      assert |t| >= 5 ==> t[..5][0] == c;
      assert |t| >= 4 ==> t[..4][0] == c;
    }
  }

  /** Escaping loses nothing: unescaping gives the text back. */
  lemma {:induction false} UnescapeEscape(s: string)
    ensures Unescape(EscapeHtml(s)) == s
  {
    if s != [] {
      var e := EscapeHtml(s[1..]);
      EscapeFirst(s);
      UnescapeStep(s[0], e);
      UnescapeEscape(s[1..]);
      assert [s[0]] + s[1..] == s;
    } else {
      assert EscapeHtml(s) == [];
    }
  }

  /** `escapeHtml` rewrites each character on its own. */
  lemma EscapeFirst(s: string)
    requires s != []
    ensures EscapeHtml(s) == EscapeChar(s[0]) + EscapeHtml(s[1..])
  {
    assert [s[0]] + s[1..] == s;
    EscapeAppend([s[0]], s[1..]);
    EscapeOne(s[0]);
  }

  /** Different texts are escaped differently. */
  lemma EscapeInjective(a: string, b: string)
    requires EscapeHtml(a) == EscapeHtml(b)
    ensures a == b
  {
    UnescapeEscape(a);
    UnescapeEscape(b);
  }

  // ---------------------------------------------------------------------
  // Page metadata and the AI status badge

  /** The optional `meta` argument; an absent field is `None`. */
  datatype Meta = Meta(aiInvoked: Option<bool>, aiSucceeded: Option<bool>,
                       provider: Option<string>, model: Option<string>, status: Option<string>,
                       datetime: Option<string>, subtitle: Option<string>)

  const NoMeta := Meta(None, None, None, None, None, None, None)

  /** `meta?.field` reads every field as absent when `meta` is. */
  function Fields(meta: Option<Meta>): Meta {
    if meta.Some? then meta.value else NoMeta
  }

  predicate IsTrue(b: Option<bool>) {
    b == Some(true)
  }

  /** A string field that is truthy: present and not empty. */
  predicate Given(s: Option<string>) {
    s.Some? && s.value != ""
  }

  /** The four badges the pages can show. */
  datatype AiState = NotInvoked | Failed | Finished | Reviewing

  function BadgeHtml(st: AiState): string {
    match st
    case NotInvoked => "<span class=\"badge red\">AI: 未参与</span>"
    case Failed => "<span class=\"badge red\">AI: 尝试失败</span>"
    case Finished => "<span class=\"badge green\">AI: 审核完毕</span>"
    case Reviewing => "<span class=\"badge blue\" id=\"ai-status\">AI: 正在审核剩余文件...</span>"
  }

  /** The badge of the static page: not involved unless the AI was invoked,
      failed unless it also succeeded, finished otherwise; never
      "reviewing". */
  function StaticState(meta: Option<Meta>): (st: AiState)
    ensures st != Reviewing
    ensures st == NotInvoked <==> !IsTrue(Fields(meta).aiInvoked)
    ensures st == Failed <==> IsTrue(Fields(meta).aiInvoked) && !IsTrue(Fields(meta).aiSucceeded)
    ensures st == Finished <==> IsTrue(Fields(meta).aiInvoked) && IsTrue(Fields(meta).aiSucceeded)
  {
    var m := Fields(meta);
    if !IsTrue(m.aiInvoked) then NotInvoked
    else if IsTrue(m.aiInvoked) && !IsTrue(m.aiSucceeded) then Failed
    else Finished
  }

  /** The status text reports a failure. */
  predicate ReportsFailure(status: Option<string>) {
    Given(status) && Contains(status.value, "失败")
  }

  /** The badge of the live page: red only when the status text reports a
      failure, "not involved" only when `aiInvoked` is exactly false, and
      "reviewing" in every other case, including an unset `aiInvoked`. */
  function LiveState(meta: Option<Meta>): (st: AiState)
    ensures st != Finished
    ensures st == Failed <==> IsTrue(Fields(meta).aiInvoked) && ReportsFailure(Fields(meta).status)
    ensures st == NotInvoked <==> Fields(meta).aiInvoked == Some(false) && ReportsFailure(Fields(meta).status)
    ensures !ReportsFailure(Fields(meta).status) ==> st == Reviewing
    ensures Fields(meta).aiInvoked.None? ==> st == Reviewing
  {
    var m := Fields(meta);
    if IsTrue(m.aiInvoked) && ReportsFailure(m.status) then Failed
    else if m.aiInvoked == Some(false) && ReportsFailure(m.status) then NotInvoked
    else Reviewing
  }

  /** `${v ? `open${escapeHtml(v)}close` : ''}` */
  function Part(open: string, v: Option<string>, close: string): string {
    if Given(v) then open + EscapeHtml(v.value) + close else ""
  }

  /** An escaped part reads back as the value it shows. */
  lemma PartShows(open: string, v: Option<string>, close: string)
    requires Given(v)
    ensures exists e :: Part(open, v, close) == open + e + close && Unescape(e) == v.value && '<' !in e
  {
    UnescapeEscape(v.value);
    assert Part(open, v, close) == open + EscapeHtml(v.value) + close;
  }

  /** The `<div class="meta">` block, present only with `meta`, showing the
      provider, the model and the status only when each is non-empty. */
  function MetaBlock(meta: Option<Meta>, statusBadge: string): string {
    if meta.None? then ""
    else
      var m := meta.value;
      "<div class=\"meta\">\n  " + statusBadge
      + "\n  " + Part("<span class=\"badge\">Provider: ", m.provider, "</span>")
      + "\n  " + Part("<span class=\"badge\">Model: ", m.model, "</span>")
      + "\n  " + Part("<div class=\"status\">", m.status, "</div>")
      + "\n</div>"
  }

  /** An empty provider, model or status is shown exactly as a missing one. */
  lemma EmptyFieldsHidden(m: Meta, statusBadge: string)
    ensures var hidden := m.(provider := if Given(m.provider) then m.provider else None,
                             model := if Given(m.model) then m.model else None,
                             status := if Given(m.status) then m.status else None);
            MetaBlock(Some(m), statusBadge) == MetaBlock(Some(hidden), statusBadge)
  {
  }

  /** The header row with the logo, the optional subtitle, the repository
      link and the optional timestamp; the logo and the link's icon are
      parameters. */
  function Header(meta: Option<Meta>, logo: string, githubSvg: string): string {
    var m := Fields(meta);
    HeaderLogo + logo + HeaderTitle
    + Part("<div class=\"subtitle\">", m.subtitle, "</div>")
    + HeaderLink + githubSvg + HeaderLinkEnd
    + Part("<div class=\"timestamp\">", m.datetime, "</div>")
    + HeaderEnd
  }

  const HeaderLogo := "<div class=\"header-row\">\n    <img src=\""
  const HeaderTitle := "\" class=\"logo\" alt=\"Code Gate Logo\" />\n    <h1>Code Review</h1>\n    "
  const HeaderLink := "\n  </div>\n  <div class=\"top-right-area\">\n    <a href=\"https://github.com/Gil2015/code-gate\" target=\"_blank\" class=\"github-link\" aria-label=\"GitHub Repo\">\n      "
  const HeaderLinkEnd := "\n    </a>\n    "
  const HeaderEnd := "\n  </div>\n  "

  // ---------------------------------------------------------------------
  // Files, tabs and panes

  datatype Item = Item(file: string, review: string, diff: string)

  datatype Rendered = Rendered(file: string, reviewHtml: string, diffHtml: string)

  const EmptyReviewHtml := "<div class=\"review-body empty\">暂无审查内容</div>"

  /** `renderReviewItem`: the file name is kept, an empty review becomes
      the placeholder and any other review goes through the Markdown
      renderer; the diff goes through the diff renderer. */
  function RenderReviewItem(item: Item, markdown: string -> string, diffView: string -> string): (r: Rendered)
    ensures r.file == item.file
    ensures r.reviewHtml == (if item.review == "" then EmptyReviewHtml else markdown(item.review))
    ensures r.diffHtml == diffView(item.diff)
  {
    Rendered(item.file,
             if item.review != "" then markdown(item.review) else EmptyReviewHtml,
             diffView(item.diff))
  }

  function RenderAll(items: seq<Item>, markdown: string -> string, diffView: string -> string): (rs: seq<Rendered>)
    ensures |rs| == |items|
    ensures forall i :: 0 <= i < |items| ==> rs[i] == RenderReviewItem(items[i], markdown, diffView)
  {
    seq(|items|, i requires 0 <= i < |items| => RenderReviewItem(items[i], markdown, diffView))
  }

  datatype Tab = Tab(idx: nat, file: string)

  datatype Pane = Pane(idx: nat, reviewHtml: string, diffHtml: string)

  /** The file names of the items, in order. */
  function FileNames(items: seq<Item>): (r: seq<string>)
    ensures |r| == |items|
    ensures forall i :: 0 <= i < |r| ==> r[i] == items[i].file
  {
    seq(|items|, i requires 0 <= i < |items| => items[i].file)
  }

  /** The tabs of `files` numbered from `start`, in order. */
  function TabsFrom(files: seq<string>, start: nat): (r: seq<Tab>)
    ensures |r| == |files|
    ensures forall i :: 0 <= i < |r| ==> r[i] == Tab(start + i, files[i])
    decreases |files|
  {
    if files == [] then [] else [Tab(start, files[0])] + TabsFrom(files[1..], start + 1)
  }

  /** The panes of `files` numbered from `start`, in order. */
  function PanesFrom(files: seq<Rendered>, start: nat): (r: seq<Pane>)
    ensures |r| == |files|
    ensures forall i :: 0 <= i < |r| ==> r[i] == Pane(start + i, files[i].reviewHtml, files[i].diffHtml)
    decreases |files|
  {
    if files == [] then []
    else [Pane(start, files[0].reviewHtml, files[0].diffHtml)] + PanesFrom(files[1..], start + 1)
  }

  function TabHtml(t: Tab): string {
    "<button type=\"button\" class=\"tab\" data-idx=\"" + Decimal(t.idx) + "\" title=\"" + EscapeHtml(t.file)
    + "\">" + EscapeHtml(t.file) + "</button>"
  }

  function PaneHtml(p: Pane): string {
    PaneStart + Decimal(p.idx) + PaneReview + p.reviewHtml + PaneDiff + p.diffHtml + PaneEnd
  }

  const PaneStart := "\n<div class=\"pane\" data-idx=\""
  const PaneReview := "\">\n  <div class=\"split\">\n    <div class=\"panel\">\n      <div class=\"panel-title\">AI Review</div>\n      <div class=\"review-body\">"
  const PaneDiff := "</div>\n    </div>\n    <div class=\"panel\">\n      <div class=\"panel-title\">Diff</div>\n      <div class=\"diff-body\">"
  const PaneEnd := "</div>\n    </div>\n  </div>\n</div>"

  /** The rendered tabs, one string each. */
  function TabStrings(files: seq<string>): (r: seq<string>)
    ensures |r| == |files|
    ensures forall i :: 0 <= i < |r| ==> r[i] == TabHtml(Tab(i, files[i]))
  {
    var ts := TabsFrom(files, 0);
    seq(|ts|, i requires 0 <= i < |ts| => TabHtml(ts[i]))
  }

  function PaneStrings(files: seq<Rendered>): (r: seq<string>)
    ensures |r| == |files|
    ensures forall i :: 0 <= i < |r| ==> r[i] == PaneHtml(Pane(i, files[i].reviewHtml, files[i].diffHtml))
  {
    var ps := PanesFrom(files, 0);
    seq(|ps|, i requires 0 <= i < |ps| => PaneHtml(ps[i]))
  }

  /** One tab and one pane per file, in input order, sharing the index `i`
      as `data-idx`; the tab is labelled with the file and the pane holds
      its rendered review; no two tabs carry the same `data-idx`. */
  lemma TabsMatchPanes(items: seq<Item>, markdown: string -> string, diffView: string -> string)
    ensures var rs := RenderAll(items, markdown, diffView);
            var ts, ps := TabsFrom(FileNames(items), 0), PanesFrom(rs, 0);
            && |ts| == |ps| == |items|
            && (forall i :: 0 <= i < |items| ==>
                  ts[i].idx == ps[i].idx == i && ts[i].file == items[i].file
                  && ps[i].reviewHtml == RenderReviewItem(items[i], markdown, diffView).reviewHtml)
            && (forall i, j :: 0 <= i < |ts| && 0 <= j < |ts| && i != j ==> Decimal(ts[i].idx) != Decimal(ts[j].idx))
  {
    var ts := TabsFrom(FileNames(items), 0);
    forall i, j | 0 <= i < |ts| && 0 <= j < |ts| && i != j
      ensures Decimal(ts[i].idx) != Decimal(ts[j].idx)
    {
      DecimalRoundTrip(ts[i].idx);
      DecimalRoundTrip(ts[j].idx);
    }
  }

  /** The body of the static page (`renderHTMLTabs`): header, meta block,
      then the tabs and the panes, each list joined with ''. The template
      it is placed in is not modelled. Every file has its tab and its pane,
      with its index, on the page. */
  function RenderHTMLTabs(items: seq<Item>, meta: Option<Meta>, markdown: string -> string, diffView: string -> string,
                          logo: string, githubSvg: string): (page: string)
    ensures forall i :: 0 <= i < |items| ==> Contains(page, TabHtml(Tab(i, items[i].file)))
    ensures forall i :: 0 <= i < |items| ==>
              var r := RenderReviewItem(items[i], markdown, diffView);
              Contains(page, PaneHtml(Pane(i, r.reviewHtml, r.diffHtml)))
  {
    var top := Header(meta, logo, githubSvg) + MetaBlock(meta, BadgeHtml(StaticState(meta)));
    var rs := RenderAll(items, markdown, diffView);
    StaticBodyShows(top, items, markdown, diffView);
    StaticBody(top, Join(TabStrings(FileNames(items)), ""), Join(PaneStrings(rs), ""))
  }

  lemma StaticBodyShows(top: string, items: seq<Item>, markdown: string -> string, diffView: string -> string)
    ensures var page := StaticBody(top, Join(TabStrings(FileNames(items)), ""),
                                   Join(PaneStrings(RenderAll(items, markdown, diffView)), ""));
            && (forall i :: 0 <= i < |items| ==> Contains(page, TabHtml(Tab(i, items[i].file))))
            && (forall i :: 0 <= i < |items| ==>
                  var r := RenderReviewItem(items[i], markdown, diffView);
                  Contains(page, PaneHtml(Pane(i, r.reviewHtml, r.diffHtml))))
  {
    var tabs, panes := TabStrings(FileNames(items)), PaneStrings(RenderAll(items, markdown, diffView));
    JoinedPartsShown(top + "<div class=\"tabs\">", tabs, "</div><div class=\"panes\">", panes, "</div>");
  }

  function StaticBody(top: string, tabs: string, panes: string): string {
    top + "<div class=\"tabs\">" + tabs + "</div><div class=\"panes\">" + panes + "</div>"
  }

  // ---------------------------------------------------------------------
  // The live page

  /** What `renderHTMLLive` puts into the page: the route it polls, the
      files it starts with, its header and its meta block. */
  datatype LivePage = LivePage(route: string, initial: seq<Item>, header: string, metaBlock: string)

  /** `'/review/' + id + '/status'` */
  function StatusRoute(id: string): (r: string)
    ensures |r| == |id| + 15
    ensures r[..8] == "/review/" && r[8..|id| + 8] == id && r[|id| + 8..] == "/status"
  {
    "/review/" + id + "/status"
  }

  /** `renderHTMLLive`: polls the status route of `id`, starts from
      `initial` or from no file, and shows the live badge. */
  function RenderHTMLLive(id: string, meta: Option<Meta>, initial: Option<seq<Item>>, logo: string, githubSvg: string): (p: LivePage)
    ensures initial.None? ==> p.initial == []
    ensures initial.Some? ==> p.initial == initial.value
    ensures p.metaBlock == MetaBlock(meta, BadgeHtml(LiveState(meta)))
  {
    LivePage(StatusRoute(id), if initial.Some? then initial.value else [], Header(meta, logo, githubSvg),
             MetaBlock(meta, BadgeHtml(LiveState(meta))))
  }
}
