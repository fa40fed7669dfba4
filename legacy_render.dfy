/** `src/ui/render.ts`: the older renderer. It escapes reviews into `<pre>`
    blocks instead of rendering Markdown on the server. Its AI badge is a
    single neutral badge with a three-way text. It hands the reviews to the
    tabbed page's script after neutralising any closing `script`, `style` or
    `textarea` tag in them. The escaping, the meta block, the tab buttons
    and the status route are the same as the newer renderer's and are
    shared with `HtmlRender`. */
module LegacyRender {
  import opened Util
  import opened Strings
  import opened HtmlRender

  // ---------------------------------------------------------------------
  // The AI badge and the page body of `renderHTML`

  /** `AI: ${invoked ? (succeeded ? '参与' : '尝试失败') : '未参与'}` */
  function AiBadgeText(m: Meta): (r: string)
    ensures r == "AI: 未参与" <==> !IsTrue(m.aiInvoked)
    ensures r == "AI: 尝试失败" <==> IsTrue(m.aiInvoked) && !IsTrue(m.aiSucceeded)
    ensures r == "AI: 参与" <==> IsTrue(m.aiInvoked) && IsTrue(m.aiSucceeded)
  {
    "AI: " + (if IsTrue(m.aiInvoked) then (if IsTrue(m.aiSucceeded) then "参与" else "尝试失败") else "未参与")
  }

  /** The older and the newer static page take the same three-way
      decision: "not involved", "failed" and "took part" correspond to the
      newer page's "not involved", "failed" and "finished". */
  lemma SameDecisionAsStatic(m: Meta)
    ensures AiBadgeText(m) == "AI: " + match StaticState(Some(m))
                                       case NotInvoked => "未参与"
                                       case Failed => "尝试失败"
                                       case _ => "参与"
  {
  }

  /** The meta block of the older pages: the badge, then the optional
      provider, model and status. */
  function LegacyMetaBlock(meta: Option<Meta>): string {
    MetaBlock(meta, "<span class=\"badge\">" + AiBadgeText(Fields(meta)) + "</span>")
  }

  const ReviewOpen := "<div class=\"review\"><pre>"
  const ReviewClose := "</pre></div>"

  /** `renderHTML`'s review block: nothing for an empty review, otherwise
      the escaped review inside `<pre>`. */
  function ReviewBlock(review: string): (r: string)
    ensures r == "" <==> review == ""
  {
    if review != "" then ReviewOpen + EscapeHtml(review) + ReviewClose else ""
  }

  /** A non-empty review is shown in full and opens no tag of its own. */
  lemma ReviewBlockShows(review: string)
    requires review != ""
    ensures exists e :: ReviewBlock(review) == ReviewOpen + e + ReviewClose && Unescape(e) == review && '<' !in e
  {
    UnescapeEscape(review);
    assert ReviewBlock(review) == ReviewOpen + EscapeHtml(review) + ReviewClose;
  }

  /** The body of `renderHTML` from the heading on; the diff renderer is a
      parameter and the template around the body is not modelled. The page
      shows the meta block, the review block and the rendered diff. */
  function RenderHTML(diff: string, review: string, meta: Option<Meta>, diffView: string -> string): (page: string)
    ensures Contains(page, LegacyMetaBlock(meta))
    ensures Contains(page, ReviewBlock(review))
    ensures Contains(page, diffView(diff))
  {
    BodyShows("<h1>Code Review</h1>\n", LegacyMetaBlock(meta), ReviewBlock(review), diffView(diff));
    "<h1>Code Review</h1>\n" + LegacyMetaBlock(meta) + "\n" + ReviewBlock(review) + "\n" + diffView(diff) + "\n</div>"
  }

  lemma BodyShows(h: string, m: string, r: string, d: string)
    ensures var page := h + m + "\n" + r + "\n" + d + "\n</div>";
            Contains(page, m) && Contains(page, r) && Contains(page, d)
  {
    var page := h + m + "\n" + r + "\n" + d + "\n</div>";
    ContainsSelf(m);
    ContainsSelf(r);
    ContainsSelf(d);
    ContainsInfix(h, m, "\n" + r + "\n" + d + "\n</div>", m);
    assert page == h + m + ("\n" + r + "\n" + d + "\n</div>");
    ContainsInfix(h + m + "\n", r, "\n" + d + "\n</div>", r);
    assert page == (h + m + "\n") + r + ("\n" + d + "\n</div>");
    ContainsInfix(h + m + "\n" + r + "\n", d, "\n</div>", d);
  }

  // ---------------------------------------------------------------------
  // Closing-tag neutralisation

  /** `s` starts with `p`, up to ASCII case. */
  predicate StartsIgnoringCase(p: string, s: string) {
    |p| <= |s| && forall i :: 0 <= i < |p| ==> Lower(p[i]) == Lower(s[i])
  }

  /** No position of `s` starts `p` up to ASCII case: `/p/i` does not match. */
  predicate Free(s: string, p: string)
    decreases |s|
  {
    !StartsIgnoringCase(p, s) && (s == [] || Free(s[1..], p))
  }

  /** `s.replace(/<\/w/gi, '<\\/w')`: left to right, each closing tag `</w`
      in any case becomes `<\/w` in lower case. */
  function Neut(s: string, w: string): string
    decreases |s|
  {
    if s == [] then []
    else if StartsIgnoringCase("</" + w, s) then "<\\/" + w + Neut(s[|w| + 2..], w)
    else [s[0]] + Neut(s[1..], w)
  }

  /** The three replacements applied to each review of the tabbed page. */
  function Neutralise(review: string): string {
    Neut(Neut(Neut(review, "script"), "style"), "textarea")
  }

  lemma LowerIsOpen(c: char)
    ensures Lower(c) == '<' <==> c == '<'
    ensures Lower(c) == '/' <==> c == '/'
  {
  }

  lemma StartsCons(p: string, s: string)
    requires p != [] && s != []
    ensures StartsIgnoringCase(p, s) <==> Lower(p[0]) == Lower(s[0]) && StartsIgnoringCase(p[1..], s[1..])
  {
    if Lower(p[0]) == Lower(s[0]) && StartsIgnoringCase(p[1..], s[1..]) {
      forall i | 0 <= i < |p|
        ensures Lower(p[i]) == Lower(s[i])
      {
        if i > 0 {
          assert p[1..][i - 1] == p[i] && s[1..][i - 1] == s[i];
        }
      }
    }
  }

  /** A `<`-free prefix of the result was already in the input: the
      replacement only ever writes at a `<`. */
  lemma {:induction false} PrefixThroughNeut(q: string, t: string, w: string)
    requires '<' !in q
    requires StartsIgnoringCase(q, Neut(t, w))
    ensures StartsIgnoringCase(q, t)
    decreases |t|
  {
    if q != [] {
      var n := Neut(t, w);
      assert t != [];
      LowerIsOpen(q[0]);
      StartsCons(q, n);
      if StartsIgnoringCase("</" + w, t) {
        assert false;
      } else {
        assert n == [t[0]] + Neut(t[1..], w);
        assert n[1..] == Neut(t[1..], w);
        PrefixThroughNeut(q[1..], t[1..], w);
        StartsCons(q, t);
      }
    }
  }

  lemma {:induction false} FreeDrop(t: string, p: string, k: nat)
    requires Free(t, p) && k <= |t|
    ensures Free(t[k..], p)
    decreases k
  {
    if k > 0 {
      FreeDrop(t[1..], p, k - 1);
      assert t[1..][k - 1..] == t[k..];
    }
  }

  /** Text without `<` in front of a free text keeps it free. */
  lemma {:induction false} FreeAfterPlain(a: string, n: string, p: string)
    requires p != [] && p[0] == '<' && '<' !in a && Free(n, p)
    ensures Free(a + n, p)
    decreases |a|
  {
    if a == [] {
      assert a + n == n;
    } else {
      FreeAfterPlain(a[1..], n, p);
      assert (a + n)[1..] == a[1..] + n;
      LowerIsOpen(a[0]);
      StartsCons(p, a + n);
    }
  }

  /** One replacement pass removes its own closing tag, and creates none of
      any other: a tag `p` (starting `</`) free in the input is free in the
      output. */
  lemma {:induction false} NeutFree(t: string, w: string, p: string)
    requires |p| >= 2 && p[0] == '<' && p[1] == '/' && '<' !in p[1..] && '<' !in w
    requires p == "</" + w || Free(t, p)
    ensures Free(Neut(t, w), p)
    decreases |t|
  {
    if t == [] {
    } else if StartsIgnoringCase("</" + w, t) {
      var rest := t[|w| + 2..];
      if p != "</" + w {
        FreeDrop(t, p, |w| + 2);
      }
      NeutFree(rest, w, p);
      ReplacementFree(w, Neut(rest, w), p);
    } else {
      NeutFree(t[1..], w, p);
      CopyFree(t, w, p);
    }
  }

  /** The replacement `<\/w` starts no closing tag. */
  lemma ReplacementFree(w: string, n: string, p: string)
    requires |p| >= 2 && p[0] == '<' && p[1] == '/' && '<' !in w && Free(n, p)
    ensures Free("<\\/" + w + n, p)
  {
    var repl := "<\\/" + w;
    assert repl == "<" + ("\\/" + w);
    FreeAfterPlain("\\/" + w, n, p);
    assert (repl + n)[1..] == "\\/" + w + n;
    StartsCons(p, repl + n);
    StartsCons(p[1..], (repl + n)[1..]);
    LowerIsOpen('\\');
  }

  /** A character copied in front of a free output keeps it free unless it
      starts the tag in the input. */
  lemma CopyFree(t: string, w: string, p: string)
    requires t != [] && !StartsIgnoringCase("</" + w, t)
    requires p != [] && p[0] == '<' && '<' !in p[1..] && !StartsIgnoringCase(p, t)
    requires Free(Neut(t[1..], w), p)
    ensures Free(Neut(t, w), p)
  {
    var n := Neut(t[1..], w);
    assert Neut(t, w) == [t[0]] + n;
    assert ([t[0]] + n)[1..] == n;
    StartsCons(p, [t[0]] + n);
    if StartsIgnoringCase(p, [t[0]] + n) {
      LowerIsOpen(t[0]);
      PrefixThroughNeut(p[1..], t[1..], w);
      StartsCons(p, t);
      assert false;
    }
  }

  /** After neutralisation no review holds `</script`, `</style` or
      `</textarea` in any case, so none can end the page's script early. */
  lemma NeutraliseCloses(review: string)
    ensures Free(Neutralise(review), "</script")
    ensures Free(Neutralise(review), "</style")
    ensures Free(Neutralise(review), "</textarea")
  {
    var s1 := Neut(review, "script");
    var s2 := Neut(s1, "style");
    NeutFree(review, "script", "</script");
    NeutFree(s1, "style", "</script");
    NeutFree(s1, "style", "</style");
    NeutFree(s2, "textarea", "</script");
    NeutFree(s2, "textarea", "</style");
    NeutFree(s2, "textarea", "</textarea");
  }

  /** A pass changes nothing in text its tag does not occur in. */
  lemma {:induction false} NeutIdentity(t: string, w: string)
    requires Free(t, "</" + w)
    ensures Neut(t, w) == t
    decreases |t|
  {
    if t != [] {
      NeutIdentity(t[1..], w);
      assert [t[0]] + t[1..] == t;
    }
  }

  /** A review without any of the three closing tags is passed on as it
      is, and neutralising twice is neutralising once. */
  lemma NeutraliseKeeps(review: string)
    requires Free(review, "</script") && Free(review, "</style") && Free(review, "</textarea")
    ensures Neutralise(review) == review
  {
    assert "</" + "script" == "</script" && "</" + "style" == "</style" && "</" + "textarea" == "</textarea";
    NeutIdentity(review, "script");
    NeutIdentity(review, "style");
    NeutIdentity(review, "textarea");
  }

  lemma NeutraliseIdempotent(review: string)
    ensures Neutralise(Neutralise(review)) == Neutralise(review)
  {
    NeutraliseCloses(review);
    NeutraliseKeeps(Neutralise(review));
  }

  // ---------------------------------------------------------------------
  // The tabbed page of `renderHTMLTabs`

  /** The reviews the page's script renders, one per file and in file order:
      pane `i` receives review `i`. */
  function ReviewsPayload(items: seq<Item>): (r: seq<string>)
    ensures |r| == |items|
    ensures forall i :: 0 <= i < |r| ==> r[i] == Neutralise(items[i].review)
  {
    seq(|items|, i requires 0 <= i < |items| => Neutralise(items[i].review))
  }

  /** The review cell of a pane: the escaped review, or the placeholder for
      an empty one. */
  function PaneReview(review: string): (r: string)
    ensures review == "" ==> r == EmptyReviewHtml
    ensures review != "" ==> exists e :: r == "<div class=\"review-body\"><pre>" + e + "</pre></div>"
                                      && Unescape(e) == review && '<' !in e
  {
    UnescapeEscape(review);
    if review != "" then "<div class=\"review-body\"><pre>" + EscapeHtml(review) + "</pre></div>" else EmptyReviewHtml
  }

  /** What a pane of the older page is made of. */
  function LegacyRendered(item: Item, diffView: string -> string): Rendered {
    Rendered(item.file, PaneReview(item.review), diffView(item.diff))
  }

  function LegacyPaneHtml(p: Pane): string {
    LegacyPaneStart + Decimal(p.idx) + LegacyPaneReview + p.reviewHtml + LegacyPaneDiff + p.diffHtml + LegacyPaneEnd
  }

  const LegacyPaneStart := "<div class=\"pane\" data-idx=\""
  const LegacyPaneReview := "\">\n  <div class=\"split\">\n    <div class=\"panel panel-left\">\n      <div class=\"panel-title\">AI Review</div>\n      "
  const LegacyPaneDiff := "\n    </div>\n    <div class=\"panel panel-right\">\n      <div class=\"panel-title\">Diff</div>\n      <div class=\"diff-body\">"
  const LegacyPaneEnd := "</div>\n    </div>\n  </div>\n</div>"

  function LegacyPanes(items: seq<Item>, diffView: string -> string): (r: seq<Pane>)
    ensures |r| == |items|
    ensures forall i :: 0 <= i < |r| ==> r[i] == Pane(i, PaneReview(items[i].review), diffView(items[i].diff))
  {
    PanesFrom(seq(|items|, i requires 0 <= i < |items| => LegacyRendered(items[i], diffView)), 0)
  }

  /** One pane per file, in order. */
  function LegacyPaneStrings(items: seq<Item>, diffView: string -> string): (r: seq<string>)
    ensures |r| == |items|
    ensures forall i :: 0 <= i < |items| ==>
              r[i] == LegacyPaneHtml(Pane(i, PaneReview(items[i].review), diffView(items[i].diff)))
  {
    var ps := LegacyPanes(items, diffView);
    seq(|ps|, i requires 0 <= i < |ps| => LegacyPaneHtml(ps[i]))
  }

  /** The body of the older tabbed page: heading, meta block, the tabs
      joined with '' and the panes joined with ''. Every file has its tab
      and its pane, with its index, on the page. */
  function RenderHTMLTabs(items: seq<Item>, meta: Option<Meta>, diffView: string -> string): (page: string)
    ensures forall i :: 0 <= i < |items| ==> Contains(page, TabHtml(Tab(i, items[i].file)))
    ensures forall i :: 0 <= i < |items| ==>
              Contains(page, LegacyPaneHtml(Pane(i, PaneReview(items[i].review), diffView(items[i].diff))))
  {
    var top := "<h1>Code Review</h1>\n" + LegacyMetaBlock(meta) + "\n<div class=\"tabs\">";
    LegacyBodyShows(top, items, diffView);
    top + Join(TabStrings(FileNames(items)), "") + "</div>\n" + Join(LegacyPaneStrings(items, diffView), "") + "\n</div>"
  }

  lemma LegacyBodyShows(top: string, items: seq<Item>, diffView: string -> string)
    ensures var page := top + Join(TabStrings(FileNames(items)), "") + "</div>\n"
                        + Join(LegacyPaneStrings(items, diffView), "") + "\n</div>";
            && (forall i :: 0 <= i < |items| ==> Contains(page, TabHtml(Tab(i, items[i].file))))
            && (forall i :: 0 <= i < |items| ==>
                  Contains(page, LegacyPaneHtml(Pane(i, PaneReview(items[i].review), diffView(items[i].diff)))))
  {
    JoinedPartsShown(top, TabStrings(FileNames(items)), "</div>\n", LegacyPaneStrings(items, diffView), "\n</div>");
  }

  /** One tab, one pane and one review per file, all at the file's index:
      the tab names the file, the pane shows its review (or the
      placeholder) and the script's review `i` is that file's
      neutralised review. */
  lemma TabsPanesReviewsAgree(items: seq<Item>, diffView: string -> string)
    ensures var ts, ps, rv := TabsFrom(FileNames(items), 0), LegacyPanes(items, diffView), ReviewsPayload(items);
            && |ts| == |ps| == |rv| == |items|
            && forall i :: 0 <= i < |items| ==>
                 && ts[i].idx == ps[i].idx == i
                 && ts[i].file == items[i].file
                 && (items[i].review == "" ==> ps[i].reviewHtml == EmptyReviewHtml && rv[i] == "")
  {
    forall i | 0 <= i < |items| && items[i].review == ""
      ensures ReviewsPayload(items)[i] == ""
    {
      assert Neutralise("") == "";
    }
  }

  // ---------------------------------------------------------------------
  // The live page of `renderHTMLLive`

  /** `renderHTMLLive` of the older renderer: the same route and the same
      `initial || []` as the newer one, with the older meta block. */
  function RenderHTMLLive(id: string, meta: Option<Meta>, initial: Option<seq<Item>>): (p: LivePage)
    ensures p.route == StatusRoute(id)
    ensures initial.None? ==> p.initial == []
    ensures initial.Some? ==> p.initial == initial.value
    ensures p.metaBlock == LegacyMetaBlock(meta)
  {
    LivePage(StatusRoute(id), if initial.Some? then initial.value else [], "", LegacyMetaBlock(meta))
  }
}
