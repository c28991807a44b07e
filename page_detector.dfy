/**
 * The article classifier of `lib/page-detector.ts`. The document the injected script inspects
 * is abstracted to a `Page` record holding exactly what the three heuristics read, and the
 * browser's tab query and script injection become the inputs `tabs` and `run` of `IsArticlePage`.
 */
module PageDetector {
  import opened Optional
  import opened Strings

  /** A `<meta>` element: its `property` and `content` attributes (`None` when absent). */
  datatype Meta = Meta(property: Option<string>, content: Option<string>)

  /** The first element matched by a container selector: length of its `textContent` and its number of `<p>` descendants. */
  datatype Container = Container(textLength: nat, paragraphs: nat)

  /**
   * What the heuristics observe of a document.
   * `firstMatch` maps each container selector with a match to its first matching element, as
   * `document.querySelector` returns it; in particular an `<article>` exists iff `"article"` is a key.
   * `hasHeader`, `hasContent` and `hasFooter` record whether the selector groups
   * `header, .header, #header`, `main, .content, #content, .post-content, .article-content` and
   * `footer, .footer, #footer` match anything.
   */
  datatype Page = Page(
    metas: seq<Meta>,
    href: string,
    hasHeader: bool,
    hasContent: bool,
    hasFooter: bool,
    firstMatch: map<string, Container>)

  predicate HasArticle(p: Page) {
    "article" in p.firstMatch
  }

  // ---------------------------------------------------------------- metadata

  /** A meta tag that by itself marks the page as an article. */
  predicate ArticleMeta(m: Meta) {
    (m.property == Some("og:type") && m.content == Some("article"))
    || m.property == Some("article:published_time")
  }

  /** The early-exit scan over the meta tags, from position `k` on. */
  function MetaScan(metas: seq<Meta>, k: nat): (r: bool)
    requires k <= |metas|
    ensures r <==> exists i :: k <= i < |metas| && ArticleMeta(metas[i])
    decreases |metas| - k
  {
    if k == |metas| then false
    else if metas[k].property == Some("og:type") && metas[k].content == Some("article") then true
    else if metas[k].property == Some("article:published_time") then true
    else MetaScan(metas, k + 1)
  }

  /** `checkMetadata`: an `<article>` element, or some meta tag declaring an article. */
  function CheckMetadata(p: Page): (r: bool)
    ensures HasArticle(p) ==> r
    ensures r <==> HasArticle(p) || exists i :: 0 <= i < |p.metas| && ArticleMeta(p.metas[i])
  {
    if "article" in p.firstMatch then true
    else MetaScan(p.metas, 0)
  }

  // ---------------------------------------------------------------- URL and layout

  const UrlPatterns: seq<string> := ["/article/", "/post/", "/blog/", "/news/"]

  predicate IsDigit(c: char) {
    '0' <= c <= '9'
  }

  /** `\d{4}\/\d{2}\/\d{2}` matches at index `i` of `s`. */
  predicate DateAt(s: string, i: nat) {
    i + 10 <= |s|
    && IsDigit(s[i]) && IsDigit(s[i + 1]) && IsDigit(s[i + 2]) && IsDigit(s[i + 3])
    && s[i + 4] == '/'
    && IsDigit(s[i + 5]) && IsDigit(s[i + 6])
    && s[i + 7] == '/'
    && IsDigit(s[i + 8]) && IsDigit(s[i + 9])
  }

  /** The unanchored date test, scanning start positions from `from` on. */
  function DateFrom(s: string, from: nat): (r: bool)
    requires from <= |s|
    ensures r <==> exists i :: from <= i <= |s| && DateAt(s, i)
    decreases |s| - from
  {
    if DateAt(s, from) then true
    else if from == |s| then false
    else DateFrom(s, from + 1)
  }

  /** `urlPatterns.some(...)`: the literal patterns from position `k`, then the date pattern. */
  function PatternsFrom(href: string, k: nat): (r: bool)
    requires k <= |UrlPatterns|
    ensures r <==> (exists j, i :: k <= j < |UrlPatterns| && 0 <= i <= |href| && OccursAt(href, UrlPatterns[j], i))
                   || (exists i :: 0 <= i <= |href| && DateAt(href, i))
    decreases |UrlPatterns| - k
  {
    if k == |UrlPatterns| then DateFrom(href, 0)
    else Contains(href, UrlPatterns[k]) || PatternsFrom(href, k + 1)
  }

  /** `checkUrlAndLayout`: an article-like URL, or header, content and footer regions all present. */
  function CheckUrlAndLayout(p: Page): (r: bool)
    ensures r <==> (exists j, i :: 0 <= j < |UrlPatterns| && 0 <= i <= |p.href| && OccursAt(p.href, UrlPatterns[j], i))
                   || (exists i :: 0 <= i <= |p.href| && DateAt(p.href, i))
                   || (p.hasHeader && p.hasContent && p.hasFooter)
  {
    if PatternsFrom(p.href, 0) then true
    else p.hasHeader && p.hasContent && p.hasFooter
  }

  // ---------------------------------------------------------------- DOM structure

  const ArticleContainers: seq<string> :=
    ["article", ".post", ".article", ".blog-post", ".entry-content", ".post-content", ".article-content"]

  /** A container with more than 300 characters of text or more than two paragraphs. */
  predicate Substantial(c: Container) {
    c.textLength > 300 || c.paragraphs > 2
  }

  /** The selector matches an element, and that first match is substantial. */
  predicate Qualifies(p: Page, selector: string) {
    selector in p.firstMatch && Substantial(p.firstMatch[selector])
  }

  /** The early-exit loop over `ArticleContainers` from position `k`. */
  function ContainersFrom(p: Page, k: nat): (r: bool)
    requires k <= |ArticleContainers|
    ensures r <==> exists j :: k <= j < |ArticleContainers| && Qualifies(p, ArticleContainers[j])
    decreases |ArticleContainers| - k
  {
    if k == |ArticleContainers| then false
    else
      var selector := ArticleContainers[k];
      if selector in p.firstMatch then
        var c := p.firstMatch[selector];
        if c.textLength > 300 then true
        else if c.paragraphs > 2 then true
        else ContainersFrom(p, k + 1)
      else ContainersFrom(p, k + 1)
  }

  /** `checkDomStructure`. */
  function CheckDomStructure(p: Page): (r: bool)
    ensures r <==> exists j :: 0 <= j < |ArticleContainers| && Qualifies(p, ArticleContainers[j])
  {
    ContainersFrom(p, 0)
  }

  // ---------------------------------------------------------------- verdict

  /**
   * The evidence that makes a page an article, stated without the scans:
   * some witness position in the meta tags, the URL, or the selector list.
   */
  ghost predicate ArticleEvidence(p: Page) {
    HasArticle(p)
    || (exists i :: 0 <= i < |p.metas| && ArticleMeta(p.metas[i]))
    || (exists j, i :: 0 <= j < |UrlPatterns| && 0 <= i <= |p.href| && OccursAt(p.href, UrlPatterns[j], i))
    || (exists i :: 0 <= i <= |p.href| && DateAt(p.href, i))
    || (p.hasHeader && p.hasContent && p.hasFooter)
    || (exists j :: 0 <= j < |ArticleContainers| && Qualifies(p, ArticleContainers[j]))
  }

  /** The injected function's verdict: the three checks OR-ed left to right. */
  function Classify(p: Page): (r: bool)
    ensures r <==> ArticleEvidence(p)
  {
    CheckMetadata(p) || CheckUrlAndLayout(p) || CheckDomStructure(p)
  }

  // ---------------------------------------------------------------- the tab guard

  /** The active tab as the tab query reports it. */
  datatype Tab = Tab(id: Option<int>, url: Option<string>, title: Option<string>)

  /** The result of one frame of an injected script: it failed, or it ran on a document. */
  datatype Frame = FrameFailed | FrameRan(page: Page)

  /** Script injection into the tab: it threw, or it returned one result per frame. */
  datatype ScriptRun = Threw | Ran(frames: seq<Frame>)

  /** `/^https?:\/\//i`: the URL starts with `http://` or `https://`, in any letter case. */
  predicate HttpScheme(url: string) {
    StartsWith(Lower(url), "http://") || StartsWith(Lower(url), "https://")
  }

  /** The guards of `isArticlePage`: a first tab with a non-zero id and a non-empty http(s) URL. */
  predicate Eligible(tabs: seq<Tab>) {
    |tabs| > 0
    && tabs[0].id.Some? && tabs[0].id.value != 0
    && tabs[0].url.Some? && tabs[0].url.value != "" && HttpScheme(tabs[0].url.value)
  }

  /**
   * `isArticlePage`: false without an eligible tab (the script is then never injected,
   * so `run` is not consulted); otherwise the first frame's verdict, with a thrown
   * injection or a missing result reported as false.
   */
  function IsArticlePage(tabs: seq<Tab>, run: ScriptRun): (r: bool)
    ensures !Eligible(tabs) ==> !r
    ensures run.Threw? ==> !r
    ensures r <==> Eligible(tabs) && run.Ran? && |run.frames| > 0 && run.frames[0].FrameRan?
                   && ArticleEvidence(run.frames[0].page)
  {
    if |tabs| == 0 || tabs[0].id.None? || tabs[0].id.value == 0 then false
    else if tabs[0].url.None? || tabs[0].url.value == "" || !HttpScheme(tabs[0].url.value) then false
    else match run
      case Threw => false
      case Ran(frames) =>
        if |frames| == 0 then false
        else match frames[0]
          case FrameFailed => false
          case FrameRan(p) => Classify(p)
  }

  // ---------------------------------------------------------------- properties

  /** Without an eligible tab the verdict does not depend on what injection would have returned. */
  lemma IneligibleTabIgnoresScript(tabs: seq<Tab>, run1: ScriptRun, run2: ScriptRun)
    requires !Eligible(tabs)
    ensures IsArticlePage(tabs, run1) == IsArticlePage(tabs, run2) == false
  {
  }

  /** The scheme test ignores letter case: `HTTPS://` passes like `https://`. */
  lemma SchemeIgnoresCase(rest: string)
    ensures HttpScheme("HTTPS://" + rest) && HttpScheme("Http://" + rest)
    ensures !HttpScheme("ftp://" + rest)
  {
    var a := Lower("HTTPS://" + rest);
    assert a[..8] == "https://";
    var b := Lower("Http://" + rest);
    assert b[..7] == "http://";
    var c := Lower("ftp://" + rest);
    assert c[0] == 'f';
  }

  /** A date-shaped run anywhere in the URL makes `checkUrlAndLayout` true, whatever the layout. */
  lemma DateInUrlSuffices(p: Page, i: nat)
    requires DateAt(p.href, i)
    ensures CheckUrlAndLayout(p) && Classify(p)
  {
  }

  /**
   * The thresholds are strict: when no listed container has more than 300 characters or more
   * than two paragraphs (exactly 300 and two included), `checkDomStructure` is false.
   */
  lemma ThresholdIsStrict(p: Page)
    requires forall s :: s in ArticleContainers && s in p.firstMatch ==>
      p.firstMatch[s].textLength <= 300 && p.firstMatch[s].paragraphs <= 2
    ensures !CheckDomStructure(p)
  {
  }

  /** A single container with three paragraphs and short text decides `checkDomStructure`; with two it does not. */
  lemma {:induction false} ParagraphBranch(p: Page, selector: string, c: Container)
    requires selector in ArticleContainers
    requires p.firstMatch == map[selector := c]
    requires c.textLength <= 300
    ensures CheckDomStructure(p) <==> c.paragraphs >= 3
  {
    var j :| 0 <= j < |ArticleContainers| && ArticleContainers[j] == selector;
    if c.paragraphs >= 3 {
      assert Qualifies(p, ArticleContainers[j]);
    }
  }

  /**
   * A container that exists but is too small does not end the search:
   * a later selector that qualifies still makes the check true.
   */
  lemma {:induction false} SmallContainerDoesNotStop(p: Page, k: nat, j: nat)
    requires k < j < |ArticleContainers|
    requires ArticleContainers[k] in p.firstMatch && !Substantial(p.firstMatch[ArticleContainers[k]])
    requires Qualifies(p, ArticleContainers[j])
    ensures ContainersFrom(p, k) && CheckDomStructure(p)
  {
  }
}
