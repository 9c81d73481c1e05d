/**
 * How the scraper gathers a site's HTML (scraper.py): probing the page for
 * pagination controls, the two scrolling routines, and the choice between
 * infinite scroll, pagination and a single page.
 *
 * The browser is replaced by what it reports:
 *  - `answer(selector)`: what querying one XPath selector gave;
 *  - `heights`: the successive answers to `document.body.scrollHeight`;
 *  - `web`: the page source of every URL that loads, a URL missing from
 *    it being one whose load raises;
 *  - `landing`: the page source after the first navigation, `None` when
 *    starting the browser or loading the URL raised.
 */
module Traversal {
  import opened Collections
  import opened Strings

  /** The XPath selectors probed for pagination controls, in priority order. */
  const PaginationSelectors: seq<string> := [
    "//ul[contains(@class, 'pagination')]//a",
    "//div[contains(@class, 'pagination')]//a",
    "//nav[contains(@class, 'pagination')]//a",
    "//a[contains(@class, 'page-link')]",
    "//a[contains(@class, 'pagination')]",
    "//button[contains(@class, 'pagination')]"
  ]

  /** The no-op link target the probe discards. */
  const NoOpTarget := "javascript:void(0)"

  /** How many linked pages the pagination branch visits at most. */
  const PageCap := 10

  /** The distance between two offsets of the second scrolling routine. */
  const ScrollStep := 800

  /**
   * What the browser answered for one selector: the `href` attribute of
   * every matching element (`None` where an element has none), or an
   * exception raised while finding the elements or reading an attribute.
   */
  datatype Query = QueryRaised | Matched(hrefs: seq<Option<string>>)

  /** An href the probe keeps: non-empty and not `javascript:void(0)` in any letter case. */
  predicate IsLinkTarget(href: string) {
    href != "" && !Contains(AsciiLower(href), NoOpTarget)
  }

  /** The hrefs the probe keeps, in element order, repeats included. */
  function KeptHrefs(hrefs: seq<Option<string>>): (r: seq<string>)
    ensures forall x :: x in r ==> Some(x) in hrefs && IsLinkTarget(x)
    ensures forall x :: Some(x) in hrefs && IsLinkTarget(x) ==> x in r
  {
    if hrefs == [] then []
    else
      var rest := KeptHrefs(hrefs[1..]);
      assert forall h :: h in hrefs[1..] ==> h in hrefs;
      assert forall h :: h in hrefs ==> h == hrefs[0] || h in hrefs[1..];
      if hrefs[0].Some? && IsLinkTarget(hrefs[0].value) then [hrefs[0].value] + rest else rest
  }

  /**
   * The distinct links one selector yields. The source collects them in a
   * set, whose iteration order Python leaves open; this model lists them
   * in order of first occurrence.
   */
  function SelectorLinks(q: Query): seq<string>
  {
    match q
    case QueryRaised => []
    case Matched(hrefs) => Dedup(KeptHrefs(hrefs))
  }

  /** The links of the first selector, from the i-th on, that yields any. */
  function ProbeFrom(answer: string -> Query, selectors: seq<string>, i: nat): Option<seq<string>>
    requires i <= |selectors|
    decreases |selectors| - i
  {
    if i == |selectors| then None
    else
      var links := SelectorLinks(answer(selectors[i]));
      if links != [] then Some(links) else ProbeFrom(answer, selectors, i + 1)
  }

  /** The pagination links the probe finds, `None` when no selector yields one. */
  function Probe(answer: string -> Query): Option<seq<string>>
  {
    ProbeFrom(answer, PaginationSelectors, 0)
  }

  /**
   * The links one selector yields are distinct, and they are exactly the
   * hrefs of its elements that are link targets; a query that raised
   * yields none.
   */
  lemma SelectorLinksKept(q: Query)
    ensures NoDuplicates(SelectorLinks(q))
    ensures forall x :: x in SelectorLinks(q) ==> IsLinkTarget(x)
    ensures q.Matched? ==> forall x :: x in SelectorLinks(q) <==> Some(x) in q.hrefs && IsLinkTarget(x)
    ensures q.QueryRaised? ==> SelectorLinks(q) == []
  {
    if q.Matched? {
      DedupProperties(KeptHrefs(q.hrefs));
    }
  }

  /** The index of the first selector, from the i-th on, that yields a link; `|selectors|` when none does. */
  function FirstYield(answer: string -> Query, selectors: seq<string>, i: nat): (j: nat)
    requires i <= |selectors|
    ensures i <= j <= |selectors|
    ensures forall m :: i <= m < j ==> SelectorLinks(answer(selectors[m])) == []
    ensures j < |selectors| ==> SelectorLinks(answer(selectors[j])) != []
    decreases |selectors| - i
  {
    if i == |selectors| || SelectorLinks(answer(selectors[i])) != [] then i
    else FirstYield(answer, selectors, i + 1)
  }

  /** The probe returns the links of the first selector that yields any, and nothing when none does. */
  lemma {:induction false} ProbeFromFirst(answer: string -> Query, selectors: seq<string>, i: nat)
    requires i <= |selectors|
    ensures var j := FirstYield(answer, selectors, i);
      ProbeFrom(answer, selectors, i) == if j == |selectors| then None else Some(SelectorLinks(answer(selectors[j])))
    decreases |selectors| - i
  {
    if i < |selectors| && SelectorLinks(answer(selectors[i])) == [] {
      ProbeFromFirst(answer, selectors, i + 1);
    }
  }

  /**
   * The loop of `check_pagination` over a list of selectors: the links of
   * the first selector that yields at least one; a selector whose query
   * raises, or whose hrefs are all discarded, falls through.
   */
  method FirstYieldingSelector(answer: string -> Query, selectors: seq<string>) returns (found: bool, links: Option<seq<string>>)
    ensures links == ProbeFrom(answer, selectors, 0)
    ensures found <==> links.Some?
  {
    var i := 0;
    while i < |selectors|
      invariant i <= |selectors|
      invariant ProbeFrom(answer, selectors, i) == ProbeFrom(answer, selectors, 0)
    {
      var candidates := SelectorLinks(answer(selectors[i]));
      if candidates != [] {
        return true, Some(candidates);
      }
      i := i + 1;
    }
    return false, None;
  }

  /** `check_pagination`: the probe over the selectors in priority order. */
  method CheckPagination(answer: string -> Query) returns (found: bool, links: Option<seq<string>>)
    ensures links == Probe(answer)
    ensures found <==> links.Some?
    ensures !found ==> forall i :: 0 <= i < |PaginationSelectors| ==>
      SelectorLinks(answer(PaginationSelectors[i])) == []
    ensures found ==> exists i :: (0 <= i < |PaginationSelectors|
      && links.value == SelectorLinks(answer(PaginationSelectors[i]))
      && answer(PaginationSelectors[i]).Matched?
      && (forall x :: x in links.value <==> Some(x) in answer(PaginationSelectors[i]).hrefs && IsLinkTarget(x))
      && forall j :: 0 <= j < i ==> SelectorLinks(answer(PaginationSelectors[j])) == [])
    ensures found ==> && links.value != []
                      && NoDuplicates(links.value)
                      && forall x :: x in links.value ==> IsLinkTarget(x)
  {
    found, links := FirstYieldingSelector(answer, PaginationSelectors);
    ProbeFromFirst(answer, PaginationSelectors, 0);
    if found {
      var j := FirstYield(answer, PaginationSelectors, 0);
      SelectorLinksKept(answer(PaginationSelectors[j]));
      assert links.value == SelectorLinks(answer(PaginationSelectors[j]));
    }
  }

  /** Round k of the first scrolling routine saw the page height change (grow or shrink). */
  predicate Changed(heights: seq<int>, k: nat)
    requires 2 + 2 * k < |heights|
  {
    heights[2 + 2 * k] != heights[1 + 2 * k]
  }

  /**
   * The first `scroll_page`: up to `maxScrolls` rounds of scrolling to the
   * bottom, stopping at the first round after which the height is
   * unchanged. `heights` holds the initial reading, then for round k the
   * height before (`heights[1 + 2k]`) and after (`heights[2 + 2k]`)
   * scrolling. `rounds` is the number of scroll commands issued;
   * `scrolled` is what the routine returns.
   */
  method ScrollToBottom(heights: seq<int>, maxScrolls: nat) returns (scrolled: bool, rounds: nat)
    requires |heights| >= 1 + 2 * maxScrolls
    ensures rounds <= maxScrolls
    ensures maxScrolls > 0 ==> rounds > 0
    ensures forall k :: 0 <= k < rounds - 1 ==> Changed(heights, k)
    ensures 0 < rounds < maxScrolls ==> !Changed(heights, rounds - 1)
    ensures scrolled <==> exists k :: 0 <= k < rounds && Changed(heights, k)
    ensures scrolled <==> maxScrolls > 0 && Changed(heights, 0)
  {
    scrolled, rounds := false, 0;
    while rounds < maxScrolls
      invariant rounds <= maxScrolls
      invariant forall k :: 0 <= k < rounds ==> Changed(heights, k)
      invariant scrolled <==> rounds > 0
    {
      var previousHeight := heights[1 + 2 * rounds];
      var newHeight := heights[2 + 2 * rounds];
      rounds := rounds + 1;
      if newHeight == previousHeight {
        assert !Changed(heights, rounds - 1);
        if scrolled {
          assert Changed(heights, 0);
        }
        break;
      }
      scrolled := true;
    }
    if scrolled {
      assert Changed(heights, 0);
    }
  }

  /**
   * The scroll commands the second `scroll_page` issues from round r on.
   * A round starts from the height `heights[r]` and scrolls to every
   * offset `0, 800, 1600, ...` below it, then reads the height again: an
   * unchanged height ends the rounds with a scroll back to the top; a
   * changed one starts the next round from it. A reading past the end of
   * `heights` is one that raised: the routine swallows it and stops
   * without scrolling back.
   */
  function ScrollRounds(heights: seq<int>, r: nat): seq<int>
    requires r < |heights|
    decreases |heights| - r
  {
    Range(heights[r], ScrollStep) +
      (if r + 1 == |heights| then []
       else if heights[r + 1] == heights[r] then [0]
       else ScrollRounds(heights, r + 1))
  }

  /** Every scroll command the second `scroll_page` issues, in order. */
  function ScrollLog(heights: seq<int>): seq<int>
  {
    if heights == [] then [] else ScrollRounds(heights, 0)
  }

  /** The offsets of rounds started from the heights `hs`, one round after another. */
  function RoundOffsets(hs: seq<int>): seq<int>
  {
    if hs == [] then [] else Range(hs[0], ScrollStep) + RoundOffsets(hs[1..])
  }

  lemma {:induction false} ScrollRoundsSettle(heights: seq<int>, r: nat, s: nat)
    requires r <= s && s + 1 < |heights| && heights[s + 1] == heights[s]
    requires forall k :: r <= k < s ==> heights[k + 1] != heights[k]
    ensures ScrollRounds(heights, r) == RoundOffsets(heights[r..s + 1]) + [0]
    decreases s - r
  {
    if r < s {
      ScrollRoundsSettle(heights, r + 1, s);
      assert heights[r..s + 1][1..] == heights[r + 1..s + 1];
    } else {
      assert heights[r..s + 1] == [heights[r]];
      assert RoundOffsets([heights[r]]) == Range(heights[r], ScrollStep) + RoundOffsets([]);
    }
  }

  lemma {:induction false} ScrollRoundsUnsettled(heights: seq<int>, r: nat)
    requires r < |heights|
    requires forall k :: r <= k < |heights| - 1 ==> heights[k + 1] != heights[k]
    ensures ScrollRounds(heights, r) == RoundOffsets(heights[r..])
    decreases |heights| - r
  {
    if r + 1 < |heights| {
      ScrollRoundsUnsettled(heights, r + 1);
      assert heights[r..][1..] == heights[r + 1..];
    } else {
      assert heights[r..] == [heights[r]];
      assert RoundOffsets([heights[r]]) == Range(heights[r], ScrollStep) + RoundOffsets([]);
    }
  }

  /**
   * When the height first stays unchanged after round s, the second
   * `scroll_page` has scrolled through rounds 0..s, each over the offsets
   * below the height it started from, and finally scrolls back to 0.
   */
  lemma ScrollLogSettled(heights: seq<int>, s: nat)
    requires s + 1 < |heights| && heights[s + 1] == heights[s]
    requires forall k :: 0 <= k < s ==> heights[k + 1] != heights[k]
    ensures ScrollLog(heights) == RoundOffsets(heights[..s + 1]) + [0]
  {
    ScrollRoundsSettle(heights, 0, s);
    assert heights[0..s + 1] == heights[..s + 1];
  }

  /**
   * When a height reading raises before the page settles, the second
   * `scroll_page` ends after the rounds it completed, without scrolling
   * back to the top.
   */
  lemma ScrollLogInterrupted(heights: seq<int>)
    requires forall k :: 0 <= k < |heights| - 1 ==> heights[k + 1] != heights[k]
    ensures ScrollLog(heights) == RoundOffsets(heights)
  {
    if heights != [] {
      ScrollRoundsUnsettled(heights, 0);
      assert heights[0..] == heights;
    }
  }

  /** One round of the second `scroll_page`: the offsets `0, 800, 1600, ...` below `lastHeight`, in order. */
  method ScrollRound(lastHeight: int) returns (offsets: seq<int>)
    ensures offsets == Range(lastHeight, ScrollStep)
  {
    offsets := [];
    var i := 0;
    while i < lastHeight
      invariant i >= 0
      invariant offsets + RangeFrom(i, lastHeight, ScrollStep) == Range(lastHeight, ScrollStep)
      decreases lastHeight - i
    {
      offsets := offsets + [i];
      i := i + ScrollStep;
    }
  }

  /**
   * The second `scroll_page`, the one the name is bound to once scraper.py
   * has loaded: it returns nothing; `commands` are the offsets it scrolls
   * to, in order.
   */
  method ScrollThrough(heights: seq<int>) returns (commands: seq<int>)
    ensures commands == ScrollLog(heights)
  {
    commands := [];
    if |heights| == 0 {
      return;
    }
    var r := 0;
    var lastHeight := heights[0];
    while true
      invariant r < |heights| && lastHeight == heights[r]
      invariant commands + ScrollRounds(heights, r) == ScrollLog(heights)
      decreases |heights| - r
    {
      ghost var before := commands;
      var offsets := ScrollRound(lastHeight);
      commands := commands + offsets;
      if r + 1 == |heights| {
        assert ScrollRounds(heights, r) == offsets + [];
        AppendAssociates(before, offsets, []);
        return;
      }
      var newHeight := heights[r + 1];
      if newHeight == lastHeight {
        assert ScrollRounds(heights, r) == offsets + [0];
        AppendAssociates(before, offsets, [0]);
        break;
      }
      assert ScrollRounds(heights, r) == offsets + ScrollRounds(heights, r + 1);
      AppendAssociates(before, offsets, ScrollRounds(heights, r + 1));
      r, lastHeight := r + 1, newHeight;
    }
    commands := commands + [0];
  }

  /** The traversal strategy a capture was made with. */
  datatype Strategy = SinglePage | InfiniteScroll | Pagination

  /** The record `fetch_html_selenium` fills in and returns. */
  datatype FetchResult = FetchResult(htmlContent: seq<string>, pagesScraped: nat, scrapingMethod: Strategy, success: bool)

  /** A filled-in record, or the error raised when the browser could not load the URL. */
  datatype FetchOutcome = Fetched(result: FetchResult) | FetchFailed

  /** The links the pagination branch visits: the first ten. */
  function FirstLinks(links: seq<string>): (r: seq<string>)
    ensures |r| <= PageCap && |r| <= |links|
    ensures r == links[..|r|]
    ensures |links| <= PageCap ==> r == links
  {
    if |links| <= PageCap then links else links[..PageCap]
  }

  /** The page sources of `urls`, loaded in order up to the first one that fails to load. */
  function LoadUntilFailure(urls: seq<string>, web: map<string, string>): (pages: seq<string>)
    ensures |pages| <= |urls|
    ensures forall k :: 0 <= k < |pages| ==> urls[k] in web && pages[k] == web[urls[k]]
    ensures |pages| < |urls| ==> urls[|pages|] !in web
  {
    if urls == [] || urls[0] !in web then []
    else [web[urls[0]]] + LoadUntilFailure(urls[1..], web)
  }

  /**
   * The loop of the pagination branch: loads the links one after another
   * and keeps each page source, until a load raises (a warning is shown
   * and the loop ends) or the links run out.
   */
  method CapturePages(targets: seq<string>, web: map<string, string>) returns (pages: seq<string>)
    ensures pages == LoadUntilFailure(targets, web)
  {
    pages := [];
    var i := 0;
    while i < |targets|
      invariant i <= |targets| && |pages| == i
      invariant forall k :: 0 <= k < i ==> targets[k] in web && pages[k] == web[targets[k]]
    {
      if targets[i] !in web {
        break;
      }
      pages := pages + [web[targets[i]]];
      i := i + 1;
    }
  }

  /**
   * `fetch_html_selenium` with `isScrollable` standing for what
   * `scroll_page` returned, read as a truth value: infinite scroll when it
   * is true, otherwise pagination when the probe found links, otherwise a
   * single page. Every successful return holds at least one page, the
   * landing page first.
   */
  method FetchHtml(landing: Option<string>, isScrollable: bool, answer: string -> Query, web: map<string, string>)
    returns (r: FetchOutcome)
    ensures r.FetchFailed? <==> landing.None?
    ensures r.Fetched? ==> var f := r.result;
      && f.success
      && 0 < |f.htmlContent| <= 1 + PageCap
      && f.pagesScraped == |f.htmlContent|
      && f.htmlContent[0] == landing.value
    ensures r.Fetched? ==> (r.result.scrapingMethod == InfiniteScroll <==> isScrollable)
    ensures r.Fetched? ==> (r.result.scrapingMethod == Pagination <==> !isScrollable && Probe(answer).Some?)
    ensures r.Fetched? && r.result.scrapingMethod != Pagination ==> r.result.htmlContent == [landing.value]
    ensures r.Fetched? && r.result.scrapingMethod == Pagination ==>
      r.result.htmlContent == [landing.value] + LoadUntilFailure(FirstLinks(Probe(answer).value), web)
  {
    if landing.None? {
      return FetchFailed;
    }
    var page := landing.value;
    var htmlContent: seq<string> := [];
    var pagesScraped := 0;
    var strategy := SinglePage;
    var success := false;
    if isScrollable {
      htmlContent := htmlContent + [page];
      pagesScraped := 1;
      strategy := InfiniteScroll;
      success := true;
    } else {
      var hasPagination, paginationLinks := CheckPagination(answer);
      if hasPagination && paginationLinks.Some? && paginationLinks.value != [] {
        strategy := Pagination;
        htmlContent := htmlContent + [page];
        pagesScraped := pagesScraped + 1;
        var linkedPages := CapturePages(FirstLinks(paginationLinks.value), web);
        htmlContent := htmlContent + linkedPages;
        pagesScraped := pagesScraped + |linkedPages|;
        success := true;
      } else {
        htmlContent := htmlContent + [page];
        pagesScraped := 1;
        strategy := SinglePage;
        success := true;
      }
    }
    // every branch captured a page, so the "No HTML content retrieved" error cannot be raised
    assert htmlContent != [];
    r := Fetched(FetchResult(htmlContent, pagesScraped, strategy, success));
  }

  /**
   * `fetch_html_selenium` as scraper.py runs it: the name `scroll_page` is
   * bound to the second routine, which scrolls through the page and
   * returns nothing, a false value, so the infinite-scroll branch is never
   * taken.
   */
  method FetchHtmlAsRun(landing: Option<string>, heights: seq<int>, answer: string -> Query, web: map<string, string>)
    returns (r: FetchOutcome, scrollCommands: seq<int>)
    ensures r.FetchFailed? <==> landing.None?
    ensures landing.Some? ==> scrollCommands == ScrollLog(heights)
    ensures r.Fetched? ==> r.result.scrapingMethod != InfiniteScroll
    ensures r.Fetched? ==> (r.result.scrapingMethod == Pagination <==> Probe(answer).Some?)
    ensures r.Fetched? ==> r.result.success && r.result.pagesScraped == |r.result.htmlContent|
    ensures r.Fetched? && r.result.scrapingMethod == SinglePage ==> r.result.htmlContent == [landing.value]
    ensures r.Fetched? && r.result.scrapingMethod == Pagination ==>
      r.result.htmlContent == [landing.value] + LoadUntilFailure(FirstLinks(Probe(answer).value), web)
  {
    scrollCommands := [];
    if landing.None? {
      return FetchFailed, scrollCommands;
    }
    scrollCommands := ScrollThrough(heights);
    r := FetchHtml(landing, false, answer, web);
  }
}
