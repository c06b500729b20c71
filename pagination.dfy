/**
 * The pagination view of paginationView.js: how many pages the search
 * results fill, which buttons `_generateMarkup` shows for the current page,
 * and the page number a click on each button asks for.
 */
module Pagination {
  import opened JsString
  import opened Recipes
  import opened Model
  import opened View

  /** `Math.ceil(count / resultsPerPage)`, the least page count that holds every result. */
  function NumPages(count: nat, resultsPerPage: nat): (n: nat)
    requires resultsPerPage > 0
    ensures count <= n * resultsPerPage
    ensures n > 0 ==> (n - 1) * resultsPerPage < count
    ensures n == 0 <==> count == 0
  {
    var n := (count + resultsPerPage - 1) / resultsPerPage;
    DivBounds(count + resultsPerPage - 1, resultsPerPage);
    n
  }

  lemma DivBounds(a: nat, b: nat)
    requires b > 0
    ensures (a / b) * b <= a < (a / b) * b + b
  {
  }

  datatype Direction = Prev | Next

  /** A `btn--inline` button and the page in its `data-goto` attribute. */
  datatype PageButton = PageButton(direction: Direction, goto: int)

  predicate HasButton(bs: seq<PageButton>, d: Direction) {
    exists i :: 0 <= i < |bs| && bs[i].direction == d
  }

  /**
   * The buttons for `currentPage` out of `numPages`, checked in the source's
   * order: first page with more pages (next only), last page of several
   * (previous only), a page in between (both), anything else (none).
   */
  function Buttons(currentPage: int, numPages: nat): (bs: seq<PageButton>)
    ensures |bs| <= 2
    ensures HasButton(bs, Prev) <==> 1 < currentPage <= numPages
    ensures HasButton(bs, Next) <==> 1 <= currentPage < numPages
    ensures forall i :: 0 <= i < |bs| ==>
              bs[i].goto == if bs[i].direction == Prev then currentPage - 1 else currentPage + 1
    ensures forall i :: 0 <= i < |bs| ==> 1 <= bs[i].goto <= numPages && bs[i].goto != currentPage
    ensures forall i, j :: 0 <= i < j < |bs| ==> bs[i].direction == Prev && bs[j].direction == Next
  {
    var prev, next := PageButton(Prev, currentPage - 1), PageButton(Next, currentPage + 1);
    if currentPage == 1 && numPages > 1 then
      assert [next][0] == next; [next]
    else if currentPage == numPages && numPages > 1 then
      assert [prev][0] == prev; [prev]
    else if currentPage > 1 && currentPage < numPages then
      assert [prev, next][0] == prev && [prev, next][1] == next; [prev, next]
    else
      []
  }

  /** The buttons `_generateMarkup` shows for `state.search`. */
  function SearchButtons(search: Search): (bs: seq<PageButton>)
    requires search.resultsPerPage > 0
    ensures HasButton(bs, Next) <==> 1 <= search.page && search.page * search.resultsPerPage < |search.results|
    ensures HasButton(bs, Prev) <==> 1 < search.page && (search.page - 1) * search.resultsPerPage < |search.results|
  {
    var np := NumPages(|search.results|, search.resultsPerPage);
    PageThresholds(search.page, |search.results|, search.resultsPerPage);
    Buttons(search.page, np)
  }

  /**
   * Against `NumPages`, "a page after this one" and "a page before this one"
   * are the same as "results lie past this page" and "results lie before its end".
   */
  lemma PageThresholds(page: int, count: nat, resultsPerPage: nat)
    requires resultsPerPage > 0
    ensures var np := NumPages(count, resultsPerPage);
            && (1 <= page < np <==> 1 <= page && page * resultsPerPage < count)
            && (1 < page <= np <==> 1 < page && (page - 1) * resultsPerPage < count)
  {
    var np := NumPages(count, resultsPerPage);
    if 1 <= page {
      if page < np {
        MulMonotone(page, np - 1, resultsPerPage);
      } else {
        MulMonotone(np, page, resultsPerPage);
      }
      if page <= np {
        MulMonotone(page - 1, np - 1, resultsPerPage);
      } else {
        MulMonotone(np, page - 1, resultsPerPage);
      }
    }
  }

  /** Every page a button points to holds at least one result. */
  lemma TargetPagesNonEmpty(search: Search)
    requires search.resultsPerPage > 0
    ensures forall b :: b in SearchButtons(search) ==>
              PageSlice(search.results, search.resultsPerPage, b.goto) != []
  {
    var rpp, n := search.resultsPerPage, |search.results|;
    var np := NumPages(n, rpp);
    forall b | b in SearchButtons(search)
      ensures PageSlice(search.results, rpp, b.goto) != []
    {
      PageSliceRange(search.results, rpp, b.goto);
      assert (b.goto - 1) * rpp <= (np - 1) * rpp by { MulMonotone(b.goto - 1, np - 1, rpp); }
    }
  }

  lemma MulMonotone(a: int, b: int, c: nat)
    requires a <= b
    ensures a * c <= b * c
  {
  }

  /** The results on pages 1 to k, concatenated. */
  function Pages(results: seq<SearchResult>, resultsPerPage: nat, k: nat): seq<SearchResult> {
    if k == 0 then [] else Pages(results, resultsPerPage, k - 1) + PageSlice(results, resultsPerPage, k)
  }

  /** Pages 1 to k are the results up to k * resultsPerPage, in order and without overlap. */
  lemma {:induction false} PagesPrefix(results: seq<SearchResult>, resultsPerPage: nat, k: nat)
    requires resultsPerPage > 0
    ensures Pages(results, resultsPerPage, k) == results[..Min(k * resultsPerPage, |results|)]
  {
    if k > 0 {
      PagesPrefix(results, resultsPerPage, k - 1);
      PageSliceRange(results, resultsPerPage, k);
      var a, b := Min((k - 1) * resultsPerPage, |results|), Min(k * resultsPerPage, |results|);
      assert results[..a] + results[a..b] == results[..b];
    }
  }

  /** The pages up to `NumPages` hold every result exactly once, in order. */
  lemma AllPagesCoverResults(results: seq<SearchResult>, resultsPerPage: nat)
    requires resultsPerPage > 0
    ensures Pages(results, resultsPerPage, NumPages(|results|, resultsPerPage)) == results
  {
    PagesPrefix(results, resultsPerPage, NumPages(|results|, resultsPerPage));
  }

  // ---------------------------------------------------------------------------
  // Markup and clicks

  /** `${page}` in a template, for an integer page. */
  function PageText(page: int): string {
    if page >= 0 then NatToDecimal(page) else "-" + NatToDecimal(-page)
  }

  /** The elements of one button, in document order. */
  function ButtonNodes(b: PageButton): (nodes: seq<Node>)
    ensures |nodes| == 4 && nodes[0].tag == "button"
    ensures nodes[0].attributes
            == map["data-goto" := PageText(b.goto),
                   "class" := if b.direction == Prev then "btn--inline pagination__btn--prev"
                              else "btn--inline pagination__btn--next"]
    ensures var svg, span := (if b.direction == Prev then 1 else 2), (if b.direction == Prev then 3 else 1);
            && nodes[svg].tag == "svg" && nodes[svg].attributes == map["class" := "search__icon"]
            && nodes[svg + 1].attributes
               == map["href" := Icons + "#" + if b.direction == Prev then "icon-arrow-left" else "icon-arrow-right"]
            && nodes[span].tag == "span" && nodes[span].text == "Page " + PageText(b.goto)
  {
    var caption := Node("span", map[], "Page " + PageText(b.goto), CharacterData("Page " + PageText(b.goto)));
    var arrow := IconNodes(if b.direction == Prev then "icon-arrow-left" else "icon-arrow-right", map["class" := "search__icon"]);
    var cls := if b.direction == Prev then "btn--inline pagination__btn--prev" else "btn--inline pagination__btn--next";
    var attrs := map["data-goto" := PageText(b.goto), "class" := cls];
    if b.direction == Prev then
      [Node("button", attrs, Gap + arrow[0].text + Gap + caption.text + Gap, CharacterData(Gap))] + arrow + [caption]
    else
      [Node("button", attrs, Gap + caption.text + Gap + arrow[0].text + Gap, CharacterData(Gap)), caption] + arrow
  }

  /** `_generateMarkup()`: the buttons' elements in order, nothing for no buttons. */
  function Markup(bs: seq<PageButton>): (nodes: seq<Node>)
    ensures |nodes| == 4 * |bs|
  {
    if bs == [] then [] else ButtonNodes(bs[0]) + Markup(bs[1..])
  }

  /** The i-th button's elements sit at positions 4i to 4i+3 of the markup. */
  lemma {:induction false} MarkupButton(bs: seq<PageButton>, i: nat)
    requires i < |bs|
    ensures Markup(bs)[4 * i..4 * i + 4] == ButtonNodes(bs[i])
  {
    if i > 0 {
      MarkupButton(bs[1..], i - 1);
      var head, tail := ButtonNodes(bs[0]), Markup(bs[1..]);
      assert Markup(bs) == head + tail;
      assert (head + tail)[4 * i..4 * i + 4] == tail[4 * (i - 1)..4 * (i - 1) + 4];
    }
  }

  /**
   * `+btn.dataset.goto` in `addHandlerClick`: the number read back from a
   * button's `data-goto` attribute is the page the button was made for.
   */
  lemma ClickRequestsTarget(b: PageButton)
    requires b.goto >= 0
    ensures ToNumber(ButtonNodes(b)[0].attributes["data-goto"]) == Finite(b.goto as real)
  {
    NatToDecimalToNumber(b.goto);
  }

  /** Every button shown for the search requests a page that holds results. */
  lemma ClickShowsResults(search: Search, i: nat)
    requires search.resultsPerPage > 0 && i < |SearchButtons(search)|
    ensures var b := SearchButtons(search)[i];
            && var button := Markup(SearchButtons(search))[4 * i];
            && button.tag == "button" && "data-goto" in button.attributes
            && ToNumber(button.attributes["data-goto"]) == Finite(b.goto as real)
            && PageSlice(search.results, search.resultsPerPage, b.goto) != []
  {
    var bs := SearchButtons(search);
    assert Markup(bs)[4 * i] == ButtonNodes(bs[i])[0] by {
      MarkupButton(bs, i);
      assert Markup(bs)[4 * i] == Markup(bs)[4 * i..4 * i + 4][0];
    }
    ClickRequestsTarget(bs[i]);
    TargetPagesNonEmpty(search);
    assert bs[i] in bs;
  }
}
