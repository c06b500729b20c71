/**
 * The application state of model.js and the operations that change it:
 * loading a recipe, loading search results, paging, rescaling servings,
 * adding and deleting bookmarks, and uploading a recipe. The fetch calls
 * are parameters holding what the request delivered; `localStorage`'s
 * 'bookmarks' entry is the field `stored`.
 */
module Model {
  import opened Wrappers
  import opened JsArray
  import opened Recipes

  /** `state.search`. */
  datatype Search = Search(query: string, results: seq<SearchResult>, resultsPerPage: nat, page: int)

  // ---------------------------------------------------------------------------
  // Paging

  /** What `getSearchResultsPage(page)` returns: `results.slice((page-1)*rpp, page*rpp)`. */
  function PageSlice(results: seq<SearchResult>, resultsPerPage: nat, page: int): (r: seq<SearchResult>)
    ensures |r| <= resultsPerPage
    ensures forall i :: 0 <= i < |r| ==> r[i] in results
  {
    var start, end := (page - 1) * resultsPerPage, page * resultsPerPage;
    assert end == start + resultsPerPage;
    RelativeIndexGap(start, end, |results|);
    Slice(results, start, end)
  }

  function Min(a: int, b: int): int { if a <= b then a else b }

  /** The results from index (page-1)*rpp up to page*rpp, clipped to the list. */
  function PageRange(results: seq<SearchResult>, resultsPerPage: nat, page: int): seq<SearchResult>
    requires page >= 1
  {
    var start, end := (page - 1) * resultsPerPage, page * resultsPerPage;
    MulNonNegative(page - 1, resultsPerPage);
    results[Min(start, |results|)..Min(end, |results|)]
  }

  /**
   * For a page from 1 on, the page is the half-open range
   * [(page-1)*rpp, page*rpp) of the results clipped to their length: it is
   * empty exactly when it starts at or past the end, and never fails.
   */
  lemma PageSliceRange(results: seq<SearchResult>, resultsPerPage: nat, page: int)
    requires page >= 1 && resultsPerPage > 0
    ensures var start, end := (page - 1) * resultsPerPage, page * resultsPerPage;
            && 0 <= start < end
            && PageSlice(results, resultsPerPage, page) == PageRange(results, resultsPerPage, page)
            && (PageSlice(results, resultsPerPage, page) == [] <==> start >= |results|)
  {
    var start, end := (page - 1) * resultsPerPage, page * resultsPerPage;
    assert 0 <= start by { MulNonNegative(page - 1, resultsPerPage); }
    assert end == start + resultsPerPage;
    var a, b := RelativeIndex(start, |results|), RelativeIndex(end, |results|);
    assert a == Min(start, |results|) && b == Min(end, |results|);
    var s := PageSlice(results, resultsPerPage, page);
    if a < b {
      assert s == results[a..b];
    } else {
      assert s == [] == results[a..b];
    }
  }

  lemma MulNonNegative(a: int, b: int)
    requires a >= 0 && b >= 0
    ensures a * b >= 0
  {
  }

  /**
   * A page number below 1 is not rejected: JavaScript's `slice` counts the
   * negative bounds from the end, so page -1 of 23 results at 10 per page
   * is results 3 to 12.
   */
  lemma PageBeforeFirstCountsFromEnd(results: seq<SearchResult>)
    requires |results| == 23
    ensures PageSlice(results, 10, -1) == results[3..13]
    ensures PageSlice(results, 10, 0) == []
  {
  }

  /** 23 results at 10 per page: page 1 holds items 0-9, page 3 items 20-22, page 4 nothing. */
  lemma TwentyThreeResults(results: seq<SearchResult>)
    requires |results| == 23
    ensures PageSlice(results, 10, 1) == results[0..10]
    ensures PageSlice(results, 10, 3) == results[20..23]
    ensures PageSlice(results, 10, 4) == []
  {
    PageSliceRange(results, 10, 1);
    PageSliceRange(results, 10, 3);
    PageSliceRange(results, 10, 4);
  }

  // ---------------------------------------------------------------------------
  // Bookmarks

  /** `bookmarks.some(b => b.id === id)`. */
  predicate HasId(bookmarks: seq<Recipe>, id: string)
    ensures HasId(bookmarks, id) <==> BookmarkIndex(bookmarks, id) >= 0
  {
    exists i :: 0 <= i < |bookmarks| && bookmarks[i].id == id
  }

  /** No two bookmarks share an id (the source does not enforce this). */
  ghost predicate UniqueIds(bookmarks: seq<Recipe>) {
    forall i, j :: 0 <= i < j < |bookmarks| ==> bookmarks[i].id != bookmarks[j].id
  }

  /** The current recipe's `bookmarked` flag says whether its id is bookmarked. */
  ghost predicate FlagConsistent(recipe: Option<Recipe>, bookmarks: seq<Recipe>) {
    recipe.Some? ==> (recipe.value.bookmarked <==> HasId(bookmarks, recipe.value.id))
  }

  /**
   * `if (id === state.recipe.id) state.recipe.bookmarked = flag`; with no
   * recipe loaded (`{}`) the id is `undefined` and never matches.
   */
  function MarkBookmarked(recipe: Option<Recipe>, id: string, flag: bool): (r: Option<Recipe>)
    ensures r.Some? == recipe.Some?
    ensures recipe.Some? ==> r.value.(bookmarked := recipe.value.bookmarked) == recipe.value
    ensures recipe.Some? ==> r.value.bookmarked == if recipe.value.id == id then flag else recipe.value.bookmarked
  {
    if recipe.Some? && recipe.value.id == id then Some(recipe.value.(bookmarked := flag)) else recipe
  }

  /** `bookmarks.findIndex(el => el.id === id)`. */
  function BookmarkIndex(bookmarks: seq<Recipe>, id: string): (k: int)
    ensures -1 <= k < |bookmarks|
    ensures 0 <= k ==> bookmarks[k].id == id && forall j :: 0 <= j < k ==> bookmarks[j].id != id
    ensures k == -1 <==> forall j :: 0 <= j < |bookmarks| ==> bookmarks[j].id != id
  {
    FindIndex(bookmarks, (b: Recipe) => b.id == id)
  }

  /**
   * The bookmarks after `splice(findIndex(...), 1)`: the first entry with the
   * id is removed; with no such entry `findIndex` gives -1 and the LAST
   * entry is removed (nothing, when there are no bookmarks).
   */
  function RemoveBookmark(bookmarks: seq<Recipe>, id: string): (r: seq<Recipe>)
    ensures HasId(bookmarks, id) ==>
              var k := BookmarkIndex(bookmarks, id);
              && 0 <= k < |bookmarks| && bookmarks[k].id == id
              && (forall j :: 0 <= j < k ==> bookmarks[j].id != id)
              && r == bookmarks[..k] + bookmarks[k + 1..]
    ensures !HasId(bookmarks, id) ==>
              r == if bookmarks == [] then [] else bookmarks[..|bookmarks| - 1]
  {
    SpliceOne(bookmarks, BookmarkIndex(bookmarks, id))
  }

  /** Deleting the id of a bookmark just added restores the list, when the id was new. */
  lemma AddThenDeleteRestores(bookmarks: seq<Recipe>, r: Recipe)
    requires !HasId(bookmarks, r.id)
    ensures RemoveBookmark(bookmarks + [r], r.id) == bookmarks
  {
    var added := bookmarks + [r];
    assert added[|bookmarks|].id == r.id;
    var k := BookmarkIndex(added, r.id);
    assert k == |bookmarks|;
    assert added[..k] == bookmarks;
  }

  /** When the id was already bookmarked, the add-then-delete removes the older entry instead. */
  lemma AddThenDeleteDuplicate(bookmarks: seq<Recipe>, r: Recipe)
    requires HasId(bookmarks, r.id)
    ensures RemoveBookmark(bookmarks + [r], r.id) == RemoveBookmark(bookmarks, r.id) + [r]
  {
    var added := bookmarks + [r];
    var k := BookmarkIndex(bookmarks, r.id);
    assert HasId(added, r.id) by { assert added[k] == bookmarks[k]; }
    var k' := BookmarkIndex(added, r.id);
    assert k' == k by {
      assert added[k].id == r.id;
    }
    assert added[..k] == bookmarks[..k];
    assert added[k + 1..] == bookmarks[k + 1..] + [r];
  }

  /** Adding a new bookmark keeps the ids unique and the current recipe's flag right. */
  lemma AddKeepsFlagConsistent(recipe: Option<Recipe>, bookmarks: seq<Recipe>, r: Recipe)
    requires UniqueIds(bookmarks) && FlagConsistent(recipe, bookmarks)
    requires !HasId(bookmarks, r.id)
    ensures UniqueIds(bookmarks + [r])
    ensures FlagConsistent(MarkBookmarked(recipe, r.id, true), bookmarks + [r])
  {
    var added := bookmarks + [r];
    if recipe.Some? {
      var id := recipe.value.id;
      if id == r.id {
        assert added[|bookmarks|].id == id;
      } else {
        if HasId(bookmarks, id) {
          var i :| 0 <= i < |bookmarks| && bookmarks[i].id == id;
          assert added[i] == bookmarks[i];
        }
        if HasId(added, id) {
          var i :| 0 <= i < |added| && added[i].id == id;
          assert i < |bookmarks| && added[i] == bookmarks[i];
        }
      }
    }
  }

  /** Deleting a bookmarked id keeps the ids unique and the current recipe's flag right. */
  lemma DeleteKeepsFlagConsistent(recipe: Option<Recipe>, bookmarks: seq<Recipe>, id: string)
    requires UniqueIds(bookmarks) && FlagConsistent(recipe, bookmarks)
    requires HasId(bookmarks, id)
    ensures UniqueIds(RemoveBookmark(bookmarks, id))
    ensures !HasId(RemoveBookmark(bookmarks, id), id)
    ensures FlagConsistent(MarkBookmarked(recipe, id, false), RemoveBookmark(bookmarks, id))
  {
    var k := BookmarkIndex(bookmarks, id);
    var rest := RemoveBookmark(bookmarks, id);
    assert forall i :: 0 <= i < |rest| ==> rest[i] == if i < k then bookmarks[i] else bookmarks[i + 1];
    if recipe.Some? && recipe.value.id != id {
      var rid := recipe.value.id;
      if HasId(bookmarks, rid) {
        var i :| 0 <= i < |bookmarks| && bookmarks[i].id == rid;
        assert i != k;
        if i < k { assert rest[i] == bookmarks[i]; } else { assert rest[i - 1] == bookmarks[i]; }
      }
    }
  }

  /**
   * Deleting an id that is not bookmarked removes the last bookmark; when that
   * was the current recipe, its flag still says bookmarked.
   */
  lemma DeleteAbsentIdDropsLast(r: Recipe, id: string)
    requires r.id != id && r.bookmarked
    ensures FlagConsistent(Some(r), [r])
    ensures RemoveBookmark([r], id) == []
    ensures !FlagConsistent(MarkBookmarked(Some(r), id, false), RemoveBookmark([r], id))
  {
    assert HasId([r], r.id) by { assert [r][0].id == r.id; }
  }

  /** A freshly loaded recipe whose id is the one requested has a consistent flag. */
  lemma LoadedFlagConsistent(api: ApiRecipe, bookmarks: seq<Recipe>)
    ensures FlagConsistent(Some(CreateRecipeObject(api).(bookmarked := HasId(bookmarks, api.id))), bookmarks)
  {
  }

  // ---------------------------------------------------------------------------
  // The store

  /** Why `uploadRecipe` threw. */
  datatype UploadError = InvalidIngredient(message: string) | RequestFailed(error: FetchError)

  /** The module-level `state` object of model.js, with the storage entry it writes. */
  class Store {
    /** `state.recipe`; `None` is the initial `{}`. */
    var recipe: Option<Recipe>
    /** `state.search`. */
    var search: Search
    /** `state.bookmarks`, in insertion order. */
    var bookmarks: seq<Recipe>
    /** The parsed value of `localStorage`'s 'bookmarks' entry, `None` when it is empty. */
    var stored: Option<seq<Recipe>>

    ghost predicate Valid()
      reads this
    {
      search.resultsPerPage > 0
    }

    /** The initial state followed by `init()`: bookmarks come from storage when it holds any. */
    constructor (resultsPerPage: nat, storage: Option<seq<Recipe>>)
      requires resultsPerPage > 0
      ensures Valid()
      ensures recipe == None && search == Search("", [], resultsPerPage, 1)
      ensures bookmarks == (if storage.Some? then storage.value else []) && stored == storage
    {
      recipe := None;
      search := Search("", [], resultsPerPage, 1);
      bookmarks := [];
      stored := storage;
      if storage.Some? {
        bookmarks := storage.value;
      }
    }

    /**
     * `loadRecipe(id)`: on success the current recipe is the mapped record,
     * marked bookmarked exactly when some bookmark has the requested id; on
     * failure the error is rethrown and the recipe stays as it was.
     */
    method LoadRecipe(id: string, response: Fetched<ApiRecipe>) returns (error: Option<FetchError>)
      requires Valid()
      modifies this`recipe
      ensures Valid()
      ensures response.Failed? ==> error == Some(response.error) && recipe == old(recipe)
      ensures response.Received? ==>
                && error == None && recipe.Some?
                && recipe.value == CreateRecipeObject(response.payload).(bookmarked := recipe.value.bookmarked)
                && (recipe.value.bookmarked <==> HasId(bookmarks, id))
    {
      match response
      case Failed(e) =>
        error := Some(e);
      case Received(data) =>
        var loaded := CreateRecipeObject(data);
        if HasId(bookmarks, id) {
          recipe := Some(loaded.(bookmarked := true));
        } else {
          recipe := Some(loaded.(bookmarked := false));
        }
        error := None;
    }

    /**
     * `loadSearchResults(query)`: page and query are set before the request,
     * so they change even when it fails; the results are replaced only on
     * success, by the projection of the received records.
     */
    method LoadSearchResults(query: string, response: Fetched<seq<ApiSearchRecord>>) returns (error: Option<FetchError>)
      requires Valid()
      modifies this`search
      ensures Valid()
      ensures search.page == 1 && search.query == query
      ensures search.resultsPerPage == old(search.resultsPerPage)
      ensures response.Failed? ==> error == Some(response.error) && search.results == old(search.results)
      ensures response.Received? ==> error == None && search.results == SearchResults(response.payload)
    {
      search := search.(page := 1);
      search := search.(query := query);
      match response
      case Failed(e) =>
        error := Some(e);
      case Received(recs) =>
        search := search.(results := SearchResults(recs));
        error := None;
    }

    /**
     * `getSearchResultsPage(page = state.search.page)`: records the page and
     * returns its slice of the results; nothing else changes.
     */
    method GetSearchResultsPage(page: Option<int>) returns (results: seq<SearchResult>)
      requires Valid()
      modifies this`search
      ensures Valid()
      ensures var p := if page.Some? then page.value else old(search.page);
              && search == old(search).(page := p)
              && results == PageSlice(search.results, search.resultsPerPage, p)
      ensures search.page >= 1 ==> results == PageRange(search.results, search.resultsPerPage, search.page)
    {
      var p := if page.Some? then page.value else search.page;
      search := search.(page := p);
      results := PageSlice(search.results, search.resultsPerPage, p);
      if p >= 1 {
        PageSliceRange(search.results, search.resultsPerPage, p);
      }
    }

    /**
     * `updateServings(newServings)`: every ingredient quantity is multiplied
     * by `newServings / servings` in turn, then the servings are replaced.
     */
    method UpdateServings(newServings: int)
      requires recipe.Some? && recipe.value.servings > 0
      requires Valid()
      modifies this`recipe
      ensures Valid()
      ensures recipe == Some(Rescale(old(recipe.value), newServings))
    {
      var r := recipe.value;
      var ratio := Ratio(newServings, r.servings);
      var ingredients := r.ingredients;
      var i := 0;
      while i < |ingredients|
        invariant 0 <= i <= |ingredients| == |r.ingredients|
        invariant forall j :: 0 <= j < i ==> ingredients[j] == ScaleIngredient(r.ingredients[j], ratio)
        invariant forall j :: i <= j < |ingredients| ==> ingredients[j] == r.ingredients[j]
      {
        ingredients := ingredients[i := ingredients[i].(quantity := Some(Scaled(ingredients[i].quantity, ratio)))];
        i := i + 1;
      }
      assert ingredients == ScaleAll(r.ingredients, ratio);
      recipe := Some(r.(ingredients := ingredients, servings := newServings));
    }

    /** `persistBookmarks()`: the whole list is written to storage. */
    method PersistBookmarks()
      requires Valid()
      modifies this`stored
      ensures Valid()
      ensures stored == Some(bookmarks)
    {
      stored := Some(bookmarks);
    }

    /**
     * `addBookmark(r)`: appends without checking for duplicates, marks the
     * current recipe when it has the same id, and persists.
     */
    method AddBookmark(r: Recipe)
      requires Valid()
      modifies this`bookmarks, this`recipe, this`stored
      ensures Valid()
      ensures bookmarks == old(bookmarks) + [r]
      ensures recipe == MarkBookmarked(old(recipe), r.id, true)
      ensures stored == Some(bookmarks)
    {
      bookmarks := bookmarks + [r];
      if recipe.Some? && r.id == recipe.value.id {
        recipe := Some(recipe.value.(bookmarked := true));
      }
      PersistBookmarks();
    }

    /**
     * `deleteBookmark(id)`: `splice(findIndex(...), 1)`, unmarks the current
     * recipe when it has that id, and persists.
     */
    method DeleteBookmark(id: string)
      requires Valid()
      modifies this`bookmarks, this`recipe, this`stored
      ensures Valid()
      ensures bookmarks == RemoveBookmark(old(bookmarks), id)
      ensures recipe == MarkBookmarked(old(recipe), id, false)
      ensures stored == Some(bookmarks)
    {
      var index := BookmarkIndex(bookmarks, id);
      bookmarks := SpliceOne(bookmarks, index);
      if recipe.Some? && id == recipe.value.id {
        recipe := Some(recipe.value.(bookmarked := false));
      }
      PersistBookmarks();
    }

    /**
     * `uploadRecipe(form)`: a malformed ingredient throws before anything is
     * sent; otherwise the payload is sent and, on success, the returned
     * recipe becomes current and is bookmarked.
     */
    method UploadRecipe(form: seq<Entry>, response: Fetched<ApiRecipe>)
      returns (sent: Option<Payload>, error: Option<UploadError>)
      requires Valid()
      modifies this`recipe, this`bookmarks, this`stored
      ensures Valid()
      ensures BuildPayload(form).Err? ==>
                && sent == None && error == Some(InvalidIngredient(FormatError))
                && recipe == old(recipe) && bookmarks == old(bookmarks) && stored == old(stored)
      ensures BuildPayload(form).Ok? ==> sent == Some(BuildPayload(form).value)
      ensures BuildPayload(form).Ok? && response.Failed? ==>
                && error == Some(RequestFailed(response.error))
                && recipe == old(recipe) && bookmarks == old(bookmarks) && stored == old(stored)
      ensures BuildPayload(form).Ok? && response.Received? ==>
                var uploaded := CreateRecipeObject(response.payload);
                && error == None
                && recipe == Some(uploaded.(bookmarked := true))
                && bookmarks == old(bookmarks) + [uploaded]
                && stored == Some(bookmarks)
    {
      var payload := BuildPayload(form);
      if payload.Err? {
        sent, error := None, Some(InvalidIngredient(payload.error));
        return;
      }
      sent := Some(payload.value);
      match response
      case Failed(e) =>
        error := Some(RequestFailed(e));
      case Received(data) =>
        recipe := Some(CreateRecipeObject(data));
        AddBookmark(recipe.value);
        error := None;
    }
  }
}
