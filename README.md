# forkify core in Dafny

A model of the core of the forkify recipe application: the state store of
`src/js/model.js` (current recipe, search state with paging, bookmarks and
their persisted copy, recipe upload), the base view of `src/js/views/View.js`
(render, clear, spinner/error/message blocks, and the in-place `update`
reconciliation), and the button logic of `src/js/views/paginationView.js`.

Layout:

- `wrappers.dfy` — `Option` and `Result`.
- `js_array.dfy` — the ECMAScript array built-ins the store relies on:
  `slice` and `splice(k, 1)` with their relative-index rule (a negative index
  counts from the end), and `findIndex` returning -1.
- `js_string.dfy` — `trim` (ECMAScript white space and line terminators),
  `split` on one character, and unary `+` on the decimal literals the forms
  produce.
- `recipes.dfy` — the records (API recipe, stored recipe, search result,
  ingredient) and the pure mappings: `createRecipeObject`, the search-result
  projection, the servings rescale, and the upload form's ingredient parsing.
- `model.dfy` — class `Store`, the `state` object with its operations as
  methods; the paging and bookmark functions and the lemmas about them.
- `view.dfy` — the DOM as the flat list of elements that
  `querySelectorAll('*')` returns, the `update` loop as a method patching an
  `array` of element records in place, and class `View`.
- `pagination.dfy` — page count, the four-way button choice, the button
  markup, and the page a click asks for.

Requests (`getJSON`, `sendJSON`) are not performed: each asynchronous
operation takes what the request delivered, a `Fetched` value that is either
the payload or the error it threw. `localStorage`'s `bookmarks` entry is the
field `Store.stored`.

Behaviour worth knowing, as the code has it:

- `deleteBookmark` with an id that is not bookmarked removes the LAST bookmark:
  `findIndex` gives -1 and `splice(-1, 1)` counts from the end.
- `addBookmark` does not check for duplicates; deleting then removes the
  oldest entry with the id.
- `updateServings` turns a `null` quantity into 0 (`null * x` is 0), so
  rescaling there and back restores every quantity except those.
- `getSearchResultsPage` accepts any page: page 0 or below gives an empty page
  or, through `slice`'s negative indices, results from the end of the list.
- In `update`, a candidate element whose first child is an element makes
  `firstChild?.nodeValue.trim()` throw unless the two elements are already
  equal; a live list shorter than the new markup throws at the first missing
  element whose text or attributes would be written.
- The pagination view never shows a button for a page beyond the last or
  before the first, and shows nothing when the current page is out of range.

The model follows the code: bookmarks are not kept unique, an absent
quantity becomes 0 after a rescale rather than staying absent, and deleting
an absent id removes the last bookmark rather than nothing.

## Model

| member | source | states |
|---|---|---|
| JsArray.RelativeIndex | src/js/model.js:98-100 | a `slice`/`splice` index is clipped into [0, len]: an index in range is kept, a negative one counts from the end (0 when it reaches before the start), and one past the end becomes len |
| JsArray.Slice | src/js/model.js:100 | `slice(start, end)` is the run of elements from the normalised start, as long as the normalised range, never longer than the list |
| JsArray.SpliceOne | src/js/model.js:146 | `splice(k, 1)` removes exactly the element at the normalised index and shifts the rest down; at the end it removes nothing |
| JsArray.FindIndex | src/js/model.js:145 | `findIndex` gives the first index whose element satisfies the predicate, and -1 exactly when none does |
| JsString.SkipSpace | src/js/model.js:184 | the first position from i on that is not white space, with only white space skipped |
| JsString.SkipSpaceBack | src/js/model.js:184 | the end of a range once its trailing white space is dropped, with only white space dropped |
| JsString.Trim | src/js/model.js:184 | `trim` gives the middle of the string between white-space-only ends, starting and ending with a non-space character, and is empty exactly for an all-white-space string |
| JsString.TrimOfTrimmed | src/js/model.js:184 | a string with no white space at either end is its own trim |
| JsString.TrimIdempotent | src/js/model.js:184 | trimming twice is trimming once |
| JsString.Split | src/js/model.js:184 | `split(',')` gives at least one part, no part holds the separator, and joining the parts gives the string back |
| JsString.SplitJoin | src/js/model.js:184 | splitting the join of separator-free parts gives the parts back |
| JsString.SplitNoSeparator | src/js/model.js:184 | a string without the separator splits into itself alone |
| JsString.SplitPrefix | src/js/model.js:184 | a separator-free prefix followed by the separator becomes the first part |
| JsString.NatToDecimal | src/js/views/paginationView.js:34 | a page number interpolated into markup is a non-empty string of decimal digits |
| JsString.DecimalDigitsValue | src/js/views/paginationView.js:16 | the digits written for a number read back as that number |
| JsString.NatToDecimalToNumber | src/js/views/paginationView.js:16 | unary `+` on a written whole number gives the number back |
| JsString.ToNumber | src/js/model.js:191 | unary `+` reads blank strings as 0, ignores surrounding white space, gives a finite number only for a literal of digits, point and sign, reads an unsigned literal as its decimal value, a `+` literal as the value after the sign and a `-` literal as its negation (NaN when the rest is not a number) |
| JsString.UnsignedDecimalChars | src/js/model.js:191 | an unsigned literal that reads as a number consists of digits and the decimal point only |
| JsString.ToNumberIgnoresSpace | src/js/model.js:191 | white space around a literal does not change the number it denotes |
| JsString.WholeNumberLiteral | src/js/model.js:191 | unary `+` on a string of digits is their decimal value |
| Recipes.TruthyKey | src/js/model.js:36 | the key is kept exactly when it is present and non-empty, and then unchanged |
| Recipes.CreateRecipeObject | src/js/model.js:25-38 | each API field lands in its renamed record field, the key only when truthy, and the record is not yet bookmarked |
| Recipes.SearchResults | src/js/model.js:74-82 | one result per record in the same order, carrying id, title, publisher, image and a truthy key |
| Recipes.SearchResultsAppend | src/js/model.js:74-82 | the projection maps each record on its own, so it distributes over concatenation |
| Recipes.ScaleAll | src/js/model.js:109-112 | every ingredient's quantity becomes its numeric value (`null` as 0) times the ratio; unit and description are kept |
| Recipes.Rescale | src/js/model.js:108-114 | servings become the new number, every quantity is scaled by new/old servings, and nothing else in the recipe changes |
| Recipes.RescaleRoundTrip | src/js/model.js:108-114 | rescaling to n servings and back restores the recipe, except that `null` quantities have become 0 |
| Recipes.IngredientValues | src/js/model.js:181-182 | the value of every non-empty `ingredient…` entry is kept, and every kept value is the value of such an entry |
| Recipes.IngredientValuesOne | src/js/model.js:181-182 | one entry is kept, as its value, exactly when its name starts with `ingredient` and its value is non-empty |
| Recipes.OtherEntriesIgnored | src/js/model.js:181-182 | an entry that is not a filled-in ingredient field, wherever it stands, contributes nothing to the parsed list |
| Recipes.IngredientValuesAppend | src/js/model.js:181-182 | the filter keeps entry order: it distributes over concatenation |
| Recipes.Fields | src/js/model.js:184 | one trimmed field per comma-separated part of the value |
| Recipes.ParseIngredient | src/js/model.js:184-193 | a value parses exactly when it has three fields, otherwise the format error; an empty quantity is `null`, any other is `+quantity` |
| Recipes.ParseIngredientLine | src/js/model.js:184-193 | `quantity,unit,description` with a whole quantity and trimmed comma-free parts parses back to those parts |
| Recipes.FirstFailure | src/js/model.js:183-194 | the position of the first element whose callback throws: every earlier one succeeds |
| Recipes.MapOrThrow | src/js/model.js:183-194 | a `map` whose callback may throw succeeds exactly when every element succeeds, with one result per element in order; otherwise it throws the error of the first element that fails |
| Recipes.ParseIngredients | src/js/model.js:183-194 | the ingredient list is built exactly when every kept value has three fields, otherwise the format error is thrown |
| Recipes.Field | src/js/model.js:196-201 | `newRecipe[name]` is defined exactly when an entry has the name, and then is that entry's value |
| Recipes.FieldNumber | src/js/model.js:200-201 | `+newRecipe[name]` is NaN for a missing field and the unary `+` reading of its value otherwise |
| Recipes.BuildPayload | src/js/model.js:181-203 | the upload body is built exactly when every kept ingredient value has three fields, otherwise the format error; it carries the parsed ingredients, the title, `sourceUrl`, `image` as the image url, the publisher, and `+cookingTime` and `+servings` |
| Model.PageSlice | src/js/model.js:95-101 | a page never holds more than results-per-page entries, and each is one of the results |
| Model.PageSliceRange | src/js/model.js:95-101 | page p from 1 on is the results in [(p-1)·rpp, p·rpp) clipped to the list, empty exactly when it starts past the end |
| Model.PageBeforeFirstCountsFromEnd | src/js/model.js:98-100 | page -1 of 23 results at 10 per page is results 3 to 12, page 0 is empty |
| Model.TwentyThreeResults | src/js/model.js:95-101 | 23 results at 10 per page: page 1 is items 0-9, page 3 items 20-22, page 4 is empty |
| Model.HasId | src/js/model.js:51 | `some` on the ids holds exactly when `findIndex` on them finds a position |
| Model.BookmarkIndex | src/js/model.js:145 | `findIndex` on the ids gives the first bookmark with the id, and -1 exactly when none has it |
| Model.MarkBookmarked | src/js/model.js:134 | only a current recipe with the given id has its flag set; every other field and every other recipe is unchanged |
| Model.RemoveBookmark | src/js/model.js:145-146 | a present id loses its first entry and nothing else; an absent id loses the last entry, or nothing when there is none |
| Model.AddThenDeleteRestores | src/js/model.js:129-151 | adding a bookmark with a new id and deleting that id restores the list |
| Model.AddThenDeleteDuplicate | src/js/model.js:129-151 | with the id already bookmarked, add-then-delete removes the older entry and keeps the new one at the end |
| Model.AddKeepsFlagConsistent | src/js/model.js:129-136 | adding a new id keeps ids unique and the current recipe's flag equal to whether its id is bookmarked |
| Model.DeleteKeepsFlagConsistent | src/js/model.js:143-151 | deleting a bookmarked id keeps ids unique, removes the id entirely and keeps the flag right |
| Model.DeleteAbsentIdDropsLast | src/js/model.js:143-151 | deleting an id that is not bookmarked drops the only bookmark, leaving the current recipe flagged as bookmarked without a bookmark |
| Model.LoadedFlagConsistent | src/js/model.js:49-54 | a loaded recipe's flag says whether its id is bookmarked |
| Model.Store.constructor | src/js/model.js:157-162 | the initial state, with the bookmarks taken from storage when it holds an entry |
| Model.Store.LoadRecipe | src/js/model.js:45-60 | on success the recipe is the mapped record, bookmarked exactly when a bookmark has the requested id; on failure the error is rethrown and the recipe is unchanged |
| Model.Store.LoadSearchResults | src/js/model.js:67-87 | page 1 and the query are set even when the request fails; the results become the projection on success and are kept on failure |
| Model.Store.GetSearchResultsPage | src/js/model.js:95-101 | the page (default: the current one) is recorded, nothing else in the search changes, and its slice is returned, which for a page from 1 on is the results from (page-1)·rpp to page·rpp clipped to the list |
| Model.Store.UpdateServings | src/js/model.js:108-114 | the loop leaves the recipe equal to its rescale to the new servings |
| Model.Store.PersistBookmarks | src/js/model.js:119-121 | storage holds the current bookmark list |
| Model.Store.AddBookmark | src/js/model.js:129-136 | the recipe is appended, the current recipe is flagged when it has the id, and the new list is persisted |
| Model.Store.DeleteBookmark | src/js/model.js:143-151 | the list becomes its removal of the id, the current recipe is unflagged when it has the id, and the new list is persisted |
| Model.Store.UploadRecipe | src/js/model.js:178-213 | a malformed ingredient throws the format error before anything is sent and changes nothing; a failed request changes nothing; on success the returned recipe is current, flagged, appended to the bookmarks and persisted |
| View.TextGuard | src/js/views/View.js:51 | the text guard throws exactly for an element first child, holds with no first child, and fails exactly for a white-space-only text |
| View.WithText | src/js/views/View.js:53 | setting `textContent` keeps tag and attributes, sets the text, and leaves one text child, or none for the empty string |
| View.Throws | src/js/views/View.js:45-61 | with a live element, a pass throws exactly when the nodes differ and the candidate's first child is an element; without one, exactly when the guard throws or holds, or the candidate has attributes to set |
| View.Patched | src/js/views/View.js:50-60 | equal nodes are left alone; otherwise the text is copied when the guard holds and kept when it fails, every candidate attribute is set, live-only attributes are kept, and the tag never changes |
| View.FirstThrow | src/js/views/View.js:45-61 | the index where the loop throws: no earlier pair throws, and the pair there does |
| View.UpdateOutcome | src/js/views/View.js:45-61 | the loop completes exactly when no pass throws; otherwise it throws at a candidate index whose pass throws and before which none does |
| View.Reconciled | src/js/views/View.js:45-61 | the live list keeps its length and tags, each element before the throwing index is patched against its candidate, and elements from the throwing index on are untouched |
| View.Reconcile | src/js/views/View.js:45-61 | the in-place loop ends as the outcome function says and leaves the elements as the reconciliation function says |
| View.UpdatePatchesPairs | src/js/views/View.js:50-60 | after `update`, a live element that differed from its candidate before the throw carries every candidate attribute, takes the candidate's text unless that text is blank, and keeps its own text when it is |
| View.UpdateWithSameMarkup | src/js/views/View.js:34-62 | updating elements with the markup they already show completes and changes nothing |
| View.PatchedTwice | src/js/views/View.js:50-60 | patching a node twice with the same candidate equals patching it once |
| View.PatchedDoesNotThrow | src/js/views/View.js:50-52 | a pair that did not throw does not throw once patched |
| View.UpdateTwice | src/js/views/View.js:34-62 | a second `update` with the same markup changes nothing more and ends the same way |
| View.IconNodes | src/js/views/View.js:79-81 | an icon is an `svg` with the given attributes holding a `use` that points at the icon in the sprite sheet |
| View.SpinnerBlock | src/js/views/View.js:77-83 | the spinner is a `div` of class `spinner` holding an `svg` whose `use` points at `icon-loader` |
| View.MessageBox | src/js/views/View.js:94-103 | the box has the given class and ends with a paragraph whose text is the message |
| View.View.constructor | src/js/views/View.js:3-4 | a view starts without data, over a fresh container holding the parent element's current elements |
| View.View.Clear | src/js/views/View.js:68-70 | the container becomes empty |
| View.View.InsertAfterBegin | src/js/views/View.js:24 | the markup is placed before the current elements |
| View.View.Render | src/js/views/View.js:14-25 | blank data (`Blank`: falsy, or an empty array, the guard at line 15) shows the default error and keeps the data; otherwise the data is stored and the markup is returned or replaces the elements |
| View.View.Update | src/js/views/View.js:34-62 | the data is stored and the same container's elements are reconciled against the new markup |
| View.View.RenderSpinner | src/js/views/View.js:76-86 | the container holds exactly the spinner |
| View.View.RenderError | src/js/views/View.js:93-106 | the container holds exactly the error box with the given or default message |
| View.View.RenderMessage | src/js/views/View.js:113-126 | the container holds exactly the message box with the given or default message |
| Pagination.NumPages | src/js/views/paginationView.js:28-30 | the least page count whose pages hold every result; zero exactly when there are no results |
| Pagination.PageThresholds | src/js/views/paginationView.js:28-30 | a page from 1 on has a later page exactly when page·rpp lies inside the results, and a page after the first is itself in range exactly when its first position (page-1)·rpp lies inside the results |
| Pagination.Buttons | src/js/views/paginationView.js:26-76 | a previous button exactly when 1 < page ≤ pages, a next button exactly when 1 ≤ page < pages, pointing at page ∓ 1, previous first, every target a page in range other than the current one |
| Pagination.SearchButtons | src/js/views/paginationView.js:26-76 | for the search state, a next button exactly when the page is from 1 on and page·rpp lies inside the results, a previous button exactly when the page is after the first and its first position (page-1)·rpp lies inside the results |
| Pagination.TargetPagesNonEmpty | src/js/views/paginationView.js:26-76 | every page a button points to holds at least one result |
| Pagination.PagesPrefix | src/js/model.js:95-101 | pages 1 to k are the results up to k·rpp, in order and without overlap |
| Pagination.AllPagesCoverResults | src/js/views/paginationView.js:28-30 | the pages up to the page count hold every result exactly once, in order |
| Pagination.ButtonNodes | src/js/views/paginationView.js:33-71 | a button carries its target page in `data-goto` and the `btn--inline` class of its direction, an `svg` of class `search__icon` pointing at the arrow of that direction, and a `span` reading "Page" and the target |
| Pagination.Markup | src/js/views/paginationView.js:26-76 | four elements per button, nothing when there are no buttons |
| Pagination.MarkupButton | src/js/views/paginationView.js:26-76 | the i-th button's elements sit at positions 4i to 4i+3 |
| Pagination.ClickRequestsTarget | src/js/views/paginationView.js:12-18 | `+btn.dataset.goto` reads back the button's target page |
| Pagination.ClickShowsResults | src/js/views/paginationView.js:12-18 | clicking any shown button asks for its target page, and that page holds results |

## Left out

- Requests: `getJSON`/`sendJSON`, the `fetch`/timeout race and the HTTP status check are not modelled; their outcome is a parameter. The hazard of a late response overwriting a newer one is therefore not captured.
- `localStorage` and JSON: the stored entry is a value, so a stored list that is not valid JSON (where `JSON.parse` would throw) and an entry that is present but not an array are not modelled.
- `clearBookmarks` is not modelled: it is never called.
- Model.Store.UpdateServings: requires a loaded recipe with positive servings; the source throws on `{}` and produces Infinity/NaN for 0 servings.
- Model.Store.UpdateServings: quantities are exact reals; IEEE-754 rounding, NaN and Infinity are not modelled.
- JsString.ToNumber: only trimmed decimal literals with an optional sign and one point are read; exponents, hexadecimal, `Infinity` and the like read as NaN here.
- Recipes.Field: the form is the entry list of `Object.fromEntries`, whose keys are distinct, so the first entry with a name is the only one; the ordering `Object.entries` gives to integer-like keys is not modelled.
- Aliasing: the store holds values, so the bookmark entry `uploadRecipe` and `addBookmark` push is a copy rather than the same object as the current recipe; in the source a later `updateServings` or flag change also shows in that bookmark entry, and here it does not.
- Model.Store.UploadRecipe: the bookmark entry is the record without the flag set, because the source's entry is the same object whose flag is set afterwards.
- DOM: the parsing of markup strings (`createContextualFragment`, `insertAdjacentHTML`), nesting, the indentation between tags (one line break stands for each run), and the detaching of descendants when `textContent` is set are abstracted into the flat list of element records; `isEqualNode`'s deep comparison is equality of those records; setting the attributes one by one is a map union.
- HTML templates of the other views (recipe, results, bookmarks, add-recipe), the `Fraction` formatting and all event wiring other than the pagination click are not part of this model.
- Pagination.NumPages: requires a positive results-per-page; the configured constant is positive, and division by zero is not modelled.
- config.js is not part of this model: `RES_PER_PAGE`, `TIMEOUT_SEC`, `API_URL` and `KEY` are parameters or do not appear.
