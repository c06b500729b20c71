/**
 * The records of the recipe store and the pure mappings of model.js:
 * the API-to-record mapping (`createRecipeObject` and the search-result
 * projection), the servings rescale of every ingredient, and the parsing of
 * the upload form's ingredient fields.
 */
module Recipes {
  import opened Wrappers
  import opened JsString

  /** One ingredient line; `quantity` is `None` where the API or the form gives `null`. */
  datatype Ingredient = Ingredient(quantity: Option<real>, unit: string, description: string)

  /**
   * `data.data.recipe` of a recipe response (the API's `source_url`,
   * `image_url` and `cooking_time` are `sourceUrl`, `imageUrl`, `cookingTime`).
   */
  datatype ApiRecipe = ApiRecipe(
    id: string, title: string, publisher: string, sourceUrl: string, imageUrl: string,
    servings: int, cookingTime: int, ingredients: seq<Ingredient>, key: Option<string>)

  /** The recipe record held in the store and in the bookmarks. */
  datatype Recipe = Recipe(
    id: string, title: string, publisher: string, sourceUrl: string, image: string,
    servings: int, cookingTime: int, ingredients: seq<Ingredient>, key: Option<string>,
    bookmarked: bool)

  /** One element of `data.data.recipes` in a search response. */
  datatype ApiSearchRecord = ApiSearchRecord(
    id: string, title: string, publisher: string, imageUrl: string, key: Option<string>)

  /** The read-only projection of a recipe shown in the result list. */
  datatype SearchResult = SearchResult(
    id: string, title: string, publisher: string, image: string, key: Option<string>)

  /** Why a request to the API did not give a payload. */
  datatype FetchError = Timeout(seconds: int) | HttpError(status: int, message: string) | TransportError

  /** What a `getJSON`/`sendJSON` call delivered: the parsed payload or the error it threw. */
  datatype Fetched<T> = Received(payload: T) | Failed(error: FetchError)

  /** `...(key && {key})`: a key is copied only when it is truthy, that is a non-empty string. */
  function TruthyKey(key: Option<string>): (r: Option<string>)
    ensures r.Some? <==> key.Some? && key.value != ""
    ensures r.Some? ==> r == key
  {
    if key.Some? && key.value != "" then key else None
  }

  /**
   * `createRecipeObject`: renames the API fields and keeps a truthy key. The
   * source leaves `bookmarked` unset (falsy); every caller sets it next.
   */
  function CreateRecipeObject(api: ApiRecipe): (r: Recipe)
    ensures r.id == api.id && r.title == api.title && r.publisher == api.publisher
    ensures r.sourceUrl == api.sourceUrl && r.image == api.imageUrl
    ensures r.servings == api.servings && r.cookingTime == api.cookingTime
    ensures r.ingredients == api.ingredients
    ensures r.key.Some? <==> api.key.Some? && api.key.value != ""
    ensures r.key.Some? ==> r.key == api.key
    ensures !r.bookmarked
  {
    Recipe(api.id, api.title, api.publisher, api.sourceUrl, api.imageUrl,
           api.servings, api.cookingTime, api.ingredients, TruthyKey(api.key), false)
  }

  function ToSearchResult(rec: ApiSearchRecord): SearchResult {
    SearchResult(rec.id, rec.title, rec.publisher, rec.imageUrl, TruthyKey(rec.key))
  }

  /** The `map` of `loadSearchResults`: one result per record, in the same order. */
  function SearchResults(recs: seq<ApiSearchRecord>): (rs: seq<SearchResult>)
    ensures |rs| == |recs|
    ensures forall i :: 0 <= i < |recs| ==>
              && rs[i].id == recs[i].id && rs[i].title == recs[i].title
              && rs[i].publisher == recs[i].publisher && rs[i].image == recs[i].imageUrl
              && (rs[i].key.Some? <==> recs[i].key.Some? && recs[i].key.value != "")
              && (rs[i].key.Some? ==> rs[i].key == recs[i].key)
  {
    seq(|recs|, i requires 0 <= i < |recs| => ToSearchResult(recs[i]))
  }

  /** The projection commutes with concatenation: each record maps on its own. */
  lemma SearchResultsAppend(a: seq<ApiSearchRecord>, b: seq<ApiSearchRecord>)
    ensures SearchResults(a + b) == SearchResults(a) + SearchResults(b)
  {
    var l, r := SearchResults(a + b), SearchResults(a) + SearchResults(b);
    forall i | 0 <= i < |l| ensures l[i] == r[i] {
      if i < |a| { assert (a + b)[i] == a[i]; } else { assert (a + b)[i] == b[i - |a|]; }
    }
  }

  // ---------------------------------------------------------------------------
  // Servings

  /** The number JavaScript uses for a quantity in `quantity * ratio`: `null` counts as 0. */
  function QuantityValue(q: Option<real>): real {
    q.GetOr(0.0)
  }

  /** `quantity * ratio` in JavaScript. */
  function Scaled(quantity: Option<real>, ratio: real): real {
    QuantityValue(quantity) * ratio
  }

  /** One step of the `forEach` in `updateServings`. */
  function ScaleIngredient(ing: Ingredient, ratio: real): Ingredient {
    ing.(quantity := Some(Scaled(ing.quantity, ratio)))
  }

  /** `newServings / oldServings`, over exact reals. */
  function Ratio(newServings: int, oldServings: int): real
    requires oldServings > 0
  {
    newServings as real / oldServings as real
  }

  /** The `forEach` of `updateServings`: every ingredient scaled by `ratio`, in place. */
  function ScaleAll(ings: seq<Ingredient>, ratio: real): (out: seq<Ingredient>)
    ensures |out| == |ings|
    ensures forall i :: 0 <= i < |ings| ==>
              && out[i].unit == ings[i].unit && out[i].description == ings[i].description
              && out[i].quantity == Some(Scaled(ings[i].quantity, ratio))
  {
    var out := seq(|ings|, i requires 0 <= i < |ings| => ScaleIngredient(ings[i], ratio));
    forall i | 0 <= i < |ings|
      ensures out[i].quantity == Some(Scaled(ings[i].quantity, ratio))
    {
      assert out[i] == ScaleIngredient(ings[i], ratio);
    }
    out
  }

  /**
   * `updateServings(newServings)` on a recipe: every quantity times
   * `newServings / servings`, then `servings := newServings`; nothing else changes.
   */
  function Rescale(r: Recipe, newServings: int): (s: Recipe)
    requires r.servings > 0
    ensures s.servings == newServings
    ensures |s.ingredients| == |r.ingredients|
    ensures forall i :: 0 <= i < |r.ingredients| ==>
              && s.ingredients[i].unit == r.ingredients[i].unit
              && s.ingredients[i].description == r.ingredients[i].description
              && s.ingredients[i].quantity
                 == Some(Scaled(r.ingredients[i].quantity, Ratio(newServings, r.servings)))
    ensures s.(ingredients := r.ingredients, servings := r.servings) == r
  {
    r.(ingredients := ScaleAll(r.ingredients, Ratio(newServings, r.servings)), servings := newServings)
  }

  predicate AllQuantitiesGiven(r: Recipe) {
    forall i :: 0 <= i < |r.ingredients| ==> r.ingredients[i].quantity.Some?
  }

  /**
   * Over exact reals, rescaling to `n` and back restores the recipe, except
   * that a `null` quantity has become 0.
   */
  lemma RescaleRoundTrip(r: Recipe, n: int)
    requires r.servings > 0 && n > 0
    ensures var back := Rescale(Rescale(r, n), r.servings);
            && back.(ingredients := r.ingredients) == r
            && |back.ingredients| == |r.ingredients|
            && forall i :: 0 <= i < |r.ingredients| ==>
                 back.ingredients[i] == r.ingredients[i].(quantity := Some(QuantityValue(r.ingredients[i].quantity)))
    ensures AllQuantitiesGiven(r) ==> Rescale(Rescale(r, n), r.servings) == r
  {
    var mid := Rescale(r, n);
    var back := Rescale(mid, r.servings);
    var up, down := Ratio(n, r.servings), Ratio(r.servings, n);
    assert mid.servings == n;
    RatioInverse(n, r.servings);
    forall i | 0 <= i < |r.ingredients|
      ensures back.ingredients[i] == r.ingredients[i].(quantity := Some(QuantityValue(r.ingredients[i].quantity)))
    {
      var q := QuantityValue(r.ingredients[i].quantity);
      assert mid.ingredients[i].quantity == Some(Scaled(r.ingredients[i].quantity, up));
      var x := Scaled(mid.ingredients[i].quantity, down);
      assert back.ingredients[i].quantity == Some(x);
      assert x == q * up * down;
      ScaleByInverses(q, up, down);
      assert x == q;
      assert back.ingredients[i].unit == r.ingredients[i].unit;
      assert back.ingredients[i].description == r.ingredients[i].description;
    }
    if AllQuantitiesGiven(r) {
      assert back.ingredients == r.ingredients;
    }
  }

  lemma ScaleByInverses(q: real, a: real, b: real)
    requires a * b == 1.0
    ensures q * a * b == q
  {
    calc {
      q * a * b;
      == q * (a * b);
      == q * 1.0;
    }
  }

  lemma RatioInverse(n: int, s: int)
    requires n > 0 && s > 0
    ensures Ratio(n, s) * Ratio(s, n) == 1.0
  {
  }

  // ---------------------------------------------------------------------------
  // Upload form

  /** A `[name, value]` pair as `Object.entries` lists the submitted form object. */
  type Entry = (string, string)

  const IngredientPrefix := "ingredient"
  const FormatError := "Wrong ingredient format! Please use the correct format."

  /** The `filter` of `uploadRecipe`: an ingredient field that was filled in. */
  predicate IsIngredientEntry(e: Entry) {
    StartsWith(e.0, IngredientPrefix) && e.1 != ""
  }

  /** The values of the kept ingredient entries, in entry order. */
  function IngredientValues(entries: seq<Entry>): (vs: seq<string>)
    ensures |vs| <= |entries|
    ensures forall v :: v in vs ==> v != ""
    ensures forall i :: 0 <= i < |entries| && IsIngredientEntry(entries[i]) ==> entries[i].1 in vs
    ensures forall v :: v in vs ==>
              exists i :: 0 <= i < |entries| && IsIngredientEntry(entries[i]) && entries[i].1 == v
  {
    if entries == [] then []
    else
      var rest := IngredientValues(entries[1..]);
      assert forall i :: 1 <= i < |entries| ==> entries[i] == entries[1..][i - 1];
      (if IsIngredientEntry(entries[0]) then [entries[0].1] else []) + rest
  }

  /** The filter keeps entry order: it distributes over concatenation. */
  lemma {:induction false} IngredientValuesAppend(a: seq<Entry>, b: seq<Entry>)
    ensures IngredientValues(a + b) == IngredientValues(a) + IngredientValues(b)
  {
    if a != [] {
      assert (a + b)[1..] == a[1..] + b;
      IngredientValuesAppend(a[1..], b);
    } else {
      assert a + b == b;
    }
  }

  /** A single entry is kept, as its value, exactly when it is a filled-in ingredient field. */
  lemma IngredientValuesOne(e: Entry)
    ensures IngredientValues([e]) == if IsIngredientEntry(e) then [e.1] else []
  {
  }

  /** Entries that are not filled-in ingredient fields (title, servings, ...) do not reach the parser. */
  lemma OtherEntriesIgnored(a: seq<Entry>, e: Entry, b: seq<Entry>)
    requires !IsIngredientEntry(e)
    ensures IngredientValues(a + [e] + b) == IngredientValues(a) + IngredientValues(b)
  {
    IngredientValuesAppend(a + [e], b);
    IngredientValuesAppend(a, [e]);
    IngredientValuesOne(e);
  }

  /** `value.split(',').map(el => el.trim())`. */
  function Fields(value: string): (fs: seq<string>)
    ensures |fs| == |Split(value, ',')| >= 1
    ensures forall i :: 0 <= i < |fs| ==> fs[i] == Trim(Split(value, ',')[i])
  {
    var parts := Split(value, ',');
    seq(|parts|, i requires 0 <= i < |parts| => Trim(parts[i]))
  }

  /** An ingredient as the upload payload carries it; `+quantity` may be NaN. */
  datatype PayloadIngredient = PayloadIngredient(quantity: Option<Num>, unit: string, description: string)

  /**
   * The `map` callback of `uploadRecipe` for one value: exactly three
   * comma-separated fields, otherwise the format error is thrown; an empty
   * quantity is `null`, any other is `+quantity`.
   */
  function ParseIngredient(value: string): (r: Result<PayloadIngredient, string>)
    ensures r.Ok? <==> |Fields(value)| == 3
    ensures r.Err? ==> r.error == FormatError
    ensures r.Ok? ==> r.value.unit == Fields(value)[1] && r.value.description == Fields(value)[2]
    ensures r.Ok? ==> (r.value.quantity.None? <==> Fields(value)[0] == "")
    ensures r.Ok? && Fields(value)[0] != "" ==> r.value.quantity == Some(ToNumber(Fields(value)[0]))
  {
    var fs := Fields(value);
    if |fs| != 3 then Err(FormatError)
    else
      var quantity, unit, description := fs[0], fs[1], fs[2];
      Ok(PayloadIngredient(if quantity != "" then Some(ToNumber(quantity)) else None, unit, description))
  }

  /**
   * A line written as `quantity,unit,description` with a whole quantity and
   * trimmed, comma-free unit and description parses back to those parts.
   */
  lemma ParseIngredientLine(quantity: nat, unit: string, description: string)
    requires ',' !in unit && ',' !in description
    requires Trim(unit) == unit && Trim(description) == description
    ensures ParseIngredient(NatToDecimal(quantity) + "," + unit + "," + description)
            == Ok(PayloadIngredient(Some(Finite(quantity as real)), unit, description))
  {
    var q := NatToDecimal(quantity);
    var line := q + "," + unit + "," + description;
    assert ',' !in q by {
      forall j | 0 <= j < |q| ensures q[j] != ',' { assert IsDigit(q[j]); }
    }
    SplitThree(q, unit, description);
    DecimalIsTrimmed(quantity);
    var fs := Fields(line);
    assert |fs| == 3 && fs[0] == q && fs[1] == unit && fs[2] == description;
    NatToDecimalToNumber(quantity);
    assert q != "";
  }

  lemma SplitThree(a: string, b: string, c: string)
    requires ',' !in a && ',' !in b && ',' !in c
    ensures Split(a + "," + b + "," + c, ',') == [a, b, c]
  {
    var parts := [a, b, c];
    assert parts[1..][1..] == [c];
    assert Join(parts[1..], ',') == b + "," + c;
    assert Join(parts, ',') == a + "," + b + "," + c;
    SplitJoin(parts, ',');
  }

  /** The index of the first element on which `f` fails, or |xs| when it fails on none. */
  function FirstFailure<A, B, E>(f: A -> Result<B, E>, xs: seq<A>): (k: nat)
    ensures k <= |xs|
    ensures forall j :: 0 <= j < k ==> f(xs[j]).Ok?
    ensures k < |xs| ==> f(xs[k]).Err?
  {
    if xs == [] || f(xs[0]).Err? then 0
    else
      assert forall i :: 1 <= i < |xs| ==> xs[i] == xs[1..][i - 1];
      1 + FirstFailure(f, xs[1..])
  }

  /** `xs.map(f)` with a callback that may throw: the first throw propagates. */
  function MapOrThrow<A, B, E>(f: A -> Result<B, E>, xs: seq<A>): (r: Result<seq<B>, E>)
    ensures r.Ok? <==> forall i :: 0 <= i < |xs| ==> f(xs[i]).Ok?
    ensures r.Ok? ==> |r.value| == |xs| && forall i :: 0 <= i < |xs| ==> f(xs[i]) == Ok(r.value[i])
    ensures r.Err? ==> FirstFailure(f, xs) < |xs| && f(xs[FirstFailure(f, xs)]) == Err(r.error)
  {
    if xs == [] then Ok([])
    else
      var head, tail := f(xs[0]), MapOrThrow(f, xs[1..]);
      assert forall i :: 1 <= i < |xs| ==> xs[i] == xs[1..][i - 1];
      if head.Err? then Err(head.error)
      else if tail.Err? then Err(tail.error)
      else Ok([head.value] + tail.value)
  }

  /** The `map` over all kept values: the first malformed value throws the format error. */
  function ParseIngredients(values: seq<string>): (r: Result<seq<PayloadIngredient>, string>)
    ensures r.Ok? <==> forall i :: 0 <= i < |values| ==> |Fields(values[i])| == 3
    ensures r.Err? ==> r.error == FormatError
    ensures r.Ok? ==> |r.value| == |values| &&
                      forall i :: 0 <= i < |values| ==> ParseIngredient(values[i]) == Ok(r.value[i])
  {
    MapOrThrow(ParseIngredient, values)
  }

  /** The upload request body built from the form. */
  datatype Payload = Payload(
    title: Option<string>, sourceUrl: Option<string>, imageUrl: Option<string>,
    publisher: Option<string>, cookingTime: Num, servings: Num,
    ingredients: seq<PayloadIngredient>)

  /** `newRecipe[name]`: the value of the entry with that name, `undefined` when there is none. */
  function Field(entries: seq<Entry>, name: string): (v: Option<string>)
    ensures v.Some? <==> exists i :: 0 <= i < |entries| && entries[i].0 == name
    ensures v.Some? ==> exists i :: 0 <= i < |entries| && entries[i] == (name, v.value)
  {
    if entries == [] then None
    else if entries[0].0 == name then Some(entries[0].1)
    else
      assert forall i :: 1 <= i < |entries| ==> entries[i] == entries[1..][i - 1];
      Field(entries[1..], name)
  }

  /** `+newRecipe[name]`: `+undefined` is NaN. */
  function FieldNumber(v: Option<string>): (n: Num)
    ensures v.None? ==> n == NaN
    ensures v.Some? ==> n == ToNumber(v.value)
  {
    if v.Some? then ToNumber(v.value) else NaN
  }

  /**
   * The body `uploadRecipe` sends: the ingredient list parsed from the kept
   * entries, or the format error thrown before anything is sent.
   */
  function BuildPayload(entries: seq<Entry>): (r: Result<Payload, string>)
    ensures r.Ok? <==> forall v :: v in IngredientValues(entries) ==> |Fields(v)| == 3
    ensures r.Err? ==> r.error == FormatError
    ensures r.Ok? ==> ParseIngredients(IngredientValues(entries)) == Ok(r.value.ingredients)
    ensures r.Ok? ==> r.value.title == Field(entries, "title") && r.value.sourceUrl == Field(entries, "sourceUrl")
    ensures r.Ok? ==> r.value.imageUrl == Field(entries, "image") && r.value.publisher == Field(entries, "publisher")
    ensures r.Ok? ==> r.value.cookingTime == FieldNumber(Field(entries, "cookingTime"))
    ensures r.Ok? ==> r.value.servings == FieldNumber(Field(entries, "servings"))
  {
    match ParseIngredients(IngredientValues(entries))
    case Err(e) => Err(e)
    case Ok(ingredients) =>
      Ok(Payload(Field(entries, "title"), Field(entries, "sourceUrl"), Field(entries, "image"),
                 Field(entries, "publisher"), FieldNumber(Field(entries, "cookingTime")),
                 FieldNumber(Field(entries, "servings")), ingredients))
  }
}
