// The shopping search tool: the check of its `flagship` argument, the
// filter it sends to the `shoppings` collection and the shape of the
// records it returns.

module ShoppingTools {
  import opened PyStrings
  import opened PyValues
  import opened MongoStore
  import opened BaseTool

  // ------------------------------------------------------ validate_flagship

  /** `validate_flagship`, run on the raw argument before it is checked as
      an optional bool: the texts `'null'` and `'None'` and `None` become
      `None`, any other text becomes whether it is `'true'` up to case, and
      every other value is passed on. */
  function ValidateFlagship(v: Value): (r: Value)
    ensures r == Null <==> v == Null || v == Str("null") || v == Str("None")
    ensures v.Str? && v != Str("null") && v != Str("None") ==> r == Bool(Lower(v.s) == "true")
    ensures !v.Str? && v != Null ==> r == v
  {
    if v == Str("null") || v == Str("None") || v == Null then Null
    else if v.Str? then Bool(Lower(v.s) == "true")
    else v
  }

  /** Checking an already checked argument changes nothing. */
  lemma FlagshipIdempotent(v: Value)
    ensures ValidateFlagship(ValidateFlagship(v)) == ValidateFlagship(v)
  {
  }

  /** "true" in any capitals is the flag set. */
  lemma FlagshipTrueAnyCase(s: string)
    requires Lower(s) == "true"
    ensures ValidateFlagship(Str(s)) == Bool(true)
  {
    assert s != [];
    assert Lower(s)[0] == LowerChar(s[0])[0] == 't';
    assert s[0] != 'n' && s[0] != 'N';
    assert "null"[0] == 'n' && "None"[0] == 'N';
    assert Str(s) != Str("null") && Str(s) != Str("None");
  }

  /** Only the two exact spellings `'null'` and `'None'` mean "no filter":
      any other spelling of null, `'NULL'` say, is a text other than
      `'true'` and so the flag cleared. */
  lemma FlagshipOtherNull(s: string)
    requires s != "null" && s != "None" && Lower(s) == "null"
    ensures ValidateFlagship(Str(s)) == Bool(false)
  {
    assert "null"[0] != "true"[0];
    assert Lower(s) != "true";
  }

  // --------------------------------------------------------------- the filter

  /** `category and category != 'null' and category.lower() != 'none'`. */
  predicate CategoryWanted(category: Option<string>) {
    category.Some? && category.value != [] && category.value != "null" && Lower(category.value) != "none"
  }

  /** `{"$regex": category, "$options": "i"}`. */
  function CategoryCondition(category: string): Value {
    Dict([("$regex", Str(category)), ("$options", Str("i"))])
  }

  /** The filter `_run` sends: the city condition first, then the category
      condition when the category is wanted, then the flag when one is
      given. */
  function ShoppingFilter(cityName: string, category: Option<string>, flagship: Option<bool>): (r: Fields)
    ensures r != [] && r[0] == ("cityName", AnchoredIgnoreCase(cityName))
  {
    [("cityName", AnchoredIgnoreCase(cityName))]
      + (if CategoryWanted(category) then [("category", CategoryCondition(category.value))] else [])
      + (if flagship.Some? then [("flagship", Bool(flagship.value))] else [])
  }

  /** The three filter keys are different texts. */
  lemma FilterKeysDiffer()
    ensures "cityName" != "category" && "cityName" != "flagship" && "category" != "flagship"
  {
    assert "cityName"[1] != "category"[1];
    assert "flagship"[0] != "cityName"[0] && "flagship"[0] != "category"[0];
  }

  /** As a dict, the filter always holds the city condition, holds the
      category condition exactly when the category is wanted, and the flag
      exactly when one is given. */
  lemma ShoppingFilterKeys(cityName: string, category: Option<string>, flagship: Option<bool>)
    ensures var r := ShoppingFilter(cityName, category, flagship);
      Get(r, "cityName") == Some(AnchoredIgnoreCase(cityName))
      && (HasKey(r, "category") <==> CategoryWanted(category))
      && (CategoryWanted(category) ==> Get(r, "category") == Some(CategoryCondition(category.value)))
      && (HasKey(r, "flagship") <==> flagship.Some?)
      && (flagship.Some? ==> Get(r, "flagship") == Some(Bool(flagship.value)))
  {
    var r := ShoppingFilter(cityName, category, flagship);
    FilterKeysDiffer();
    GetFirstKey(r, 0);
    if CategoryWanted(category) {
      GetFirstKey(r, 1);
    }
    if flagship.Some? {
      GetFirstKey(r, |r| - 1);
    }
    assert forall i :: 0 <= i < |r| ==>
      (r[i].0 == "cityName" || (r[i].0 == "category" && CategoryWanted(category))
      || (r[i].0 == "flagship" && flagship.Some?));
  }

  /** The filter built key by key, as `_run` does. */
  method BuildFilter(cityName: string, category: Option<string>, flagship: Option<bool>) returns (queryFilter: Fields)
    ensures queryFilter == ShoppingFilter(cityName, category, flagship)
  {
    queryFilter := [("cityName", AnchoredIgnoreCase(cityName))];
    FilterKeysDiffer();
    if category.Some? && category.value != [] && category.value != "null" && Lower(category.value) != "none" {
      SetKeyNew(queryFilter, "category", CategoryCondition(category.value));
      queryFilter := SetKey(queryFilter, "category", CategoryCondition(category.value));
    }
    if flagship.Some? {
      assert forall i :: 0 <= i < |queryFilter| ==> queryFilter[i].0 != "flagship";
      SetKeyNew(queryFilter, "flagship", Bool(flagship.value));
      queryFilter := SetKey(queryFilter, "flagship", Bool(flagship.value));
    }
  }

  /** A shop matches the filter exactly when its city is the requested one
      up to case, its category text matches the category pattern when one
      is wanted, and its flag is the requested one when one is given. */
  lemma ShoppingFilterMatches(doc: Fields, cityName: string, category: Option<string>, flagship: Option<bool>)
    ensures Matches(Dict(doc), ShoppingFilter(cityName, category, flagship)) <==>
      (GetValue(doc, "cityName").Str? && Lower(GetValue(doc, "cityName").s) == Lower(cityName))
      && (CategoryWanted(category) ==>
        GetValue(doc, "category").Str? && RegexMatches(GetValue(doc, "category").s, category.value, "i"))
      && (flagship.Some? ==> Get(doc, "flagship") == Some(Bool(flagship.value)))
  {
    var head := [("cityName", AnchoredIgnoreCase(cityName))];
    var cat := if CategoryWanted(category) then [("category", CategoryCondition(category.value))] else [];
    var flag := if flagship.Some? then [("flagship", Bool(flagship.value))] else [];
    MatchesConcat(doc, head + cat, flag);
    MatchesConcat(doc, head, cat);
    MatchesOne(doc, "cityName", AnchoredIgnoreCase(cityName));
    AnchoredIgnoreCaseMatches(doc, "cityName", cityName);
    if CategoryWanted(category) {
      MatchesOne(doc, "category", CategoryCondition(category.value));
      CategoryConditionMatches(doc, category.value);
    }
    if flagship.Some? {
      MatchesOne(doc, "flagship", Bool(flagship.value));
    }
  }

  /** The category condition matches the string fields its pattern matches,
      ignoring case. */
  lemma CategoryConditionMatches(doc: Fields, category: string)
    ensures FieldMatches(doc, "category", CategoryCondition(category)) <==>
      GetValue(doc, "category").Str? && RegexMatches(GetValue(doc, "category").s, category, "i")
  {
    var cond := CategoryCondition(category);
    assert "$regex"[1] != "$options"[1];
    GetFirstKey(cond.fields, 0);
    GetFirstKey(cond.fields, 1);
  }

  /** The base tool leaves this filter as it is: no keyword filters are
      given and the city is already a condition. */
  lemma ShoppingFilterKept(cityName: string, category: Option<string>, flagship: Option<bool>)
    ensures QueryFilter(ShoppingFilter(cityName, category, flagship), []) == ShoppingFilter(cityName, category, flagship)
  {
  }

  // ------------------------------------------------------------- the records

  /** The keys of a shop record, in order. */
  const ShopKeys: seq<string> := ["_id", "cityName", "shops", "famousFor", "priceRange", "flagship",
    "premium", "address", "locationLink", "openDay", "openTime", "phone", "website", "images",
    "engagement", "reviews", "lat", "lon", "__v"]

  /** The value each key takes when the document lacks it. */
  const ShopDefaults: seq<Value> := [Str(""), Str(""), Str("Unknown"), Str(""), Str(""), Bool(false),
    Str("FREE"), Str(""), Str(""), Str(""), Str(""), Str(""), Str(""), List([]),
    Dict([]), List([]), Null, Null, Int(0)]

  /** The value the record gives key number `i`: the document's value or
      the default, with `_id` turned into text. */
  function ShopValue(doc: Fields, i: nat): Value
    requires i < |ShopKeys|
  {
    if i == 0 then Str(PyStr(GetOr(doc, "_id", Str(""))))
    else GetOr(doc, ShopKeys[i], ShopDefaults[i])
  }

  /** The record `_run` builds from a fetched document: the listed keys in
      order, with their values. */
  function FormatShop(doc: Fields): (r: Fields)
    ensures Keys(r) == ShopKeys
  {
    seq(|ShopKeys|, i requires 0 <= i < |ShopKeys| => (ShopKeys[i], ShopValue(doc, i)))
  }

  /** No two keys of a shop record are the same. */
  lemma ShopKeysDistinct()
    ensures forall i, j :: 0 <= j < i < |ShopKeys| ==> ShopKeys[j] != ShopKeys[i]
  {
  }

  /** A shop record's value for each of its keys. */
  lemma FormatShopGet(doc: Fields, i: nat)
    requires i < |ShopKeys|
    ensures Get(FormatShop(doc), ShopKeys[i]) == Some(ShopValue(doc, i))
  {
    var r := FormatShop(doc);
    ShopKeysDistinct();
    assert forall j :: 0 <= j < i ==> r[j].0 != r[i].0;
    GetFirstKey(r, i);
  }

  /** `_id` is the text of the document's `_id`, and empty without one. */
  lemma FormatShopId(doc: Fields)
    ensures Get(FormatShop(doc), "_id") == Some(Str(PyStr(GetOr(doc, "_id", Str("")))))
    ensures !HasKey(doc, "_id") ==> Get(FormatShop(doc), "_id") == Some(Str(""))
  {
    FormatShopGet(doc, 0);
  }

  /** Every listed key the document has is copied unchanged, `_id` apart. */
  lemma FormatShopCopies(doc: Fields, i: nat)
    requires 1 <= i < |ShopKeys| && HasKey(doc, ShopKeys[i])
    ensures Get(FormatShop(doc), ShopKeys[i]) == Get(doc, ShopKeys[i])
  {
    FormatShopGet(doc, i);
  }

  /** Every listed key the document lacks takes its default. */
  lemma FormatShopDefaults(doc: Fields, i: nat)
    requires 1 <= i < |ShopKeys| && !HasKey(doc, ShopKeys[i])
    ensures Get(FormatShop(doc), ShopKeys[i]) == Some(ShopDefaults[i])
  {
    FormatShopGet(doc, i);
  }

  /** Every key the document has beyond the listed ones is dropped. */
  lemma FormatShopDrops(doc: Fields, k: string)
    requires k !in ShopKeys
    ensures !HasKey(FormatShop(doc), k)
  {
    var r := FormatShop(doc);
    assert forall i :: 0 <= i < |r| ==> r[i].0 == Keys(r)[i];
  }

  /** Formatting a formatted record gives it back: every key is present and
      its `_id` is already text. */
  lemma FormatShopIdempotent(doc: Fields)
    ensures FormatShop(FormatShop(doc)) == FormatShop(doc)
  {
    var r := FormatShop(doc);
    var rr := FormatShop(r);
    forall i | 0 <= i < |ShopKeys|
      ensures rr[i] == r[i]
    {
      FormatShopGet(doc, i);
      assert HasKey(r, ShopKeys[i]);
    }
  }

  /** The formatting loop of `_run`: one record per fetched document, in
      order. */
  method FormatAll(results: seq<Value>) returns (formatted: seq<Value>)
    requires forall k :: 0 <= k < |results| ==> results[k].Dict?
    ensures |formatted| == |results|
    ensures forall k :: 0 <= k < |results| ==> formatted[k] == Dict(FormatShop(results[k].fields))
  {
    formatted := [];
    var i := 0;
    while i < |results|
      invariant 0 <= i <= |results|
      invariant |formatted| == i
      invariant forall k :: 0 <= k < i ==> formatted[k] == Dict(FormatShop(results[k].fields))
    {
      var shop := FormatShop(results[i].fields);
      formatted := formatted + [Dict(shop)];
      i := i + 1;
    }
  }

  /** `ShoppingSearchTool._run`: the filter is built, the base tool queries
      `shoppings` with it and at most `maxResults` documents, and each
      document is formatted. No shop outside the requested city, category
      and flag is returned. */
  method SearchShopping(db: Database, cityName: string, category: Option<string>, flagship: Option<bool>, maxResults: int)
    returns (formatted: seq<Value>)
    ensures var results := RunResult(db, "shoppings", ShoppingFilter(cityName, category, flagship), maxResults);
      |formatted| == |results|
      && forall k :: 0 <= k < |results| ==> formatted[k] == Dict(FormatShop(results[k].fields))
  {
    var queryFilter := BuildFilter(cityName, category, flagship);
    var filterDict := new FilterDict(queryFilter);
    var results := Run(db, "shoppings", filterDict, maxResults, []);
    ShoppingFilterKept(cityName, category, flagship);
    formatted := FormatAll(results);
  }
}
