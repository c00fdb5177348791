// The pure pieces of the HTTP routes: the mapping of the service's records
// to response items and the status chosen for a failed category search.

module Routes {
  import opened PyStrings
  import opened PyValues
  import opened CrewOutputParser
  import opened QueryClassifier

  // ------------------------------------------------------ recommendation items

  /** `rec["_id"]` and `rec["name"]` both succeed on this element. */
  predicate Mappable(v: Value) {
    v.Dict? && HasKey(v.fields, "_id") && HasKey(v.fields, "name")
  }

  /** `{"_id": rec["_id"], "name": rec["name"], "type": category}`. */
  function ResponseItem(rec: Fields, category: Value): Value {
    Dict([("_id", GetValue(rec, "_id")), ("name", GetValue(rec, "name")), ("type", category)])
  }

  /** The list comprehension over `result.get("recommendations", [])`.
      Iterating a list visits its elements, an empty text or an empty dict
      visits nothing; a non-empty text or dict yields texts, which cannot be
      indexed by `"_id"`, and any other value cannot be iterated. An element
      that is not a dict, or lacks `_id` or `name`, raises. */
  function ResponseItems(result: Fields): (r: Result<seq<Value>>)
    ensures var recs := GetOr(result, "recommendations", List([]));
      recs.List? ==> (r.Ok? <==> forall i :: 0 <= i < |recs.items| ==> Mappable(recs.items[i]))
    ensures var recs := GetOr(result, "recommendations", List([]));
      !recs.List? ==> (r.Ok? <==> (recs == Str([]) || recs == Dict([]))) && (r.Ok? ==> r.value == [])
  {
    var recs := GetOr(result, "recommendations", List([]));
    var category := GetValue(result, "category");
    match recs
    case List(items) =>
      if forall i :: 0 <= i < |items| ==> Mappable(items[i]) then
        Ok(seq(|items|, i requires 0 <= i < |items| => ResponseItem(items[i].fields, category)))
      else Err("KeyError")
    case Str(s) => if s == [] then Ok([]) else Err("TypeError: string indices must be integers")
    case Dict(fs) => if fs == [] then Ok([]) else Err("TypeError: string indices must be integers")
    case _ => Err("TypeError: object is not iterable")
  }

  /** One item per service record, in order: `_id` and `name` copied from
      the record, `type` the result's category (None when absent), and no
      other key. */
  lemma ResponseItemsCopy(result: Fields)
    requires ResponseItems(result).Ok? && GetOr(result, "recommendations", List([])).List?
    ensures var recs := GetOr(result, "recommendations", List([])).items;
      var items := ResponseItems(result).value;
      |items| == |recs| && forall i :: 0 <= i < |items| ==>
        items[i].Dict? && Keys(items[i].fields) == ["_id", "name", "type"]
        && Get(items[i].fields, "_id") == Get(recs[i].fields, "_id")
        && Get(items[i].fields, "name") == Get(recs[i].fields, "name")
        && Get(items[i].fields, "type") == Some(GetValue(result, "category"))
  {
    var recs := GetOr(result, "recommendations", List([])).items;
    var items := ResponseItems(result).value;
    forall i | 0 <= i < |items|
      ensures items[i].Dict? && Keys(items[i].fields) == ["_id", "name", "type"]
      ensures Get(items[i].fields, "_id") == Get(recs[i].fields, "_id")
      ensures Get(items[i].fields, "name") == Get(recs[i].fields, "name")
      ensures Get(items[i].fields, "type") == Some(GetValue(result, "category"))
    {
      assert Mappable(recs[i]);
      assert items[i] == ResponseItem(recs[i].fields, GetValue(result, "category"));
      ResponseItemKeys(recs[i].fields, GetValue(result, "category"));
    }
  }

  /** One response item has the three keys, the first two copied. */
  lemma ResponseItemKeys(rec: Fields, category: Value)
    requires HasKey(rec, "_id") && HasKey(rec, "name")
    ensures var fs := ResponseItem(rec, category).fields;
      Keys(fs) == ["_id", "name", "type"]
      && Get(fs, "_id") == Get(rec, "_id") && Get(fs, "name") == Get(rec, "name")
      && Get(fs, "type") == Some(category)
  {
    var fs := ResponseItem(rec, category).fields;
    assert fs[0].0 == "_id" && fs[1].0 == "name" && fs[2].0 == "type";
  }

  /** The records the shopping parser returns are `{_id, shops}`: a result
      holding any of them has no item list, the mapping raises. */
  lemma ShoppingPicksHaveNoName(result: Fields, pairs: seq<(string, string)>)
    requires pairs != []
    requires GetOr(result, "recommendations", List([])) == ShopRecords(pairs).fields[0].1
    ensures ResponseItems(result).Err?
  {
    var items := ShopRecords(pairs).fields[0].1.items;
    assert items[0] == ShopRecord(pairs[0].0, pairs[0].1);
    var fs := items[0].fields;
    assert fs[0].0 == "_id" && fs[1].0 == "shops";
    assert !HasKey(fs, "name");
  }

  // ------------------------------------------------ category search failures

  /** The status the failure branch of `/category-search` chooses: 501 when
      the lower-cased error text holds `"not implemented"`, 400 otherwise. An
      error that is not a text has no `lower()`, and the handler answers
      500. */
  function FailureStatus(result: Fields): (status: nat)
    ensures status == 501 <==> (GetOr(result, "error", Str("")).Str?
      && Contains(Lower(GetOr(result, "error", Str("")).s), "not implemented"))
    ensures status == 400 <==> (GetOr(result, "error", Str("")).Str?
      && !Contains(Lower(GetOr(result, "error", Str("")).s), "not implemented"))
    ensures status == 500 <==> !GetOr(result, "error", Str("")).Str?
  {
    match GetOr(result, "error", Str(""))
    case Str(e) => if Contains(Lower(e), "not implemented") then 501 else 400
    case _ => 500
  }

  /** Without an `error` key the failure is a 400. */
  lemma FailureWithoutError(result: Fields)
    requires !HasKey(result, "error")
    ensures FailureStatus(result) == 400
  {
    assert !Contains("", "not implemented");
  }

  /** The matching ignores case: any spelling of the phrase in capitals is a
      501. */
  lemma {:induction false} NotImplementedAnyCase(result: Fields, prefix: string, phrase: string, suffix: string)
    requires Lower(phrase) == "not implemented"
    requires GetOr(result, "error", Str("")) == Str(prefix + phrase + suffix)
    ensures FailureStatus(result) == 501
  {
    LowerThree(prefix, phrase, suffix);
    ContainsMiddle(Lower(prefix), "not implemented", Lower(suffix));
  }

  /** An exception raised in a route's `try` block: an `HTTPException`
      with its status, or any other exception. */
  datatype Raised = HttpError(status: nat) | OtherError(msg: string)

  /** How a route's `try` block ends: with the response, or by raising. */
  datatype TryOutcome = Returned | Threw(raised: Raised)

  /** The status the client sees as written: the `except Exception` clause
      catches every exception raised in the `try` block, an `HTTPException`
      included, and raises a 500 in its place. */
  function Guarded(o: TryOutcome): (status: nat)
    ensures o.Returned? <==> status == 200
    ensures o.Threw? <==> status == 500
  {
    match o
    case Returned => 200
    case Threw(_) => 500
  }

  /** The status meant: an `HTTPException` keeps its own status, any other
      exception is a 500. */
  function Unguarded(o: TryOutcome): (status: nat)
    ensures o.Returned? ==> status == 200
    ensures o.Threw? && o.raised.HttpError? ==> status == o.raised.status
    ensures o.Threw? && o.raised.OtherError? ==> status == 500
  {
    match o
    case Returned => 200
    case Threw(HttpError(s)) => s
    case Threw(OtherError(_)) => 500
  }

  /** The handler as written answers as meant exactly when the block does
      not raise an `HTTPException` of a status other than 500. */
  lemma GuardedAgrees(o: TryOutcome)
    ensures Guarded(o) == Unguarded(o) <==> !(o.Threw? && o.raised.HttpError? && o.raised.status != 500)
  {
  }

  // ------------------------------------------------- response validation

  /** pydantic's `List[RecommendationItem]` in lax mode: each item's
      `name: str` holds a text. `_id`, with its leading underscore, is a
      private attribute and not a validated field; `type` is checked per
      route. */
  predicate NamesValidate(items: seq<Value>) {
    forall i :: 0 <= i < |items| ==> items[i].Dict? && GetValue(items[i].fields, "name").Str?
  }

  /** The item names are the records' own `name` values, so they validate
      exactly when every record's `name` is a text. */
  lemma NamesFromRecords(result: Fields)
    requires ResponseItems(result).Ok? && GetOr(result, "recommendations", List([])).List?
    ensures var recs := GetOr(result, "recommendations", List([])).items;
      NamesValidate(ResponseItems(result).value)
      <==> forall i :: 0 <= i < |recs| ==> GetValue(recs[i].fields, "name").Str?
  {
    var recs := GetOr(result, "recommendations", List([])).items;
    var items := ResponseItems(result).value;
    ResponseItemsCopy(result);
    forall i | 0 <= i < |recs|
      ensures items[i].Dict? && GetValue(items[i].fields, "name") == GetValue(recs[i].fields, "name")
    {
      assert Get(items[i].fields, "name") == Get(recs[i].fields, "name");
    }
  }

  /** pydantic's `full_data: List[Dict[str, Any]]`: a list whose every
      element is a dict (keys are texts in this model). */
  predicate FullDataValidates(v: Value) {
    v.List? && forall i :: 0 <= i < |v.items| ==> v.items[i].Dict?
  }

  /** The fields `RecommendationResponse` takes from the service's result in
      `/category-search`: the items' names and `full_data`. The other fields
      come from the request, whose schema has already checked them. */
  predicate CategoryResponseValid(result: Fields) {
    ResponseItems(result).Ok? && NamesValidate(ResponseItems(result).value)
    && FullDataValidates(GetOr(result, "full_data", List([])))
  }

  /** The fields `RecommendationResponse` takes from the service's result in
      `/recommend`: `category: str` (default "unknown"), `city:
      Optional[str]`, `parameters: Dict[str, str]` (default `{}`), the items'
      names and `full_data`. An item's `type` is the result's category, a
      text or None whenever `category` passes. */
  predicate RecommendResponseValid(result: Fields) {
    GetOr(result, "category", Str("unknown")).Str?
    && ValidCity(GetValue(result, "city")).Some?
    && ValidParameters(GetOr(result, "parameters", Dict([]))).Some?
    && CategoryResponseValid(result)
  }

  /** The end of the `try` block of `/category-search` for the service's
      result: a failed result raises the `HTTPException` carrying the chosen
      status, or, when the error is not a text, the `AttributeError` of
      `.lower()`; a successful one returns unless the item mapping raises or
      `RecommendationResponse` refuses its items or `full_data`. */
  function CategorySearchTry(result: Fields): (o: TryOutcome)
    ensures !Truthy(GetValue(result, "success")) && GetOr(result, "error", Str("")).Str? ==>
      o == Threw(HttpError(FailureStatus(result)))
    ensures !Truthy(GetValue(result, "success")) && !GetOr(result, "error", Str("")).Str? ==>
      o.Threw? && o.raised.OtherError?
    ensures Truthy(GetValue(result, "success")) ==>
      (o.Returned? <==> CategoryResponseValid(result)) && (o.Threw? ==> o.raised.OtherError?)
  {
    if Truthy(GetValue(result, "success")) then
      if ResponseItems(result).Err? then Threw(OtherError(ResponseItems(result).error))
      else if CategoryResponseValid(result) then Returned
      else Threw(OtherError("ValidationError"))
    else if GetOr(result, "error", Str("")).Str? then Threw(HttpError(FailureStatus(result)))
    else Threw(OtherError("AttributeError: object has no attribute 'lower'"))
  }

  /** The end of the `try` block of `/recommend`: a successful result
      returns unless the item mapping raises or `RecommendationResponse`
      refuses a field; a failed one raises the `HTTPException` of 400, unless
      its `error` is present and not a text, which `ErrorResponse(error=...)`
      refuses first. */
  function RecommendTry(result: Fields): (o: TryOutcome)
    ensures Truthy(GetValue(result, "success")) ==>
      (o.Returned? <==> RecommendResponseValid(result)) && (o.Threw? ==> o.raised.OtherError?)
    ensures !Truthy(GetValue(result, "success")) ==>
      (o == Threw(HttpError(400)) <==> GetOr(result, "error", Str("Unknown error")).Str?)
      && (o != Threw(HttpError(400)) ==> o.Threw? && o.raised.OtherError?)
  {
    if Truthy(GetValue(result, "success")) then
      if ResponseItems(result).Err? then Threw(OtherError(ResponseItems(result).error))
      else if RecommendResponseValid(result) then Returned
      else Threw(OtherError("ValidationError"))
    else if GetOr(result, "error", Str("Unknown error")).Str? then Threw(HttpError(400))
    else Threw(OtherError("ValidationError"))
  }

  /** `/category-search` on a failed result as written: the chosen status is
      raised inside the `try` block and replaced by 500. */
  function FailureStatusAsWritten(result: Fields): nat {
    Guarded(CategorySearchTry(result))
  }

  /** Whatever its error text, a failed category search is meant to be
      answered 400 or 501, the status its `HTTPException` carries, and is
      answered 500. */
  lemma FailureStatusOverridden(result: Fields)
    requires !Truthy(GetValue(result, "success")) && GetOr(result, "error", Str("")).Str?
    ensures FailureStatus(result) in {400, 501}
    ensures Unguarded(CategorySearchTry(result)) == FailureStatus(result)
    ensures FailureStatusAsWritten(result) == 500
  {
    GuardedAgrees(CategorySearchTry(result));
  }

  /** The same happens to `/recommend`: a failed result whose error is a
      text or absent raises the `HTTPException` of 400, meant to reach the
      client, and is answered 500. */
  lemma RecommendFailureOverridden(result: Fields)
    requires !Truthy(GetValue(result, "success")) && GetOr(result, "error", Str("Unknown error")).Str?
    ensures RecommendTry(result) == Threw(HttpError(400))
    ensures Unguarded(RecommendTry(result)) == 400
    ensures Guarded(RecommendTry(result)) == 500
  {
    GuardedAgrees(RecommendTry(result));
  }
}
