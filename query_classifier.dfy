/** `OllamaQueryClassifier` (services/query_classifier.py): a query becomes
    a category, a city, parameters and a confidence. The language model's
    reply is looked for a JSON object; when anything on that path raises,
    a keyword table and a city list decide instead. The language model and
    the JSON decoder are parameters. */
module QueryClassifier {
  import opened PyStrings
  import opened PyValues

  /** `QueryCategory` once pydantic has accepted it. The confidence is kept
      as the value that was accepted (a number, a boolean or a numeric
      string); its conversion to `float` is not modelled. */
  datatype QueryCategory = QueryCategory(
    category: string,
    cityName: Option<string>,
    parameters: seq<(string, string)>,
    confidence: Value)

  /** `self.categories`, the nine collection names the model may answer. */
  const Categories: seq<string> := [
    "foods", "accommodations", "activities", "cityinfos", "localtransports",
    "hiddengems", "connectivities", "placestovisits", "shopping"]

  /** `keyword_mapping` of `_fallback_classification`, in insertion order. */
  const KeywordMapping: seq<(string, string)> := [
    ("food", "foods"), ("restaurant", "foods"), ("eat", "foods"),
    ("dinner", "foods"), ("lunch", "foods"), ("breakfast", "foods"),
    ("cafe", "foods"), ("sweet", "foods"), ("petha", "foods"),
    ("hotel", "accommodations"), ("stay", "accommodations"),
    ("accommodation", "accommodations"),
    ("activity", "activities"), ("do", "activities"),
    ("see", "places_to_visit"), ("visit", "places_to_visit"),
    ("attraction", "places_to_visit"),
    ("shop", "shopping"), ("buy", "shopping"), ("market", "shopping"),
    ("transport", "localtransports"), ("bus", "localtransports"),
    ("train", "localtransports"),
    ("hidden", "hiddengems"), ("gem", "hiddengems"), ("local", "hiddengems")]

  /** `cities` of `_fallback_classification`, in list order. */
  const Cities: seq<string> := ["Agra", "Delhi", "Mumbai", "Bangalore", "Jaipur", "Goa", "Chennai", "Kolkata"]

  /** The categories the fallback can give: the values of the table and the
      default. */
  function FallbackCategories(): set<string> {
    (set j | 0 <= j < |KeywordMapping| :: KeywordMapping[j].1) + {"cityinfos"}
  }

  // ------------------------------------------------------------ fallback

  /** The position of the first city whose lower-case name occurs in
      `queryLower`, or `|cities|`. */
  function FirstCity(queryLower: string, cities: seq<string>): (k: nat)
    ensures k <= |cities|
    ensures forall j :: 0 <= j < k ==> !Contains(queryLower, Lower(cities[j]))
    ensures k < |cities| ==> Contains(queryLower, Lower(cities[k]))
  {
    if cities == [] then 0
    else if Contains(queryLower, Lower(cities[0])) then 0
    else 1 + FirstCity(queryLower, cities[1..])
  }

  /** The position of the first keyword of `table` that occurs in
      `queryLower`, or `|table|`. */
  function FirstKeyword(queryLower: string, table: seq<(string, string)>): (k: nat)
    ensures k <= |table|
    ensures forall j :: 0 <= j < k ==> !Contains(queryLower, table[j].0)
    ensures k < |table| ==> Contains(queryLower, table[k].0)
  {
    if table == [] then 0
    else if Contains(queryLower, table[0].0) then 0
    else 1 + FirstKeyword(queryLower, table[1..])
  }

  /** `_fallback_classification(user_query)`: the first listed city found
      in the lower-cased query, the category of the first keyword found in
      it (else `cityinfos`), no parameters and confidence 0.5. */
  function Fallback(userQuery: string): QueryCategory {
    var queryLower := Lower(userQuery);
    var c := FirstCity(queryLower, Cities);
    var k := FirstKeyword(queryLower, KeywordMapping);
    QueryCategory(
      if k < |KeywordMapping| then KeywordMapping[k].1 else "cityinfos",
      if c < |Cities| then Some(Cities[c]) else None,
      [],
      Float("0.5"))
  }

  /** `_fallback_classification(user_query)` as written: two loops, each
      stopping at its first match. */
  method FallbackClassification(userQuery: string) returns (r: QueryCategory)
    ensures r == Fallback(userQuery)
  {
    var queryLower := Lower(userQuery);
    var foundCity := ScanCities(queryLower, Cities);
    var category := ScanKeywords(queryLower, KeywordMapping);
    r := QueryCategory(category, foundCity, [], Float("0.5"));
  }

  /** `for city in cities: if city.lower() in query_lower: found_city = city; break`. */
  method ScanCities(queryLower: string, cities: seq<string>) returns (foundCity: Option<string>)
    ensures var c := FirstCity(queryLower, cities);
      foundCity == if c < |cities| then Some(cities[c]) else None
  {
    foundCity := None;
    var i := 0;
    while i < |cities|
      invariant 0 <= i <= |cities|
      invariant forall j :: 0 <= j < i ==> !Contains(queryLower, Lower(cities[j]))
      invariant foundCity == None
    {
      if Contains(queryLower, Lower(cities[i])) {
        foundCity := Some(cities[i]);
        break;
      }
      i := i + 1;
    }
    assert i == FirstCity(queryLower, cities);
  }

  /** `for keyword, cat in keyword_mapping.items(): if keyword in query_lower:
      category = cat; break`, from the default `cityinfos`. */
  method ScanKeywords(queryLower: string, table: seq<(string, string)>) returns (category: string)
    ensures var k := FirstKeyword(queryLower, table);
      category == if k < |table| then table[k].1 else "cityinfos"
  {
    category := "cityinfos";
    var k := 0;
    while k < |table|
      invariant 0 <= k <= |table|
      invariant forall j :: 0 <= j < k ==> !Contains(queryLower, table[j].0)
      invariant category == "cityinfos"
    {
      if Contains(queryLower, table[k].0) {
        category := table[k].1;
        break;
      }
      k := k + 1;
    }
    assert k == FirstKeyword(queryLower, table);
  }

  /** The fallback answers with a value of the table or `cityinfos`, which
      may be `places_to_visit`, a name outside the nine categories; its
      parameters are empty and its confidence is 0.5. */
  lemma FallbackCategory(userQuery: string)
    ensures Fallback(userQuery).category in FallbackCategories()
    ensures Fallback(userQuery).parameters == [] && Fallback(userQuery).confidence == Float("0.5")
  {
    var k := FirstKeyword(Lower(userQuery), KeywordMapping);
    if k < |KeywordMapping| {
      assert KeywordMapping[k].1 in FallbackCategories();
    }
  }

  /** `places_to_visit`, which `see`, `visit` and `attraction` give, is not
      one of the nine categories. */
  lemma PlacesToVisitOutside()
    ensures "places_to_visit" in FallbackCategories() && "places_to_visit" !in Categories
  {
    assert KeywordMapping[14].1 == "places_to_visit";
  }

  /** The category is that of the first keyword in table order that occurs
      in the lower-cased query, and `cityinfos` exactly when none occurs. */
  lemma FallbackKeyword(userQuery: string, k: nat)
    requires k < |KeywordMapping| && Contains(Lower(userQuery), KeywordMapping[k].0)
    requires forall j :: 0 <= j < k ==> !Contains(Lower(userQuery), KeywordMapping[j].0)
    ensures Fallback(userQuery).category == KeywordMapping[k].1
  {
    assert FirstKeyword(Lower(userQuery), KeywordMapping) == k;
  }

  lemma FallbackNoKeyword(userQuery: string)
    ensures (forall j :: 0 <= j < |KeywordMapping| ==> !Contains(Lower(userQuery), KeywordMapping[j].0))
      <==> Fallback(userQuery).category == "cityinfos"
  {
    DefaultNotInTable();
  }

  /** No keyword of the table maps to the default. */
  lemma DefaultNotInTable()
    ensures forall j :: 0 <= j < |KeywordMapping| ==> KeywordMapping[j].1 != "cityinfos"
  {
  }

  /** The city is the first of the list, in list order, whose lower-case
      name occurs in the lower-cased query; there is none exactly when no
      listed name occurs. */
  lemma FallbackCity(userQuery: string, i: nat)
    requires i < |Cities| && Contains(Lower(userQuery), Lower(Cities[i]))
    requires forall j :: 0 <= j < i ==> !Contains(Lower(userQuery), Lower(Cities[j]))
    ensures Fallback(userQuery).cityName == Some(Cities[i])
  {
    assert FirstCity(Lower(userQuery), Cities) == i;
  }

  lemma FallbackNoCity(userQuery: string)
    ensures (forall j :: 0 <= j < |Cities| ==> !Contains(Lower(userQuery), Lower(Cities[j])))
      <==> Fallback(userQuery).cityName.None?
  {
  }

  // ------------------------------------------------------- the model path

  /** `response[response.find('{'):response.rfind('}') + 1]`, with Python's
      slicing: when there is no `{` the start is -1, which counts from the
      end, so the text is then empty or the single last `}`. The guard
      `start_idx != -1 or end_idx != -1` in front of it always holds, since
      `end_idx` is at least 0. */
  function JsonSlice(response: string): (r: string)
    ensures var a, b := Find(response, '{'), RFind(response, '}');
      a != -1 || b + 1 != -1
    ensures var a, b := Find(response, '{'), RFind(response, '}');
      0 <= a < b ==> r == response[a..b + 1] && r[0] == '{' && r[|r| - 1] == '}'
    ensures Find(response, '{') == -1 ==> r == [] || r == "}"
    ensures RFind(response, '}') == -1 ==> r == []
  {
    Slice(response, Find(response, '{'), RFind(response, '}') + 1)
  }

  /** `category not in self.categories`: only one of the nine strings is
      kept; anything else, a non-string included, becomes `cityinfos`. */
  function ValidCategory(v: Value): (c: string)
    ensures c in Categories
    ensures v.Str? && v.s in Categories ==> c == v.s
    ensures !(v.Str? && v.s in Categories) ==> c == "cityinfos"
  {
    if v.Str? && v.s in Categories then v.s else "cityinfos"
  }

  /** pydantic's `Optional[str]`: `None` or a string; any other value is
      refused. */
  function ValidCity(v: Value): (r: Option<Option<string>>)
    ensures r.Some? <==> v.Null? || v.Str?
    ensures v.Str? ==> r == Some(Some(v.s))
    ensures v.Null? ==> r == Some(None)
  {
    match v
    case Null => Some(None)
    case Str(s) => Some(Some(s))
    case _ => None
  }

  /** pydantic's `Dict[str, str]`: a dict whose every value is a string. */
  function ValidParameters(v: Value): (r: Option<seq<(string, string)>>)
    ensures r.Some? <==> v.Dict? && forall i :: 0 <= i < |v.fields| ==> v.fields[i].1.Str?
    ensures r.Some? ==> |r.value| == |v.fields|
    ensures r.Some? ==> forall i :: 0 <= i < |v.fields| ==> r.value[i] == (v.fields[i].0, v.fields[i].1.s)
  {
    if v.Dict? && forall i :: 0 <= i < |v.fields| ==> v.fields[i].1.Str? then
      Some(seq(|v.fields|, i requires 0 <= i < |v.fields| => (v.fields[i].0, v.fields[i].1.s)))
    else None
  }

  /** pydantic's `float` in lax mode: an int, a float, a bool, or a string
      its float parser accepts; `floatText` says which strings those are. */
  predicate ValidConfidence(v: Value, floatText: string -> bool) {
    v.Int? || v.Float? || v.Bool? || (v.Str? && floatText(v.s))
  }

  /** Building the `QueryCategory` from the decoded data: `None` when it
      raises, because the data is not a dict (`data.get` fails) or pydantic
      refuses a field. */
  function FromModel(data: Value, floatText: string -> bool): (r: Option<QueryCategory>)
    ensures r.Some? ==> data.Dict? && r.value.category in Categories
    ensures r.Some? ==> r.value.category == ValidCategory(GetOr(data.fields, "category", Str("cityinfos")))
    ensures r.Some? && !HasKey(data.fields, "cityName") ==> r.value.cityName.None?
    ensures r.Some? ==> Some(r.value.cityName) == ValidCity(GetValue(data.fields, "cityName"))
    ensures r.Some? ==> Some(r.value.parameters) == ValidParameters(GetOr(data.fields, "parameters", Dict([])))
    ensures r.Some? && !HasKey(data.fields, "parameters") ==> r.value.parameters == []
    ensures r.Some? && !HasKey(data.fields, "confidence") ==> r.value.confidence == Float("0.5")
    ensures r.Some? && HasKey(data.fields, "confidence") ==> Some(r.value.confidence) == Get(data.fields, "confidence")
    ensures data.Dict? ==> (r.None? <==>
      ValidCity(GetValue(data.fields, "cityName")).None?
      || ValidParameters(GetOr(data.fields, "parameters", Dict([]))).None?
      || !ValidConfidence(GetOr(data.fields, "confidence", Float("0.5")), floatText))
  {
    if !data.Dict? then None
    else
      var fs := data.fields;
      var category := ValidCategory(GetOr(fs, "category", Str("cityinfos")));
      var city := ValidCity(GetValue(fs, "cityName"));
      var parameters := ValidParameters(GetOr(fs, "parameters", Dict([])));
      var confidence := GetOr(fs, "confidence", Float("0.5"));
      if city.None? || parameters.None? || !ValidConfidence(confidence, floatText) then None
      else Some(QueryCategory(category, city.value, parameters.value, confidence))
  }

  /** What `llm.invoke` of the prompt for a query returns, or the error it
      raises. The prompt is a fixed text around the query, so the reply is
      taken as a function of the query. */
  type LanguageModel = string -> Result<string>

  /** `classify_query(user_query)`: the model's answer when its reply holds
      a decodable object that pydantic accepts, the keyword fallback on
      every exception. */
  function ClassifyQuery(llm: LanguageModel, decode: Decoder, floatText: string -> bool, userQuery: string): QueryCategory {
    match llm(userQuery)
    case Err(_) => Fallback(userQuery)
    case Ok(response) =>
      match decode(JsonSlice(response))
      case Parsed(data) =>
        (match FromModel(data, floatText)
         case Some(q) => q
         case None => Fallback(userQuery))
      case _ => Fallback(userQuery)
  }

  /** The classifier always answers; a failing model, a reply without a
      decodable slice or data pydantic refuses gives the keyword answer, and
      otherwise the model's category is one of the nine. Either way the
      category is one of the nine or one of the fallback's. */
  lemma ClassifyQueryOutcome(llm: LanguageModel, decode: Decoder, floatText: string -> bool, userQuery: string)
    ensures var r := ClassifyQuery(llm, decode, floatText, userQuery);
      r.category in Categories || r.category in FallbackCategories()
    ensures llm(userQuery).Err? ==> ClassifyQuery(llm, decode, floatText, userQuery) == Fallback(userQuery)
    ensures llm(userQuery).Ok? && !decode(JsonSlice(llm(userQuery).value)).Parsed? ==>
      ClassifyQuery(llm, decode, floatText, userQuery) == Fallback(userQuery)
    ensures llm(userQuery).Ok? && decode(JsonSlice(llm(userQuery).value)).Parsed? ==>
      var q := FromModel(decode(JsonSlice(llm(userQuery).value)).v, floatText);
      ClassifyQuery(llm, decode, floatText, userQuery) == if q.Some? then q.value else Fallback(userQuery)
  {
    FallbackCategory(userQuery);
  }
}
