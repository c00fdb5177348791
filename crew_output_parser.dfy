/** `CrewOutputParser` (crew/crew_output_parser.py): turning the text the
    agents produce into recommendation records, by an ordered chain of
    strategies. The JSON decoder is a parameter. Every way the code can
    raise ends in its outer handler, which returns the empty list, so both
    parsers are total here. */
module CrewOutputParser {
  import opened PyStrings
  import opened PyValues
  import opened OutputPatterns

  /** One extracted record: `{"_id": id, "shops": name}` for shopping,
      `{"_id": id, "name": name}` for food. */
  datatype Pick = Pick(id: string, name: string)

  datatype Kind = Shopping | Food

  // ------------------------------------------------- the decoded records

  /** The elements of `recommendations` the loop keeps: dicts with `_id`,
      and for shopping also `shops`. */
  predicate Kept(kind: Kind, rec: Value) {
    rec.Dict? && HasKey(rec.fields, "_id") && (kind == Food || HasKey(rec.fields, "shops"))
  }

  /** The record built from a kept element: `str(...).strip()` of the id and
      of the name, the food name being `rec.get("name") or
      rec.get("foodPlace") or "Unknown"`. */
  function PickOf(kind: Kind, rec: Value): Pick
    requires Kept(kind, rec)
  {
    var id := Strip(PyStr(GetValue(rec.fields, "_id")));
    match kind
    case Shopping => Pick(id, Strip(PyStr(GetValue(rec.fields, "shops"))))
    case Food => Pick(id, Strip(PyStr(FirstTruthy(rec.fields, ["name", "foodPlace"], Str("Unknown")))))
  }

  /** The elements the loop over the decoded `recommendations` keeps, in
      order. */
  function KeptRecs(kind: Kind, recs: seq<Value>): (r: seq<Value>)
    ensures |r| <= |recs|
    ensures forall k :: 0 <= k < |r| ==> Kept(kind, r[k])
  {
    if recs == [] then []
    else
      var init := recs[..|recs| - 1];
      var last := recs[|recs| - 1];
      if Kept(kind, last) then KeptRecs(kind, init) + [last] else KeptRecs(kind, init)
  }

  /** A list whose every element has the keys is kept whole; one where none
      has them is dropped whole. */
  lemma {:induction false} KeptAllOrNone(kind: Kind, recs: seq<Value>)
    ensures (forall i :: 0 <= i < |recs| ==> Kept(kind, recs[i])) ==> KeptRecs(kind, recs) == recs
    ensures (forall i :: 0 <= i < |recs| ==> !Kept(kind, recs[i])) ==> KeptRecs(kind, recs) == []
    decreases |recs|
  {
    if recs != [] {
      var init := recs[..|recs| - 1];
      KeptAllOrNone(kind, init);
      assert recs == init + [recs[|recs| - 1]];
    }
  }

  /** Keeping works element by element: over two parts one after the other
      it keeps what it keeps of each. */
  lemma {:induction false} KeptConcat(kind: Kind, a: seq<Value>, b: seq<Value>)
    ensures KeptRecs(kind, a + b) == KeptRecs(kind, a) + KeptRecs(kind, b)
    decreases |b|
  {
    if b == [] {
      assert a + b == a;
    } else {
      var b' := b[..|b| - 1];
      assert (a + b)[..|a + b| - 1] == a + b';
      KeptConcat(kind, a, b');
    }
  }

  /** One more element of a list is one more kept element, or none. */
  lemma KeptStep(kind: Kind, recs: seq<Value>, i: nat)
    requires i < |recs|
    ensures KeptRecs(kind, recs[..i + 1]) ==
      KeptRecs(kind, recs[..i]) + (if Kept(kind, recs[i]) then [recs[i]] else [])
  {
    KeptConcat(kind, recs[..i], [recs[i]]);
    assert recs[..i + 1] == recs[..i] + [recs[i]];
  }

  /** An element is kept exactly when it is in the list and has the keys. */
  lemma {:induction false} KeptMembers(kind: Kind, recs: seq<Value>, x: Value)
    ensures x in KeptRecs(kind, recs) <==> x in recs && Kept(kind, x)
    decreases |recs|
  {
    if recs != [] {
      var init := recs[..|recs| - 1];
      assert recs == init + [recs[|recs| - 1]];
      KeptMembers(kind, init, x);
    }
  }

  /** What the loop builds: one record per kept element, in order. */
  function Picks(kind: Kind, recs: seq<Value>): seq<Pick> {
    var kept := KeptRecs(kind, recs);
    seq(|kept|, i requires 0 <= i < |kept| => PickOf(kind, kept[i]))
  }

  /** One more element is one more record when it is kept, none when not. */
  lemma PicksStep(kind: Kind, recs: seq<Value>, i: nat)
    requires i < |recs|
    ensures Picks(kind, recs[..i + 1]) ==
      Picks(kind, recs[..i]) + (if Kept(kind, recs[i]) then [PickOf(kind, recs[i])] else [])
  {
    KeptStep(kind, recs, i);
  }

  /** `for rec in recs: if ...: valid_recs.append({...})`. */
  method CollectPicks(kind: Kind, recs: seq<Value>) returns (valid: seq<Pick>)
    ensures valid == Picks(kind, recs)
  {
    valid := [];
    var i := 0;
    while i < |recs|
      invariant 0 <= i <= |recs|
      invariant valid == Picks(kind, recs[..i])
    {
      PicksStep(kind, recs, i);
      if Kept(kind, recs[i]) {
        valid := valid + [PickOf(kind, recs[i])];
      }
      i := i + 1;
    }
    assert recs[..i] == recs;
  }

  /** A food name is the first truthy of `name` and `foodPlace`, else
      `"Unknown"`. */
  lemma FoodName(rec: Value)
    requires Kept(Food, rec)
    ensures Truthy(GetValue(rec.fields, "name")) ==>
      PickOf(Food, rec).name == Strip(PyStr(GetValue(rec.fields, "name")))
    ensures !Truthy(GetValue(rec.fields, "name")) && Truthy(GetValue(rec.fields, "foodPlace")) ==>
      PickOf(Food, rec).name == Strip(PyStr(GetValue(rec.fields, "foodPlace")))
    ensures !Truthy(GetValue(rec.fields, "name")) && !Truthy(GetValue(rec.fields, "foodPlace")) ==>
      PickOf(Food, rec).name == "Unknown"
  {
    var keys := ["name", "foodPlace"];
    assert keys[0] == "name" && keys[1] == "foodPlace";
    var u := "Unknown";
    assert forall i :: 0 <= i < |u| ==> !IsSpace(u[i]);
    TrimKeeps(u, Spaces);
  }

  // ------------------------------------------------ the regex captures

  /** How the captures are cleaned: `.strip()`, or for the lenient food
      pattern `.strip().strip('"').strip("'")`. */
  datatype Cleaning = Plain | Unquote

  function Clean(c: Cleaning, x: string): string {
    match c
    case Plain => Strip(x)
    case Unquote => StripChar(StripChar(Strip(x), '"'), '\'')
  }

  /** Cleaning only removes characters from the ends. */
  lemma CleanKeeps(c: Cleaning, x: string)
    ensures forall ch :: ch in Clean(c, x) ==> ch in x
    ensures c == Unquote && Clean(c, x) != [] ==>
      Clean(c, x)[0] != '\'' && Clean(c, x)[|Clean(c, x)| - 1] != '\''
  {
    var y := Strip(x);
    TrimKeeps(x, Spaces);
    if c == Unquote {
      var z := StripChar(y, '"');
      TrimKeeps(y, Only('"'));
      TrimKeeps(z, Only('\''));
      var _ := TrimSpec(z, Only('\''));
    }
  }

  /** A 24-digit hex id comes out of cleaning as it went in. */
  lemma CleanHexId(c: Cleaning, x: string)
    requires HexId(x)
    ensures Clean(c, x) == x
  {
    assert forall i :: 0 <= i < |x| ==> IsHexDigit(x[i]);
    TrimKeeps(x, Spaces);
    TrimKeeps(x, Only('"'));
    TrimKeeps(x, Only('\''));
  }

  /** The records built from `re.findall`'s pairs, in order. */
  function CleanPairs(c: Cleaning, ms: seq<(string, string)>): seq<Pick> {
    seq(|ms|, i requires 0 <= i < |ms| => Pick(Clean(c, ms[i].0), Clean(c, ms[i].1)))
  }

  /** `for _id, name in matches: recommendations.append({...})`. */
  method CleanAll(c: Cleaning, ms: seq<(string, string)>) returns (recs: seq<Pick>)
    ensures recs == CleanPairs(c, ms)
  {
    recs := [];
    var i := 0;
    while i < |ms|
      invariant 0 <= i <= |ms|
      invariant |recs| == i && forall k :: 0 <= k < i ==> recs[k] == Pick(Clean(c, ms[k].0), Clean(c, ms[k].1))
    {
      recs := recs + [Pick(Clean(c, ms[i].0), Clean(c, ms[i].1))];
      i := i + 1;
    }
  }

  /** The characters a `([^,\n\r}]+)` capture cannot hold. */
  predicate NameSafe(x: string) {
    forall ch :: ch in x ==> ch != ',' && ch != '\n' && ch != '\r' && ch != '}'
  }

  /** The lenient pattern yields 24-digit hex ids, kept as captured, and
      names without `,`, `}`, CR or LF. */
  lemma CleanLenient(c: Cleaning, ms: seq<(string, string)>)
    requires forall k :: 0 <= k < |ms| ==> HexId(ms[k].0) && NameText(ms[k].1)
    ensures forall k :: 0 <= k < |ms| ==> CleanPairs(c, ms)[k].id == ms[k].0
    ensures forall k :: 0 <= k < |ms| ==> NameSafe(CleanPairs(c, ms)[k].name)
  {
    forall k | 0 <= k < |ms|
      ensures CleanPairs(c, ms)[k].id == ms[k].0 && NameSafe(CleanPairs(c, ms)[k].name)
    {
      CleanHexId(c, ms[k].0);
      CleanKeeps(c, ms[k].1);
      var x := ms[k].1;
      forall ch | ch in x ensures InNameClass(ch) {
        var m :| 0 <= m < |x| && x[m] == ch;
      }
    }
  }

  // ------------------------------------------------------------ shopping

  /** `first_brace = find('{')`, `last_brace = rfind('}')` and the test
      `last_brace > first_brace`: the braces that delimit the candidate,
      which exist exactly when some `{` comes before some `}`. */
  function BraceSpan(s: string): (r: Option<(nat, nat)>)
    ensures r.Some? ==> r.value.0 < r.value.1 < |s| && s[r.value.0] == '{' && s[r.value.1] == '}'
    ensures r.Some? ==> forall m :: 0 <= m < r.value.0 ==> s[m] != '{'
    ensures r.Some? ==> forall m :: r.value.1 < m < |s| ==> s[m] != '}'
    ensures r.None? <==> forall i, j :: 0 <= i < j < |s| && s[i] == '{' ==> s[j] != '}'
  {
    var first, last := Find(s, '{'), RFind(s, '}');
    if first != -1 && last != -1 && last > first then Some((first, last)) else None
  }

  /** `output_str[first_brace:last_brace + 1]`. */
  function ShoppingCandidate(s: string): (r: Option<string>)
    ensures r.Some? ==> |r.value| >= 2 && r.value[0] == '{' && r.value[|r.value| - 1] == '}'
  {
    match BraceSpan(s)
    case None => None
    case Some(span) => Some(s[span.0..span.1 + 1])
  }

  /** Text around a brace-delimited body, with no `{` before it and no `}`
      after it, has that body as its candidate. */
  lemma SurroundedCandidate(prefix: string, body: string, suffix: string)
    requires |body| >= 2 && body[0] == '{' && body[|body| - 1] == '}'
    requires forall m :: 0 <= m < |prefix| ==> prefix[m] != '{'
    requires forall m :: 0 <= m < |suffix| ==> suffix[m] != '}'
    ensures ShoppingCandidate(prefix + body + suffix) == Some(body)
  {
    var s := prefix + body + suffix;
    var a, b := |prefix|, |prefix| + |body| - 1;
    assert s[a] == '{' && s[b] == '}';
    var span := BraceSpan(s).value;
    assert span.0 == a by {
      assert forall m :: 0 <= m < a ==> s[m] == prefix[m];
    }
    assert span.1 == b by {
      assert forall m :: b < m < |s| ==> s[m] == suffix[m - b - 1];
    }
    assert s[a..b + 1] == body;
  }

  /** How the first strategy ends: with the records to return, by handing
      over to the next strategy, or in the outer handler (the result `[]`). */
  datatype Stage = Done(picks: seq<Pick>) | Next | Fail

  /** The list under `recommendations`, when `v` is a dict that has one. */
  function RecList(v: Value): (r: Option<seq<Value>>)
    ensures r.Some? <==> v.Dict? && HasKey(v.fields, "recommendations") && GetValue(v.fields, "recommendations").List?
  {
    if v.Dict? && HasKey(v.fields, "recommendations") then
      match GetValue(v.fields, "recommendations")
      case List(items) => Some(items)
      case _ => None
    else None
  }

  /** The JSON strategy of `parse_shopping_recommendations`. Only
      `json.JSONDecodeError` is caught on the spot; any other exception
      reaches the outer handler. */
  function ShoppingJson(decode: Decoder, s: string): Stage {
    match ShoppingCandidate(s)
    case None => Next
    case Some(candidate) =>
      match decode(candidate)
      case Malformed(_) => Next
      case Rejected(_) => Fail
      case Crashed(_) => Fail
      case Parsed(data) =>
        match RecList(data)
        case Some(recs) => Done(Picks(Shopping, recs))
        case None => Next
  }

  /** `parse_shopping_recommendations(output)`: the JSON records; else the
      pairs of the lenient `_id`/`shops` pattern; else `[]` (the scan for
      bare ids and quoted strings that follows only prints). */
  function ShoppingResult(decode: Decoder, s: string): seq<Pick> {
    match ShoppingJson(decode, s)
    case Done(picks) => picks
    case Fail => []
    case Next => ShoppingFallback(s)
  }

  /** The regex strategy of `parse_shopping_recommendations`. */
  function ShoppingFallback(s: string): seq<Pick> {
    CleanPairs(Plain, FindAllLenient(s, 0, Shops))
  }

  method ParseShopping(decode: Decoder, output: string) returns (result: seq<Pick>)
    ensures result == ShoppingResult(decode, output)
  {
    var span := BraceSpan(output);
    if span.Some? {
      var candidate := output[span.value.0..span.value.1 + 1];
      assert ShoppingCandidate(output) == Some(candidate);
      var outcome := decode(candidate);
      if outcome.Rejected? || outcome.Crashed? {
        return [];
      }
      if outcome.Parsed? && RecList(outcome.v).Some? {
        result := CollectPicks(Shopping, RecList(outcome.v).value);
        return;
      }
    }
    assert ShoppingJson(decode, output) == Next;
    var matches := FindAllLenient(output, 0, Shops);
    if matches != [] {
      result := CleanAll(Plain, matches);
      return;
    }
    result := [];
  }

  /** A decoded object with a `recommendations` list decides the result,
      even when no element is kept: the regex is not consulted then. */
  lemma ShoppingJsonDecides(decode: Decoder, s: string, data: Value)
    requires ShoppingCandidate(s).Some? && decode(ShoppingCandidate(s).value) == Parsed(data)
    requires RecList(data).Some?
    ensures ShoppingResult(decode, s) == Picks(Shopping, RecList(data).value)
  {
  }

  /** Without a `{` before a `}` the decoder is never called, and the result
      is what the lenient pattern finds. */
  lemma ShoppingWithoutBraces(d1: Decoder, d2: Decoder, s: string)
    requires forall i, j :: 0 <= i < j < |s| && s[i] == '{' ==> s[j] != '}'
    ensures ShoppingResult(d1, s) == ShoppingResult(d2, s) == ShoppingFallback(s)
  {
  }

  /** Records that come from the regex have 24-digit hex ids and names
      without `,`, `}`, CR or LF. */
  lemma ShoppingRegexRecords(decode: Decoder, s: string)
    requires !ShoppingJson(decode, s).Done?
    ensures forall k :: 0 <= k < |ShoppingResult(decode, s)| ==>
      HexId(ShoppingResult(decode, s)[k].id) && NameSafe(ShoppingResult(decode, s)[k].name)
  {
    CleanLenient(Plain, FindAllLenient(s, 0, Shops));
  }

  /** A decoder error other than `json.JSONDecodeError` ends in the outer
      handler. */
  lemma ShoppingDecoderFailure(decode: Decoder, s: string)
    requires ShoppingCandidate(s).Some?
    requires decode(ShoppingCandidate(s).value).Rejected? || decode(ShoppingCandidate(s).value).Crashed?
    ensures ShoppingResult(decode, s) == []
  {
  }

  // ---------------------------------------------------------------- food

  /** The text `parse_food_recommendations` hands to `json.loads`: the match
      of the candidate pattern with every run of whitespace made one space.
      It still starts with `{` and ends with `}`, keeps every other
      character in order, and has no two whitespace characters in a row. */
  function FoodCandidate(cleaned: string): (r: Option<string>)
    ensures r.Some? ==> |r.value| >= 2 && r.value[0] == '{' && r.value[|r.value| - 1] == '}'
    ensures r.Some? ==> forall i :: 0 <= i < |r.value| && IsSpace(r.value[i]) ==> r.value[i] == ' '
    ensures r.Some? ==> forall i :: 0 <= i < |r.value| - 1 ==> !(IsSpace(r.value[i]) && IsSpace(r.value[i + 1]))
    ensures r.Some? <==> JsonObjectCandidate(cleaned).Some?
    ensures r.Some? ==> NonSpace(r.value) == NonSpace(JsonObjectCandidate(cleaned).value)
  {
    match JsonObjectCandidate(cleaned)
    case None => None
    case Some(g) =>
      var t := CollapseSpaces(g);
      CollapseSpacesShape(g);
      CollapseSpacesKeepsText(g);
      BracedCollapse(g);
      Some(t)
  }

  /** Collapsing whitespace keeps the braces at the two ends. */
  lemma BracedCollapse(g: string)
    requires |g| >= 2 && g[0] == '{' && g[|g| - 1] == '}'
    ensures var t := CollapseSpaces(g); |t| >= 2 && t[0] == '{' && t[|t| - 1] == '}'
  {
    var t := CollapseSpaces(g);
    CollapseSpacesShape(g);
    CollapseSpacesKeepsText(g);
    NonSpaceEnds(g);
    assert NonSpace(g) != [] && NonSpace(g)[0] == '{' && NonSpace(g)[|NonSpace(g)| - 1] == '}';
    if |t| < 2 {
      NonSpaceShort(t);
    } else {
      NonSpaceEnds(t);
    }
  }

  /** A text that starts and ends with non-whitespace starts and ends its
      `NonSpace` with the same characters. */
  lemma {:induction false} NonSpaceEnds(s: string)
    requires s != [] && !IsSpace(s[0]) && !IsSpace(s[|s| - 1])
    ensures NonSpace(s) != [] && NonSpace(s)[0] == s[0] && NonSpace(s)[|NonSpace(s)| - 1] == s[|s| - 1]
  {
    var init := s[..|s| - 1];
    assert s == init + [s[|s| - 1]];
    NonSpaceConcat(init, [s[|s| - 1]]);
    assert NonSpace([s[|s| - 1]]) == [s[|s| - 1]];
    if |s| > 1 {
      assert s == [s[0]] + s[1..];
    }
  }

  /** A text of fewer than two characters has fewer than two non-whitespace
      ones. */
  lemma NonSpaceShort(s: string)
    requires |s| < 2
    ensures |NonSpace(s)| < 2
  {
    if s != [] {
      assert s[1..] == [];
    }
  }

  /** `"recommendations" in data` and what follows it, for each kind of
      decoded value: a dict is looked up; a list or a string that holds the
      key raises `TypeError` when indexed by it, and `in` raises it on any
      other value. `TypeError` is not caught by the JSON strategy. An empty
      list of records hands over to the next strategy. */
  function FoodData(data: Value): Stage {
    match data
    case Dict(_) =>
      (match RecList(data)
       case Some(recs) => var picks := Picks(Food, recs); if picks == [] then Next else Done(picks)
       case None => Next)
    case List(items) => if Str("recommendations") in items then Fail else Next
    case Str(t) => if Contains(t, "recommendations") then Fail else Next
    case _ => Fail
  }

  /** The JSON strategy of `parse_food_recommendations`: `json.JSONDecodeError`
      and `ValueError` are caught on the spot. */
  function FoodJson(decode: Decoder, cleaned: string): Stage {
    match FoodCandidate(cleaned)
    case None => Next
    case Some(text) =>
      match decode(text)
      case Malformed(_) => Next
      case Rejected(_) => Next
      case Crashed(_) => Fail
      case Parsed(data) => FoodData(data)
  }

  /** `parse_food_recommendations(output)` on `cleaned = output.strip()`:
      the JSON records when there are any; else the quoted pairs when there
      are any; else the lenient pairs, quotes stripped. */
  function FoodResult(decode: Decoder, s: string): seq<Pick> {
    var cleaned := Strip(s);
    match FoodJson(decode, cleaned)
    case Done(picks) => picks
    case Fail => []
    case Next => FoodFallback(cleaned)
  }

  /** The two regex strategies of `parse_food_recommendations`. */
  function FoodFallback(cleaned: string): seq<Pick> {
    var quoted := FindAllQuoted(cleaned, 0);
    if quoted != [] then CleanPairs(Plain, quoted)
    else CleanPairs(Unquote, FindAllLenient(cleaned, 0, NameOrFoodPlace))
  }

  method ParseFood(decode: Decoder, output: string) returns (result: seq<Pick>)
    ensures result == FoodResult(decode, output)
  {
    var cleaned := Strip(output);
    var stage := FoodJsonStage(decode, cleaned);
    match stage
    case Done(picks) => result := picks;
    case Fail => result := [];
    case Next => result := FoodRegex(cleaned);
  }

  /** The `try` around `json.loads` of the food parser: the collected
      records, or the word to go on to the regex strategies, or to give up. */
  method FoodJsonStage(decode: Decoder, cleaned: string) returns (stage: Stage)
    ensures stage == FoodJson(decode, cleaned)
  {
    var text := FoodCandidate(cleaned);
    if text.None? {
      return Next;
    }
    var outcome := decode(text.value);
    if outcome.Crashed? {
      return Fail;
    }
    if !outcome.Parsed? {
      return Next;
    }
    var data := outcome.v;
    if data.Dict? {
      if RecList(data).Some? {
        var valid := CollectPicks(Food, RecList(data).value);
        if valid != [] {
          return Done(valid);
        }
      }
      return Next;
    } else if data.List? {
      if Str("recommendations") in data.items {
        return Fail;
      }
      return Next;
    } else if data.Str? {
      if Contains(data.s, "recommendations") {
        return Fail;
      }
      return Next;
    }
    return Fail;
  }

  /** The two regex strategies, each a loop over `re.findall`'s pairs. */
  method FoodRegex(cleaned: string) returns (result: seq<Pick>)
    ensures result == FoodFallback(cleaned)
  {
    var matches := FindAllQuoted(cleaned, 0);
    if matches != [] {
      result := CleanAll(Plain, matches);
      return;
    }
    var matches2 := FindAllLenient(cleaned, 0, NameOrFoodPlace);
    result := CleanAll(Unquote, matches2);
  }

  /** A decoded object whose `recommendations` list keeps some element
      decides the result; when it keeps none, the regex strategies run as if
      there had been no JSON. */
  lemma FoodJsonDecides(decode: Decoder, s: string, data: Value)
    requires FoodCandidate(Strip(s)).Some? && decode(FoodCandidate(Strip(s)).value) == Parsed(data)
    requires data.Dict? && RecList(data).Some?
    ensures Picks(Food, RecList(data).value) != [] ==> FoodResult(decode, s) == Picks(Food, RecList(data).value)
    ensures Picks(Food, RecList(data).value) == [] ==> FoodResult(decode, s) == FoodFallback(Strip(s))
  {
  }

  /** The strategies run strictly in order: the quoted pairs only after the
      JSON strategy handed over, the lenient pairs only when there are no
      quoted pairs. */
  lemma FoodOrder(decode: Decoder, s: string)
    requires FoodJson(decode, Strip(s)).Next?
    ensures FindAllQuoted(Strip(s), 0) != [] ==> FoodResult(decode, s) == CleanPairs(Plain, FindAllQuoted(Strip(s), 0))
    ensures FindAllQuoted(Strip(s), 0) == [] ==>
      FoodResult(decode, s) == CleanPairs(Unquote, FindAllLenient(Strip(s), 0, NameOrFoodPlace))
  {
  }

  /** Lenient captures keep their 24-digit hex id and lose whitespace and
      quotes at the ends of the name: it holds no `,`, `}`, CR or LF, and
      neither starts nor ends with `'`. */
  lemma FoodLenientRecords(decode: Decoder, s: string)
    requires FoodJson(decode, Strip(s)).Next? && FindAllQuoted(Strip(s), 0) == []
    ensures forall k :: 0 <= k < |FoodResult(decode, s)| ==>
      var p := FoodResult(decode, s)[k];
      && HexId(p.id) && NameSafe(p.name)
      && (p.name != [] ==> p.name[0] != '\'' && p.name[|p.name| - 1] != '\'')
  {
    var ms := FindAllLenient(Strip(s), 0, NameOrFoodPlace);
    assert FoodResult(decode, s) == CleanPairs(Unquote, ms);
    CleanLenient(Unquote, ms);
    forall k | 0 <= k < |ms| ensures var n := CleanPairs(Unquote, ms)[k].name;
      n != [] ==> n[0] != '\'' && n[|n| - 1] != '\''
    {
      CleanKeeps(Unquote, ms[k].1);
    }
  }

  /** Quoted captures hold no `"`. */
  lemma FoodQuotedRecords(decode: Decoder, s: string)
    requires FoodJson(decode, Strip(s)).Next? && FindAllQuoted(Strip(s), 0) != []
    ensures forall k :: 0 <= k < |FoodResult(decode, s)| ==>
      '"' !in FoodResult(decode, s)[k].id && '"' !in FoodResult(decode, s)[k].name
  {
    var ms := FindAllQuoted(Strip(s), 0);
    assert FoodResult(decode, s) == CleanPairs(Plain, ms);
    CleanQuoted(ms);
  }

  lemma CleanQuoted(ms: seq<(string, string)>)
    requires forall k :: 0 <= k < |ms| ==> Unquoted(ms[k].0) && Unquoted(ms[k].1)
    ensures forall k :: 0 <= k < |ms| ==> '"' !in CleanPairs(Plain, ms)[k].id && '"' !in CleanPairs(Plain, ms)[k].name
  {
    forall k | 0 <= k < |ms| ensures '"' !in Strip(ms[k].0) && '"' !in Strip(ms[k].1) {
      CleanKeeps(Plain, ms[k].0);
      CleanKeeps(Plain, ms[k].1);
    }
  }

  // -------------------------------------------- the parser's test fixtures

  const TestBody1: string :=
    "{\n    \"recommendations\": [\n"
    + "        {\"_id\": \"68c7f27e20f4dc4834768b6d\", \"shops\": \"JDS Banaras\"},\n"
    + "        {\"_id\": \"68c7f27e20f4dc4834768b6e\", \"shops\": \"ALBELI\"}\n"
    + "    ]\n}"

  const TestBody2: string :=
    "{\n    \"recommendations\": [\n        {\n"
    + "            \"_id\": \"68c7f27e20f4dc4834768b6d\",\n"
    + "            \"shops\": \"JDS Banaras\"\n        },\n        {\n"
    + "            \"_id\": \"68c7f27e20f4dc4834768b6e\",\n"
    + "            \"shops\": \"ALBELI Shop\"\n        }\n    ]\n}"

  const TestBody3: string :=
    "{\n    \"recommendations\": [\n"
    + "        {\"_id\": \"test123\", \"shops\": \"Test Shop\"}\n"
    + "    ]\n}"

  /** The three outputs of test_parser.py: plain JSON, JSON between
      newlines, and JSON between lines of prose. */
  const TestOutput1: string := TestBody1
  const TestOutput2: string := "\n" + TestBody2 + "\n"
  const TestOutput3: string := "Here are the recommendations:\n" + TestBody3 + "\nThat's all!"

  /** The object RFC 8259 assigns to a fixture's body: one record per pair. */
  function ShopRecords(pairs: seq<(string, string)>): Value {
    Dict([("recommendations", List(seq(|pairs|, i requires 0 <= i < |pairs| =>
      ShopRecord(pairs[i].0, pairs[i].1))))])
  }

  /** One record of a fixture: `{"_id": id, "shops": name}`. */
  function ShopRecord(id: string, name: string): Value {
    Dict([("_id", Str(id)), ("shops", Str(name))])
  }

  /** A fixture record is kept, and converts back to its texts when they
      neither start nor end with whitespace. */
  lemma ShopRecordPick(id: string, name: string)
    requires Bare(id) && Bare(name)
    ensures Kept(Shopping, ShopRecord(id, name))
    ensures PickOf(Shopping, ShopRecord(id, name)) == Pick(id, name)
  {
    var fs := ShopRecord(id, name).fields;
    assert fs[0].0 == "_id" && fs[1].0 == "shops";
    assert GetValue(fs, "_id") == Str(id);
    assert GetValue(fs, "shops") == Str(name);
    TrimKeeps(id, Spaces);
    TrimKeeps(name, Spaces);
  }

  /** Kept and converted, the records of `ShopRecords` are the pairs again,
      when no text in them starts or ends with whitespace. */
  lemma ShopRecordsPicks(pairs: seq<(string, string)>)
    requires forall i :: 0 <= i < |pairs| ==> Bare(pairs[i].0) && Bare(pairs[i].1)
    ensures RecList(ShopRecords(pairs)).Some?
    ensures var p := Picks(Shopping, RecList(ShopRecords(pairs)).value);
      |p| == |pairs| && forall i :: 0 <= i < |pairs| ==> p[i] == Pick(pairs[i].0, pairs[i].1)
  {
    var v := ShopRecords(pairs);
    assert v.fields[0].0 == "recommendations";
    var recs := v.fields[0].1.items;
    assert RecList(v) == Some(recs);
    forall i | 0 <= i < |recs| ensures Kept(Shopping, recs[i]) && PickOf(Shopping, recs[i]) == Pick(pairs[i].0, pairs[i].1) {
      assert recs[i] == ShopRecord(pairs[i].0, pairs[i].1);
      ShopRecordPick(pairs[i].0, pairs[i].1);
    }
    KeptAllOrNone(Shopping, recs);
  }

  /** Neither starts nor ends with whitespace. */
  predicate Bare(x: string) {
    x != [] && !IsSpace(x[0]) && !IsSpace(x[|x| - 1])
  }

  /** A brace-delimited object between text without braces yields the
      records of its decoded pairs, in order. */
  lemma SurroundedRecords(decode: Decoder, prefix: string, body: string, suffix: string, pairs: seq<(string, string)>)
    requires |body| >= 2 && body[0] == '{' && body[|body| - 1] == '}'
    requires forall m :: 0 <= m < |prefix| ==> prefix[m] != '{'
    requires forall m :: 0 <= m < |suffix| ==> suffix[m] != '}'
    requires decode(body) == Parsed(ShopRecords(pairs))
    requires forall i :: 0 <= i < |pairs| ==> Bare(pairs[i].0) && Bare(pairs[i].1)
    ensures var r := ShoppingResult(decode, prefix + body + suffix);
      |r| == |pairs| && forall i :: 0 <= i < |pairs| ==> r[i] == Pick(pairs[i].0, pairs[i].1)
  {
    SurroundedCandidate(prefix, body, suffix);
    ShopRecordsPicks(pairs);
  }

  /** Test case 1 yields its two records. */
  lemma TestCase1(decode: Decoder)
    requires decode(TestBody1) == Parsed(ShopRecords([("68c7f27e20f4dc4834768b6d", "JDS Banaras"), ("68c7f27e20f4dc4834768b6e", "ALBELI")]))
    ensures var r := ShoppingResult(decode, TestOutput1);
      |r| == 2 && r[0] == Pick("68c7f27e20f4dc4834768b6d", "JDS Banaras") && r[1] == Pick("68c7f27e20f4dc4834768b6e", "ALBELI")
  {
    var pairs := [("68c7f27e20f4dc4834768b6d", "JDS Banaras"), ("68c7f27e20f4dc4834768b6e", "ALBELI")];
    assert Bare(pairs[0].0) && Bare(pairs[0].1) && Bare(pairs[1].0) && Bare(pairs[1].1);
    assert "" + TestBody1 + "" == TestOutput1;
    SurroundedRecords(decode, "", TestBody1, "", pairs);
  }

  /** Test case 2 yields its two records: the newlines around the object
      are outside the candidate. */
  lemma TestCase2(decode: Decoder)
    requires decode(TestBody2) == Parsed(ShopRecords([("68c7f27e20f4dc4834768b6d", "JDS Banaras"), ("68c7f27e20f4dc4834768b6e", "ALBELI Shop")]))
    ensures var r := ShoppingResult(decode, TestOutput2);
      |r| == 2 && r[0] == Pick("68c7f27e20f4dc4834768b6d", "JDS Banaras") && r[1] == Pick("68c7f27e20f4dc4834768b6e", "ALBELI Shop")
  {
    var pairs := [("68c7f27e20f4dc4834768b6d", "JDS Banaras"), ("68c7f27e20f4dc4834768b6e", "ALBELI Shop")];
    assert Bare(pairs[0].0) && Bare(pairs[0].1) && Bare(pairs[1].0) && Bare(pairs[1].1);
    SurroundedRecords(decode, "\n", TestBody2, "\n", pairs);
  }

  /** Test case 3 yields its one record, with the id `test123` kept as it
      is although it is not an ObjectId. */
  lemma TestCase3(decode: Decoder)
    requires decode(TestBody3) == Parsed(ShopRecords([("test123", "Test Shop")]))
    ensures ShoppingResult(decode, TestOutput3) == [Pick("test123", "Test Shop")]
  {
    var prefix, suffix := "Here are the recommendations:\n", "\nThat's all!";
    assert forall m :: 0 <= m < |prefix| ==> prefix[m] != '{';
    assert forall m :: 0 <= m < |suffix| ==> suffix[m] != '}';
    var pairs := [("test123", "Test Shop")];
    assert Bare(pairs[0].0) && Bare(pairs[0].1);
    SurroundedRecords(decode, prefix, TestBody3, suffix, pairs);
  }
}
