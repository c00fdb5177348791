/** `RecommendationService` (services/recommendation_service.py): the
    envelope around the crew's answer, the query text built for a category
    search, and the hydration of picked records against a collection. The
    classifier, the crew, the database and the elapsed time are parameters. */
module RecommendationService {
  import opened PyStrings
  import opened PyValues
  import opened MongoStore
  import opened QueryClassifier

  // ------------------------------------------------ convert_objectid_to_str

  /** `convert_objectid_to_str(data)`: every `ObjectId` at any depth becomes
      its hex text; dicts keep their keys in order, lists their length and
      order, and any other value is returned as it is. */
  function ConvertObjectIdToStr(v: Value): (r: Value)
    ensures NoOid(r)
    ensures v.Oid? ==> r == Str(v.hex)
    ensures v.List? ==> r.List? && |r.items| == |v.items|
    ensures v.Dict? ==> r.Dict? && Keys(r.fields) == Keys(v.fields)
    ensures !v.Oid? && !v.List? && !v.Dict? ==> r == v
  {
    match v
    case Oid(h) => Str(h)
    case List(items) =>
      List(seq(|items|, i requires 0 <= i < |items| => ConvertObjectIdToStr(items[i])))
    case Dict(fs) =>
      var r := seq(|fs|, i requires 0 <= i < |fs| => (fs[i].0, ConvertObjectIdToStr(fs[i].1)));
      assert Keys(r) == Keys(fs);
      Dict(r)
    case _ => v
  }

  /** A value without `ObjectId`s is left as it is. */
  lemma {:induction false} ConvertWithoutOid(v: Value)
    requires NoOid(v)
    ensures ConvertObjectIdToStr(v) == v
    decreases v
  {
    match v
    case List(items) =>
      forall i | 0 <= i < |items| ensures ConvertObjectIdToStr(items[i]) == items[i] {
        ConvertWithoutOid(items[i]);
      }
    case Dict(fs) =>
      forall i | 0 <= i < |fs| ensures ConvertObjectIdToStr(fs[i].1) == fs[i].1 {
        ConvertWithoutOid(fs[i].1);
      }
    case _ =>
  }

  /** Converting twice is converting once. */
  lemma ConvertIdempotent(v: Value)
    ensures ConvertObjectIdToStr(ConvertObjectIdToStr(v)) == ConvertObjectIdToStr(v)
  {
    ConvertWithoutOid(ConvertObjectIdToStr(v));
  }

  /** Each element of a list and each value of a dict is converted in place. */
  lemma ConvertChildren(v: Value)
    ensures v.List? ==> forall i :: 0 <= i < |v.items| ==>
      ConvertObjectIdToStr(v).items[i] == ConvertObjectIdToStr(v.items[i])
    ensures v.Dict? ==> forall i :: 0 <= i < |v.fields| ==>
      ConvertObjectIdToStr(v).fields[i] == (v.fields[i].0, ConvertObjectIdToStr(v.fields[i].1))
  {
  }

  // ------------------------------------------- get_recommendation_by_category

  /** The filters whose value is truthy, in order. */
  function TruthyFilters(filters: Fields): (r: Fields)
    ensures |r| <= |filters|
    ensures forall k :: 0 <= k < |r| ==> Truthy(r[k].1) && r[k] in filters
  {
    if filters == [] then []
    else
      var init := filters[..|filters| - 1];
      var last := filters[|filters| - 1];
      if Truthy(last.1) then TruthyFilters(init) + [last] else TruthyFilters(init)
  }

  lemma {:induction false} TruthyFiltersStep(filters: Fields, i: nat)
    requires i < |filters|
    ensures TruthyFilters(filters[..i + 1]) ==
      TruthyFilters(filters[..i]) + (if Truthy(filters[i].1) then [filters[i]] else [])
  {
    assert filters[..i + 1][..i] == filters[..i];
  }

  /** `f"{key}: {value}"`. */
  function FilterPart(key: string, value: Value): string {
    key + ": " + PyStr(value)
  }

  /** `query_parts`: `"<category> in <city>"`, then one part per truthy
      filter, in order. */
  function QueryParts(category: string, city: string, filters: Fields): (r: seq<string>) {
    var kept := TruthyFilters(filters);
    [category + " in " + city] + seq(|kept|, i requires 0 <= i < |kept| => FilterPart(kept[i].0, kept[i].1))
  }

  /** The loop of `get_recommendation_by_category` and `" ".join(query_parts)`. */
  method ByCategoryQuery(category: string, city: string, filters: Fields) returns (userQuery: string)
    ensures userQuery == Join(" ", QueryParts(category, city, filters))
  {
    var queryParts := [category + " in " + city];
    var i := 0;
    while i < |filters|
      invariant 0 <= i <= |filters|
      invariant queryParts == QueryParts(category, city, filters[..i])
    {
      TruthyFiltersStep(filters, i);
      var (key, value) := filters[i];
      if Truthy(value) {
        queryParts := queryParts + [FilterPart(key, value)];
      }
      i := i + 1;
    }
    assert filters[..i] == filters;
    userQuery := Join(" ", queryParts);
  }

  /** Joining with a space a head and more parts is the head followed by
      each part behind its own space. */
  lemma {:induction false} JoinAfterHead(head: string, parts: seq<string>)
    ensures Join(" ", [head] + parts) == head + Flatten(seq(|parts|, i requires 0 <= i < |parts| => " " + parts[i]))
    decreases |parts|
  {
    var spaced := seq(|parts|, i requires 0 <= i < |parts| => " " + parts[i]);
    if parts == [] {
      assert spaced == [];
    } else {
      var rest := parts[1..];
      JoinAfterHead(parts[0], rest);
      var spacedRest := seq(|rest|, i requires 0 <= i < |rest| => " " + rest[i]);
      assert spaced == [" " + parts[0]] + spacedRest;
      assert ([head] + parts)[1..] == [parts[0]] + rest;
    }
  }

  /** The query is `"<category> in <city>"` followed by `" <key>: <value>"`
      for every filter with a truthy value, in order; filters with a falsy
      value leave no trace. */
  lemma ByCategoryQueryText(category: string, city: string, filters: Fields)
    ensures var kept := TruthyFilters(filters);
      Join(" ", QueryParts(category, city, filters)) ==
        category + " in " + city + Flatten(seq(|kept|, i requires 0 <= i < |kept| => " " + FilterPart(kept[i].0, kept[i].1)))
  {
    var kept := TruthyFilters(filters);
    var parts := seq(|kept|, i requires 0 <= i < |kept| => FilterPart(kept[i].0, kept[i].1));
    JoinAfterHead(category + " in " + city, parts);
    assert seq(|parts|, i requires 0 <= i < |parts| => " " + parts[i]) ==
      seq(|kept|, i requires 0 <= i < |kept| => " " + FilterPart(kept[i].0, kept[i].1));
  }

  /** With every filter truthy all of them are used. */
  lemma {:induction false} AllFiltersTruthy(filters: Fields)
    requires forall i :: 0 <= i < |filters| ==> Truthy(filters[i].1)
    ensures TruthyFilters(filters) == filters
    decreases |filters|
  {
    if filters != [] {
      var n := |filters| - 1;
      assert Truthy(filters[n].1);
      AllFiltersTruthy(filters[..n]);
      assert filters == filters[..n] + [filters[n]];
    }
  }

  /** With no filter truthy the query is only `"<category> in <city>"`. */
  lemma {:induction false} NoFilterTruthy(filters: Fields)
    requires forall i :: 0 <= i < |filters| ==> !Truthy(filters[i].1)
    ensures TruthyFilters(filters) == []
    decreases |filters|
  {
    if filters != [] {
      var n := |filters| - 1;
      assert !Truthy(filters[n].1);
      NoFilterTruthy(filters[..n]);
    }
  }

  // ------------------------------------------------------------ _get_full_data

  /** How the lookups for one record end. */
  datatype Outcome =
    | ById(doc: Value)     // `find_one({"_id": ObjectId(rec["_id"])})` found it
    | ByName(doc: Value)   // the exact or the case-insensitive name lookup found it
    | NotFound             // nothing found, or no truthy name to look for
    | Failed(msg: string)  // a name lookup raised

  /** The lookup by `_id`: `None` when the record has no `_id`, when
      `ObjectId(...)` refuses it, when the query raises (all swallowed by
      the bare `except`) or when nothing matches. */
  function IdLookup(c: Collection, rec: Fields): Value {
    if !HasKey(rec, "_id") then Null
    else
      match ObjectIdOf(GetValue(rec, "_id"))
      case None => Null
      case Some(h) =>
        match FindOne(c, [("_id", Oid(h))])
        case Ok(Some(d)) => d
        case _ => Null
  }

  /** The field names are looked for in: `foodPlace` for `foods`, `shops`
      for `shoppings`, `name` otherwise. */
  function NameField(category: string): (f: string)
    ensures f == "foodPlace" <==> category == "foods"
    ensures f == "shops" <==> category == "shoppings"
    ensures f == "name" <==> category != "foods" && category != "shoppings"
  {
    if category == "foods" then "foodPlace"
    else if category == "shoppings" then "shops"
    else "name"
  }

  /** `rec.get("name") or rec.get("foodPlace") or rec.get("shops")`. */
  function SearchName(rec: Fields): Value {
    FirstTruthy(rec, ["name", "foodPlace"], GetValue(rec, "shops"))
  }

  /** The exact lookup, then the case-insensitive one; a raise of either
      is the error. */
  function NameLookup(c: Collection, field: string, name: Value): Result<Value> {
    match FindOne(c, [(field, name)])
    case Err(m) => Err(m)
    case Ok(d) =>
      var doc := if d.Some? then d.value else Null;
      if Truthy(doc) then Ok(doc)
      else
        match FindOne(c, [(field, AnchoredIgnoreCase(PyStr(name)))])
        case Err(m) => Err(m)
        case Ok(d2) => Ok(if d2.Some? then d2.value else Null)
  }

  /** The lookups for one record, in their order: by `_id`, then, when the
      search name is truthy, by exact name and by name up to case. */
  function Resolve(c: Collection, category: string, rec: Fields): Outcome {
    var byId := IdLookup(c, rec);
    if Truthy(byId) then ById(byId)
    else
      var name := SearchName(rec);
      if !Truthy(name) then NotFound
      else
        match NameLookup(c, NameField(category), name)
        case Err(m) => Failed(m)
        case Ok(d) => if Truthy(d) then ByName(d) else NotFound
  }

  /** A record whose `_id` is a 24-digit hex text with a matching document
      is resolved to the first such document, whatever its names say. */
  lemma ResolveById(c: Collection, category: string, rec: Fields, k: nat)
    requires HasKey(rec, "_id") && ObjectIdOf(GetValue(rec, "_id")).Some?
    requires var filter := [("_id", Oid(ObjectIdOf(GetValue(rec, "_id")).value))];
      c.refuse(filter).None? && k < |c.docs| && Matches(Erase(c.docs[k]), filter)
        && forall j :: 0 <= j < k ==> !Matches(Erase(c.docs[j]), filter)
    ensures Resolve(c, category, rec) == ById(Erase(c.docs[k]))
  {
    var filter := [("_id", Oid(ObjectIdOf(GetValue(rec, "_id")).value))];
    var d := Erase(c.docs[k]);
    assert FirstMatch(c.docs, filter) == k;
    assert FindOne(c, filter) == Ok(Some(d));
    assert IdLookup(c, rec) == d;
    assert filter[0] == ("_id", Oid(ObjectIdOf(GetValue(rec, "_id")).value));
    assert d.Dict? && FieldMatches(d.fields, "_id", filter[0].1);
    assert HasKey(d.fields, "_id");
    assert Truthy(IdLookup(c, rec));
  }

  /** Without a truthy search name a record not found by `_id` is not looked
      up by name at all. */
  lemma ResolveWithoutName(c: Collection, category: string, rec: Fields)
    requires !Truthy(IdLookup(c, rec)) && !Truthy(SearchName(rec))
    ensures Resolve(c, category, rec) == NotFound
  {
  }

  /** What a record on which `error` is set carries. */
  const NotFoundNote := "Document not found in database"

  function ErrorNote(o: Outcome): Option<string> {
    match o
    case NotFound => Some(NotFoundNote)
    case Failed(m) => Some("Error fetching data: " + m)
    case _ => None
  }

  /** The record after the lookups: `rec["error"]` set when it was not found
      or a lookup raised, unchanged otherwise. */
  function Annotate(rec: Fields, o: Outcome): (r: Fields)
    ensures ErrorNote(o).Some? ==> Get(r, "error") == Some(Str(ErrorNote(o).value))
    ensures forall k :: k != "error" ==> Get(r, k) == Get(rec, k)
    ensures ErrorNote(o).None? ==> r == rec
  {
    match ErrorNote(o)
    case Some(note) => SetKey(rec, "error", Str(note))
    case None => rec
  }

  /** The entry one record adds as written: none when found by `_id` (the
      append sits under `if not doc:`), the converted document when found by
      name, the annotated record otherwise. */
  function EntryAsWritten(rec: Fields, o: Outcome): (r: seq<Value>)
    ensures |r| <= 1
    ensures o.ById? <==> r == []
  {
    match o
    case ById(_) => []
    case ByName(d) => [ConvertObjectIdToStr(d)]
    case _ => [Dict(Annotate(rec, o))]
  }

  /** The entry one record is meant to add: the converted document when it
      was found either way, the annotated record otherwise. */
  function EntryIntended(rec: Fields, o: Outcome): (r: Value)
    ensures (o.ById? || o.ByName?) ==> r == ConvertObjectIdToStr(o.doc) && NoOid(r)
    ensures !(o.ById? || o.ByName?) ==> r == Dict(Annotate(rec, o))
    ensures !o.ById? ==> EntryAsWritten(rec, o) == [r]
  {
    match o
    case ById(d) => ConvertObjectIdToStr(d)
    case ByName(d) => ConvertObjectIdToStr(d)
    case _ => Dict(Annotate(rec, o))
  }

  /** The lookups of one category's collection, as a function of the
      record. */
  function Lookup(c: Collection, category: string): Fields -> Outcome {
    (rec: Fields) => Resolve(c, category, rec)
  }

  /** The outcome of the lookups for each record. */
  function OutcomesBy(resolve: Fields -> Outcome, recs: seq<Fields>): (r: seq<Outcome>)
    ensures |r| == |recs|
  {
    seq(|recs|, i requires 0 <= i < |recs| => resolve(recs[i]))
  }

  function Outcomes(c: Collection, category: string, recs: seq<Fields>): (r: seq<Outcome>)
    ensures |r| == |recs|
  {
    OutcomesBy(Lookup(c, category), recs)
  }

  /** Each record's outcome is the one its own lookups give. */
  lemma OutcomesAt(c: Collection, category: string, recs: seq<Fields>, j: nat)
    requires j < |recs|
    ensures Outcomes(c, category, recs)[j] == Resolve(c, category, recs[j])
  {
  }

  /** The entries of `full_data` as written, given each record's outcome. */
  function EntriesAsWritten(recs: seq<Fields>, outs: seq<Outcome>): (r: seq<Value>)
    requires |outs| == |recs|
    ensures |r| <= |recs|
  {
    if recs == [] then []
    else
      var n := |recs| - 1;
      EntriesAsWritten(recs[..n], outs[..n]) + EntryAsWritten(recs[n], outs[n])
  }

  /** The entries meant: one per record, in order. */
  function EntriesIntended(recs: seq<Fields>, outs: seq<Outcome>): (r: seq<Value>)
    requires |outs| == |recs|
    ensures |r| == |recs|
  {
    seq(|recs|, i requires 0 <= i < |recs| => EntryIntended(recs[i], outs[i]))
  }

  /** `_get_full_data(category, recommendations)` as written, over the
      records' contents before the call. */
  function FullDataAsWritten(c: Collection, category: string, recs: seq<Fields>): (r: seq<Value>)
    ensures |r| <= |recs|
  {
    EntriesAsWritten(recs, Outcomes(c, category, recs))
  }

  /** The hydration the service is meant to perform: one entry per record,
      in order. */
  function FullDataIntended(c: Collection, category: string, recs: seq<Fields>): (r: seq<Value>)
    ensures |r| == |recs|
  {
    EntriesIntended(recs, Outcomes(c, category, recs))
  }

  /** The intended entries of one more record end in its own entry. */
  lemma IntendedSnoc(recs: seq<Fields>, outs: seq<Outcome>, rec: Fields, o: Outcome)
    requires |outs| == |recs|
    ensures EntriesIntended(recs + [rec], outs + [o]) == EntriesIntended(recs, outs) + [EntryIntended(rec, o)]
  {
    var l := EntriesIntended(recs + [rec], outs + [o]);
    var r := EntriesIntended(recs, outs) + [EntryIntended(rec, o)];
    forall i | 0 <= i < |l|
      ensures l[i] == r[i]
    {
      if i < |recs| {
        assert (recs + [rec])[i] == recs[i] && (outs + [o])[i] == outs[i];
      }
    }
  }

  /** As written, when no record is found by `_id` the entries are the
      intended ones. */
  lemma {:induction false} AsWrittenWithoutById(recs: seq<Fields>, outs: seq<Outcome>)
    requires |outs| == |recs|
    requires forall i :: 0 <= i < |outs| ==> !outs[i].ById?
    ensures EntriesAsWritten(recs, outs) == EntriesIntended(recs, outs)
    decreases |recs|
  {
    if recs != [] {
      var n := |recs| - 1;
      assert recs == recs[..n] + [recs[n]] && outs == outs[..n] + [outs[n]];
      AsWrittenWithoutById(recs[..n], outs[..n]);
      IntendedSnoc(recs[..n], outs[..n], recs[n], outs[n]);
      assert EntryAsWritten(recs[n], outs[n]) == [EntryIntended(recs[n], outs[n])];
    }
  }

  /** As written, when every record is found by `_id` nothing is returned. */
  lemma {:induction false} AsWrittenAllById(recs: seq<Fields>, outs: seq<Outcome>)
    requires |outs| == |recs|
    requires forall i :: 0 <= i < |outs| ==> outs[i].ById?
    ensures EntriesAsWritten(recs, outs) == []
    decreases |recs|
  {
    if recs != [] {
      var n := |recs| - 1;
      assert outs[n].ById?;
      AsWrittenAllById(recs[..n], outs[..n]);
    }
  }

  /** As written there is one entry per record not found by `_id`. */
  lemma {:induction false} AsWrittenCount(recs: seq<Fields>, outs: seq<Outcome>)
    requires |outs| == |recs|
    ensures |EntriesAsWritten(recs, outs)| == |recs| - ByIdCount(outs)
    decreases |recs|
  {
    if recs != [] {
      var n := |recs| - 1;
      AsWrittenCount(recs[..n], outs[..n]);
    }
  }

  function ByIdCount(outs: seq<Outcome>): (n: nat)
    ensures n <= |outs|
  {
    if outs == [] then 0
    else ByIdCount(outs[..|outs| - 1]) + (if outs[|outs| - 1].ById? then 1 else 0)
  }

  /** A record whose `_id` matches a document gives no entry as written,
      while the intended hydration gives that document with its ids as
      text. */
  lemma FoundByIdIsDropped(c: Collection, category: string, rec: Fields, k: nat)
    requires HasKey(rec, "_id") && ObjectIdOf(GetValue(rec, "_id")).Some?
    requires var filter := [("_id", Oid(ObjectIdOf(GetValue(rec, "_id")).value))];
      c.refuse(filter).None? && k < |c.docs| && Matches(Erase(c.docs[k]), filter)
        && forall j :: 0 <= j < k ==> !Matches(Erase(c.docs[j]), filter)
    ensures FullDataAsWritten(c, category, [rec]) == []
    ensures FullDataIntended(c, category, [rec]) == [ConvertObjectIdToStr(Erase(c.docs[k]))]
  {
    ResolveById(c, category, rec, k);
    var outs := Outcomes(c, category, [rec]);
    OutcomesAt(c, category, [rec], 0);
    assert outs == [ById(Erase(c.docs[k]))];
    assert [rec][..0] == [] && outs[..0] == [];
  }

  /** An element of `full_data`: a fresh converted document, or the very
      record of the caller's list at `index`, whose later changes it
      shares. */
  datatype Item = Doc(v: Value) | Same(index: nat)

  /** What an element holds, given the caller's records. */
  function ItemValue(it: Item, recs: seq<Fields>): Value {
    match it
    case Doc(v) => v
    case Same(j) => if j < |recs| then Dict(recs[j]) else Null
  }

  /** The body of the loop in `_get_full_data` for the record at `i`: the
      lookups, then `error` written into the record when it was not found
      or a lookup raised, and the entry appended (none when found by
      `_id`). */
  method HydrateRecord(resolve: Fields -> Outcome, recs: array<Fields>, i: nat)
    returns (entry: seq<Item>, ghost outcome: Outcome)
    requires i < recs.Length
    modifies recs
    ensures outcome == resolve(old(recs[i]))
    ensures recs[..] == old(recs[..])[i := Annotate(old(recs[i]), outcome)]
    ensures var expected := EntryAsWritten(old(recs[i]), outcome);
      |entry| == |expected| && forall k :: 0 <= k < |entry| ==> ItemValue(entry[k], recs[..]) == expected[k]
    ensures forall k :: 0 <= k < |entry| && entry[k].Same? ==> entry[k].index == i
  {
    var found := resolve(recs[i]);
    outcome := found;
    match found {
      case ById(_) =>
        entry := [];
      case ByName(doc) =>
        entry := [Doc(ConvertObjectIdToStr(doc))];
      case NotFound =>
        recs[i] := SetKey(recs[i], "error", Str(NotFoundNote));
        entry := [Same(i)];
      case Failed(msg) =>
        recs[i] := SetKey(recs[i], "error", Str("Error fetching data: " + msg));
        entry := [Same(i)];
    }
  }

  /** Entries that share only records before `i` do not see a write at `i`. */
  lemma ItemsUnchanged(items: seq<Item>, before: seq<Fields>, after: seq<Fields>, i: nat)
    requires |before| == |after| && i < |after|
    requires forall j :: 0 <= j < |after| && j != i ==> after[j] == before[j]
    requires forall k :: 0 <= k < |items| && items[k].Same? ==> items[k].index < i
    ensures forall k :: 0 <= k < |items| ==> ItemValue(items[k], after) == ItemValue(items[k], before)
  {
  }

  /** One more record adds its own entry, if any, at the end. */
  lemma EntriesSnoc(recs: seq<Fields>, outs: seq<Outcome>, rec: Fields, o: Outcome)
    requires |outs| == |recs|
    ensures EntriesAsWritten(recs + [rec], outs + [o]) == EntriesAsWritten(recs, outs) + EntryAsWritten(rec, o)
  {
    assert (recs + [rec])[..|recs|] == recs && (outs + [o])[..|outs|] == outs;
  }

  /** The records after `i` turns of the loop: those visited are annotated
      with their outcomes, the rest untouched. */
  ghost predicate Annotated(olds: seq<Fields>, outs: seq<Outcome>, cur: seq<Fields>, i: nat) {
    i <= |olds| && |cur| == |olds| && |outs| == i
    && (forall j :: 0 <= j < i ==> cur[j] == Annotate(olds[j], outs[j]))
    && (forall j :: i <= j < |cur| ==> cur[j] == olds[j])
  }

  /** The entries after `i` turns of the loop: the ones written for the
      records visited, sharing only those records. */
  ghost predicate Collected(olds: seq<Fields>, outs: seq<Outcome>, cur: seq<Fields>, items: seq<Item>, i: nat)
    requires i <= |olds| && |outs| == i
  {
    (forall k :: 0 <= k < |items| && items[k].Same? ==> items[k].index < i)
    && var expected := EntriesAsWritten(olds[..i], outs);
      |items| == |expected| && forall k :: 0 <= k < |items| ==> ItemValue(items[k], cur) == expected[k]
  }

  /** One turn of the loop keeps the records' part of the invariant. */
  lemma AnnotateStep(olds: seq<Fields>, outs: seq<Outcome>, before: seq<Fields>, i: nat, o: Outcome)
    requires Annotated(olds, outs, before, i) && i < |olds|
    ensures Annotated(olds, outs + [o], before[i := Annotate(olds[i], o)], i + 1)
  {
  }

  /** One turn of the loop keeps the entries' part of the invariant. */
  lemma CollectStep(olds: seq<Fields>, outs: seq<Outcome>, before: seq<Fields>, items: seq<Item>,
                    i: nat, o: Outcome, entry: seq<Item>)
    requires i < |olds| && |outs| == i && |before| == |olds|
    requires Collected(olds, outs, before, items, i)
    requires var after := before[i := Annotate(olds[i], o)];
      var expected := EntryAsWritten(olds[i], o);
      |entry| == |expected| && forall k :: 0 <= k < |entry| ==> ItemValue(entry[k], after) == expected[k]
    requires forall k :: 0 <= k < |entry| && entry[k].Same? ==> entry[k].index == i
    ensures Collected(olds, outs + [o], before[i := Annotate(olds[i], o)], items + entry, i + 1)
  {
    var after := before[i := Annotate(olds[i], o)];
    ItemsUnchanged(items, before, after, i);
    assert olds[..i + 1] == olds[..i] + [olds[i]];
    EntriesSnoc(olds[..i], outs, olds[i], o);
    var done := EntriesAsWritten(olds[..i], outs);
    var expected := EntriesAsWritten(olds[..i + 1], outs + [o]);
    assert expected == done + EntryAsWritten(olds[i], o);
    var all := items + entry;
    forall k | 0 <= k < |all|
      ensures ItemValue(all[k], after) == expected[k]
    {
      if k < |items| {
        assert all[k] == items[k];
      } else {
        assert all[k] == entry[k - |items|];
      }
    }
  }

  /** The loop of `_get_full_data` over the caller's records, for given
      lookups: `error` is written into the records not found, which are
      appended themselves, and a converted copy of a document found by name
      is appended. */
  method HydrateAll(resolve: Fields -> Outcome, recs: array<Fields>) returns (fullData: seq<Item>)
    modifies recs
    ensures var outs := OutcomesBy(resolve, old(recs[..]));
      forall i :: 0 <= i < recs.Length ==> recs[i] == Annotate(old(recs[i]), outs[i])
    ensures var expected := EntriesAsWritten(old(recs[..]), OutcomesBy(resolve, old(recs[..])));
      |fullData| == |expected| && forall k :: 0 <= k < |fullData| ==> ItemValue(fullData[k], recs[..]) == expected[k]
    ensures forall k :: 0 <= k < |fullData| && fullData[k].Same? ==> fullData[k].index < recs.Length
  {
    ghost var olds := recs[..];
    ghost var outs: seq<Outcome> := [];
    fullData := [];
    var i := 0;
    assert olds[..0] == [];
    while i < recs.Length
      invariant 0 <= i <= recs.Length
      invariant outs == OutcomesBy(resolve, olds[..i])
      invariant Annotated(olds, outs, recs[..], i)
      invariant Collected(olds, outs, recs[..], fullData, i)
    {
      ghost var before := recs[..];
      var entry;
      ghost var o;
      entry, o := HydrateRecord(resolve, recs, i);
      AnnotateStep(olds, outs, before, i, o);
      CollectStep(olds, outs, before, fullData, i, o, entry);
      assert olds[..i + 1] == olds[..i] + [olds[i]];
      outs := outs + [o];
      fullData := fullData + entry;
      i := i + 1;
    }
    assert olds[..i] == olds;
  }

  /** `_get_full_data(category, recommendations)` as written: the loop with
      the lookups of the category's collection. */
  method GetFullData(c: Collection, category: string, recs: array<Fields>) returns (fullData: seq<Item>)
    modifies recs
    ensures var outs := Outcomes(c, category, old(recs[..]));
      forall i :: 0 <= i < recs.Length ==> recs[i] == Annotate(old(recs[i]), outs[i])
    ensures var expected := FullDataAsWritten(c, category, old(recs[..]));
      |fullData| == |expected| && forall k :: 0 <= k < |fullData| ==> ItemValue(fullData[k], recs[..]) == expected[k]
    ensures forall k :: 0 <= k < |fullData| && fullData[k].Same? ==> fullData[k].index < recs.Length
  {
    fullData := HydrateAll(Lookup(c, category), recs);
  }

  // --------------------------------------------------- get_recommendations

  /** `classification.dict()`. */
  function ClassificationDict(q: QueryCategory): Value {
    Dict([
      ("category", Str(q.category)),
      ("cityName", if q.cityName.Some? then Str(q.cityName.value) else Null),
      ("parameters", Dict(seq(|q.parameters|, i requires 0 <= i < |q.parameters| => (q.parameters[i].0, Str(q.parameters[i].1))))),
      ("confidence", q.confidence)])
  }

  /** The records to hydrate: a list of dicts. Iterating anything else, or
      any element that is not a dict, ends in an exception that is not
      caught (`rec["error"] = ...` fails inside the handler). */
  function RecordsOf(v: Value): (r: Option<seq<Fields>>)
    ensures r.Some? <==> v.List? && forall i :: 0 <= i < |v.items| ==> v.items[i].Dict?
    ensures r.Some? ==> |r.value| == |v.items| && forall i :: 0 <= i < |v.items| ==> v.items[i] == Dict(r.value[i])
  {
    if v.List? && forall i :: 0 <= i < |v.items| ==> v.items[i].Dict? then
      Some(seq(|v.items|, i requires 0 <= i < |v.items| => v.items[i].fields))
    else None
  }

  /** The records after `error` was written into them. */
  function AnnotateAll(c: Collection, category: string, recs: seq<Fields>): (r: seq<Value>)
    ensures |r| == |recs|
  {
    seq(|recs|, i requires 0 <= i < |recs| => Dict(Annotate(recs[i], Resolve(c, category, recs[i]))))
  }

  /** Step 3 of `get_recommendations` with the intended hydration:
      `full_data` is added when the recommendations and the category are
      truthy. `Err` means an exception escapes: a category that is not a
      string (the database refuses it as a collection name), or
      recommendations that are not a list of dicts. The records written into
      are the ones the crew result holds, so its `recommendations` change
      with them. */
  function Hydrate(db: Database, crewResult: Fields): (r: Result<Fields>)
    ensures var recommendations := GetOr(crewResult, "recommendations", List([]));
      var category := GetValue(crewResult, "category");
      !(Truthy(recommendations) && Truthy(category)) ==> r == Ok(crewResult)
    ensures var recommendations := GetOr(crewResult, "recommendations", List([]));
      var category := GetValue(crewResult, "category");
      Truthy(recommendations) && Truthy(category) ==>
        (r.Ok? <==> category.Str? && RecordsOf(recommendations).Some?)
    ensures r.Ok? ==> forall k :: k != "full_data" && k != "recommendations" ==> Get(r.value, k) == Get(crewResult, k)
  {
    var recommendations := GetOr(crewResult, "recommendations", List([]));
    var category := GetValue(crewResult, "category");
    if Truthy(recommendations) && Truthy(category) then
      match (category, RecordsOf(recommendations))
      case (Str(name), Some(recs)) =>
        var c := db(name);
        var withRecs := SetKey(crewResult, "recommendations", List(AnnotateAll(c, name, recs)));
        Ok(SetKey(withRecs, "full_data", List(FullDataIntended(c, name, recs))))
      case _ => Err("uncaught exception")
    else Ok(crewResult)
  }

  /** With a string category and a list of dicts, `full_data` holds one
      hydrated entry per record, in order, the records in `recommendations`
      carry their `error` notes, and no other key changes. */
  lemma HydrateFullData(db: Database, crewResult: Fields)
    requires var recommendations := GetOr(crewResult, "recommendations", List([]));
      var category := GetValue(crewResult, "category");
      Truthy(recommendations) && category.Str? && category.s != [] && RecordsOf(recommendations).Some?
    ensures var recs := RecordsOf(GetOr(crewResult, "recommendations", List([]))).value;
      var name := GetValue(crewResult, "category").s;
      var r := Hydrate(db, crewResult);
      r.Ok? && Get(r.value, "full_data") == Some(List(FullDataIntended(db(name), name, recs)))
        && Get(r.value, "recommendations") == Some(List(AnnotateAll(db(name), name, recs)))
    ensures var r := Hydrate(db, crewResult);
      r.Ok? && forall k :: k != "full_data" && k != "recommendations" ==> Get(r.value, k) == Get(crewResult, k)
  {
  }

  /** `get_recommendations(user_query)`: an unsuccessful crew result is
      returned with `processing_time` added and nothing else; a successful
      one is hydrated and gets `processing_time` and `classification`. */
  function GetRecommendations(db: Database, classify: string -> QueryCategory, crew: string -> Fields,
                              elapsed: Value, userQuery: string): Result<Fields>
  {
    var classification := classify(userQuery);
    var crewResult := crew(userQuery);
    if !Truthy(GetOr(crewResult, "success", Bool(false))) then
      Ok(SetKey(crewResult, "processing_time", elapsed))
    else
      match Hydrate(db, crewResult)
      case Err(e) => Err(e)
      case Ok(fs) =>
        Ok(SetKey(SetKey(fs, "processing_time", elapsed), "classification", ClassificationDict(classification)))
  }

  /** An unsuccessful crew result comes back as it was, with only
      `processing_time` added: no `full_data` and no `classification`. */
  lemma UnsuccessfulEnvelope(db: Database, classify: string -> QueryCategory, crew: string -> Fields,
                             elapsed: Value, userQuery: string)
    requires !Truthy(GetOr(crew(userQuery), "success", Bool(false)))
    ensures var r := GetRecommendations(db, classify, crew, elapsed, userQuery);
      r.Ok? && Get(r.value, "processing_time") == Some(elapsed)
      && forall k :: k != "processing_time" ==> Get(r.value, k) == Get(crew(userQuery), k)
  {
  }

  /** A successful crew result gets `processing_time` and `classification`,
      and its `full_data` and `recommendations` are the hydration's. */
  lemma SuccessfulEnvelope(db: Database, classify: string -> QueryCategory, crew: string -> Fields,
                           elapsed: Value, userQuery: string)
    requires Truthy(GetOr(crew(userQuery), "success", Bool(false)))
    ensures var r := GetRecommendations(db, classify, crew, elapsed, userQuery);
      var h := Hydrate(db, crew(userQuery));
      r.Ok? <==> h.Ok?
    ensures var r := GetRecommendations(db, classify, crew, elapsed, userQuery);
      var h := Hydrate(db, crew(userQuery));
      r.Ok? ==> (Get(r.value, "processing_time") == Some(elapsed)
        && Get(r.value, "classification") == Some(ClassificationDict(classify(userQuery)))
        && Get(r.value, "full_data") == Get(h.value, "full_data"))
    ensures var r := GetRecommendations(db, classify, crew, elapsed, userQuery);
      var h := Hydrate(db, crew(userQuery));
      r.Ok? ==> Get(r.value, "recommendations") == Get(h.value, "recommendations")
  {
  }

  /** Every key of a successful crew result the service does not set is the
      crew result's own. */
  lemma SuccessfulEnvelopeFrame(db: Database, classify: string -> QueryCategory, crew: string -> Fields,
                                elapsed: Value, userQuery: string)
    requires Truthy(GetOr(crew(userQuery), "success", Bool(false)))
    ensures var r := GetRecommendations(db, classify, crew, elapsed, userQuery);
      r.Ok? ==> forall k :: k != "processing_time" && k != "classification" && k != "full_data" && k != "recommendations" ==>
        Get(r.value, k) == Get(crew(userQuery), k)
  {
  }
}
