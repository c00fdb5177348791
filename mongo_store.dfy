/** An in-memory stand-in for a MongoDB collection as the core uses it.
    Documents are kept as the object graph the driver hands back, each
    object tagged with its identity (`id()` in Python), so that code that
    tracks identities can be stated. A collection may also refuse a query
    (a server or connection error), which the code sees as an exception. */
module MongoStore {
  import opened PyStrings
  import opened PyValues

  /** One Python object: its identity and what it holds. An `Atom` holds a
      value that is neither a list nor a dict. */
  datatype Node = Node(id: nat, shape: Shape)

  datatype Shape =
    | Atom(v: Value)
    | Items(items: seq<Node>)
    | Entries(entries: seq<(string, Node)>)

  /** The value an object graph denotes, identities forgotten. */
  function Erase(n: Node): Value
    decreases n, 1
  {
    match n.shape
    case Atom(v) => v
    case Items(items) => List(EraseItems(n, |items|))
    case Entries(es) => Dict(EraseEntries(n, |es|))
  }

  function EraseItems(n: Node, i: nat): (r: seq<Value>)
    requires n.shape.Items? && i <= |n.shape.items|
    ensures |r| == i
    decreases n, 0, i
  {
    if i == 0 then [] else EraseItems(n, i - 1) + [Erase(n.shape.items[i - 1])]
  }

  function EraseEntries(n: Node, i: nat): (r: Fields)
    requires n.shape.Entries? && i <= |n.shape.entries|
    ensures |r| == i
    ensures forall j :: 0 <= j < i ==> r[j].0 == n.shape.entries[j].0
    decreases n, 0, i
  {
    if i == 0 then []
    else EraseEntries(n, i - 1) + [(n.shape.entries[i - 1].0, Erase(n.shape.entries[i - 1].1))]
  }

  /** `refuse` says, for a filter, whether the server fails the query and
      with which message. */
  datatype Collection = Collection(docs: seq<Node>, refuse: Fields -> Option<string>)

  /** `mongodb_client.get_collection(name)`. */
  type Database = string -> Collection

  /** A `$regex` condition with `$options` containing `i`, for a pattern
      written `^text$`: the whole field equals `text` up to case. Any other
      pattern is looked for as a piece of the field. The text between the
      anchors is taken literally: regular-expression metacharacters in it
      are not interpreted. */
  predicate RegexMatches(x: string, pattern: string, options: string) {
    var fold := 'i' in options;
    var subject := if fold then Lower(x) else x;
    if |pattern| >= 2 && pattern[0] == '^' && pattern[|pattern| - 1] == '$' then
      var text := pattern[1..|pattern| - 1];
      subject == (if fold then Lower(text) else text)
    else
      Contains(subject, if fold then Lower(pattern) else pattern)
  }

  /** A condition `{k: cond}` on a document's fields: a `$regex` dict
      matches string fields; `None` matches a missing or `None` field; any
      other value matches an equal field. */
  predicate FieldMatches(doc: Fields, k: string, cond: Value) {
    if cond.Dict? && HasKey(cond.fields, "$regex") then
      match (GetValue(doc, k), GetValue(cond.fields, "$regex"))
      case (Str(x), Str(p)) =>
        var o := GetValue(cond.fields, "$options");
        RegexMatches(x, p, if o.Str? then o.s else "")
      case _ => false
    else if cond == Null then GetValue(doc, k) == Null
    else Get(doc, k) == Some(cond)
  }

  /** `{"$regex": f"^{text}$", "$options": "i"}`, the condition the core
      uses for city and name lookups. */
  function AnchoredIgnoreCase(text: string): Value {
    Dict([("$regex", Str("^" + text + "$")), ("$options", Str("i"))])
  }

  /** The anchored condition matches exactly the string fields equal to
      `text` up to case. */
  lemma AnchoredIgnoreCaseMatches(doc: Fields, k: string, text: string)
    ensures FieldMatches(doc, k, AnchoredIgnoreCase(text)) <==>
      GetValue(doc, k).Str? && Lower(GetValue(doc, k).s) == Lower(text)
  {
    var cond := AnchoredIgnoreCase(text);
    var p := "^" + text + "$";
    assert cond.fields[0] == ("$regex", Str(p)) && cond.fields[1] == ("$options", Str("i"));
    assert GetValue(cond.fields, "$regex") == Str(p);
    assert GetValue(cond.fields, "$options") == Str("i");
    assert |p| >= 2 && p[0] == '^' && p[|p| - 1] == '$';
    assert p[1..|p| - 1] == text;
    assert 'i' in "i";
  }

  predicate Matches(doc: Value, filter: Fields) {
    doc.Dict? && forall i :: 0 <= i < |filter| ==> FieldMatches(doc.fields, filter[i].0, filter[i].1)
  }

  /** A one-condition filter matches when its condition does. */
  lemma MatchesOne(doc: Fields, k: string, cond: Value)
    ensures Matches(Dict(doc), [(k, cond)]) <==> FieldMatches(doc, k, cond)
  {
    assert [(k, cond)][0] == (k, cond);
  }

  /** A document matches two filters put together exactly when it matches
      each of them. */
  lemma MatchesConcat(doc: Fields, a: Fields, b: Fields)
    ensures Matches(Dict(doc), a + b) <==> Matches(Dict(doc), a) && Matches(Dict(doc), b)
  {
    var ab := a + b;
    assert forall i :: 0 <= i < |a| ==> ab[i] == a[i];
    assert forall i :: 0 <= i < |b| ==> ab[|a| + i] == b[i];
    if Matches(Dict(doc), a) && Matches(Dict(doc), b) {
      forall i | 0 <= i < |ab|
        ensures FieldMatches(doc, ab[i].0, ab[i].1)
      {
        if i >= |a| {
          assert ab[i] == b[i - |a|];
        }
      }
    }
  }

  /** The position of the first document that matches, or `|docs|`. */
  function FirstMatch(docs: seq<Node>, filter: Fields): (k: nat)
    ensures k <= |docs|
    ensures forall j :: 0 <= j < k ==> !Matches(Erase(docs[j]), filter)
    ensures k < |docs| ==> Matches(Erase(docs[k]), filter)
  {
    if docs == [] then 0
    else if Matches(Erase(docs[0]), filter) then 0
    else 1 + FirstMatch(docs[1..], filter)
  }

  /** `collection.find_one(filter)`: the first matching document, `None`
      when there is none, or the error the server raises. */
  function FindOne(c: Collection, filter: Fields): (r: Result<Option<Value>>)
    ensures c.refuse(filter).Some? <==> r.Err?
    ensures r == Ok(None) ==> forall j :: 0 <= j < |c.docs| ==> !Matches(Erase(c.docs[j]), filter)
    ensures r.Ok? && r.value.Some? ==>
      exists k :: 0 <= k < |c.docs| && r.value.value == Erase(c.docs[k]) && Matches(Erase(c.docs[k]), filter)
        && forall j :: 0 <= j < k ==> !Matches(Erase(c.docs[j]), filter)
  {
    match c.refuse(filter)
    case Some(msg) => Err(msg)
    case None =>
      var k := FirstMatch(c.docs, filter);
      if k < |c.docs| then Ok(Some(Erase(c.docs[k]))) else Ok(None)
  }

  /** The matching documents, in collection order: every document returned
      matches, and every matching document is returned. */
  function Matching(docs: seq<Node>, filter: Fields): (r: seq<Node>)
    ensures |r| <= |docs|
    ensures forall j :: 0 <= j < |r| ==> r[j] in docs && Matches(Erase(r[j]), filter)
    ensures forall j :: 0 <= j < |docs| && Matches(Erase(docs[j]), filter) ==> docs[j] in r
  {
    if docs == [] then []
    else
      var rest := Matching(docs[1..], filter);
      assert forall j :: 1 <= j < |docs| ==> docs[j] == docs[1..][j - 1];
      if Matches(Erase(docs[0]), filter) then [docs[0]] + rest else rest
  }

  /** One more document at the end of the collection is one more match at
      the end exactly when it matches: the matches keep collection order. */
  lemma {:induction false} MatchingSnoc(docs: seq<Node>, d: Node, filter: Fields)
    ensures Matching(docs + [d], filter)
      == Matching(docs, filter) + (if Matches(Erase(d), filter) then [d] else [])
    decreases |docs|
  {
    if docs == [] {
      assert [d][1..] == [];
    } else {
      assert (docs + [d])[1..] == docs[1..] + [d];
      MatchingSnoc(docs[1..], d, filter);
    }
  }

  /** `list(collection.find(filter).limit(limit))`: a limit of zero means no
      limit, and a negative limit counts like its absolute value. The result
      is the first matches in collection order, as many as the limit allows. */
  function FindLimited(c: Collection, filter: Fields, limit: int): (r: Result<seq<Node>>)
    ensures c.refuse(filter).Some? <==> r.Err?
    ensures r.Ok? ==> forall j :: 0 <= j < |r.value| ==> r.value[j] in c.docs && Matches(Erase(r.value[j]), filter)
    ensures r.Ok? ==> |r.value| <= |Matching(c.docs, filter)| && r.value == Matching(c.docs, filter)[..|r.value|]
    ensures r.Ok? && limit == 0 ==> r.value == Matching(c.docs, filter)
    ensures r.Ok? && limit != 0 ==> var n := if limit < 0 then -limit else limit;
      |r.value| == if n < |Matching(c.docs, filter)| then n else |Matching(c.docs, filter)|
  {
    match c.refuse(filter)
    case Some(msg) => Err(msg)
    case None =>
      var all := Matching(c.docs, filter);
      var n := if limit < 0 then -limit else limit;
      if limit == 0 || n >= |all| then Ok(all) else Ok(all[..n])
  }
}
