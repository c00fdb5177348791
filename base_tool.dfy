/** `MongoDBQueryTool` (tools/base_tool.py): the generic query tool the
    search tools build on. `Run` builds the filter (caller's filter, keyword
    filters, case-insensitive city) and ships each fetched document out with
    `ObjectId`s and `datetime`s turned into strings. */
module BaseTool {
  import opened PyStrings
  import opened PyValues
  import opened MongoStore

  // ------------------------------------------------------------ conversion

  /** What `_convert_objectids` does to an object that is not a container:
      an `ObjectId` becomes its hex text, a `datetime` its `isoformat()`,
      and anything else is returned as it is. */
  function ConvertLeaf(v: Value): Value {
    match v
    case Oid(h) => Str(h)
    case Date(t) => Str(IsoFormat(t, 'T'))
    case _ => v
  }

  /** The conversion the walk is meant to perform: a fresh dict with the
      same keys in the same order, a fresh list of the same length, and
      every leaf converted. */
  function Normalize(v: Value): (r: Value)
    ensures IsPlain(r)
    ensures v.List? ==> r.List? && |r.items| == |v.items|
    ensures v.Dict? ==> r.Dict? && Keys(r.fields) == Keys(v.fields)
    ensures !v.List? && !v.Dict? ==> r == ConvertLeaf(v)
  {
    match v
    case List(items) =>
      List(seq(|items|, i requires 0 <= i < |items| => Normalize(items[i])))
    case Dict(fs) =>
      var r := seq(|fs|, i requires 0 <= i < |fs| => (fs[i].0, Normalize(fs[i].1)));
      assert Keys(r) == Keys(fs);
      Dict(r)
    case _ => ConvertLeaf(v)
  }

  /** Plain data is left as it is, so normalizing twice is normalizing once. */
  lemma {:induction false} NormalizePlain(v: Value)
    requires IsPlain(v)
    ensures Normalize(v) == v
    decreases v
  {
    match v
    case List(items) =>
      forall i | 0 <= i < |items| ensures Normalize(items[i]) == items[i] {
        NormalizePlain(items[i]);
      }
    case Dict(fs) =>
      forall i | 0 <= i < |fs| ensures Normalize(fs[i].1) == fs[i].1 {
        NormalizePlain(fs[i].1);
      }
    case _ =>
  }

  lemma NormalizeIdempotent(v: Value)
    ensures Normalize(Normalize(v)) == Normalize(v)
  {
    NormalizePlain(Normalize(v));
  }

  /** `_convert_objectids(data, visited)` as written. One set of identities
      is shared by the whole walk: before a child is entered its identity is
      added, and a child whose identity is already there is emitted as
      `str(child)` instead. The root itself is never added. The result is the
      converted value and the set after the walk. */
  function Walk(n: Node, visited: set<nat>): (res: (Value, set<nat>))
    ensures visited <= res.1
    ensures n.shape.Items? ==> res.0.List? && |res.0.items| == |n.shape.items|
    ensures n.shape.Entries? ==>
      && res.0.Dict? && |res.0.fields| == |n.shape.entries|
      && forall j :: 0 <= j < |n.shape.entries| ==> res.0.fields[j].0 == n.shape.entries[j].0
    decreases n, 1
  {
    match n.shape
    case Atom(v) => (ConvertLeaf(v), visited)
    case Items(items) =>
      var (vs, seen) := WalkItems(n, |items|, visited);
      (List(vs), seen)
    case Entries(es) =>
      var (fs, seen) := WalkEntries(n, |es|, visited);
      (Dict(fs), seen)
  }

  /** The list loop after its first `i` items. */
  function WalkItems(n: Node, i: nat, visited: set<nat>): (res: (seq<Value>, set<nat>))
    requires n.shape.Items? && i <= |n.shape.items|
    ensures |res.0| == i && visited <= res.1
    decreases n, 0, i
  {
    if i == 0 then ([], visited)
    else
      var (acc, seen) := WalkItems(n, i - 1, visited);
      var c := n.shape.items[i - 1];
      if c.id in seen then (acc + [Str(PyStr(Erase(c)))], seen)
      else
        var (r, seen') := Walk(c, seen + {c.id});
        (acc + [r], seen')
  }

  /** The dict loop after its first `i` entries. */
  function WalkEntries(n: Node, i: nat, visited: set<nat>): (res: (Fields, set<nat>))
    requires n.shape.Entries? && i <= |n.shape.entries|
    ensures |res.0| == i && visited <= res.1
    ensures forall j :: 0 <= j < i ==> res.0[j].0 == n.shape.entries[j].0
    decreases n, 0, i
  {
    if i == 0 then ([], visited)
    else
      var (acc, seen) := WalkEntries(n, i - 1, visited);
      var k, c := n.shape.entries[i - 1].0, n.shape.entries[i - 1].1;
      if c.id in seen then (acc + [(k, Str(PyStr(Erase(c))))], seen)
      else
        var (r, seen') := Walk(c, seen + {c.id});
        (acc + [(k, r)], seen')
  }

  /** `_convert_objectids(data, visited)`, the loops of the source. */
  method ConvertObjectIds(n: Node, visited: set<nat>) returns (r: Value, seen: set<nat>)
    ensures (r, seen) == Walk(n, visited)
    decreases n
  {
    match n.shape {
      case Atom(v) =>
        r, seen := ConvertLeaf(v), visited;
      case Items(items) =>
        var result: seq<Value> := [];
        seen := visited;
        var i := 0;
        while i < |items|
          invariant 0 <= i <= |items|
          invariant (result, seen) == WalkItems(n, i, visited)
        {
          var c := items[i];
          if c.id in seen {
            result := result + [Str(PyStr(Erase(c)))];
          } else {
            seen := seen + {c.id};
            var x;
            x, seen := ConvertObjectIds(c, seen);
            result := result + [x];
          }
          i := i + 1;
        }
        r := List(result);
      case Entries(es) =>
        var result: Fields := [];
        seen := visited;
        var i := 0;
        while i < |es|
          invariant 0 <= i <= |es|
          invariant (result, seen) == WalkEntries(n, i, visited)
        {
          var (k, c) := es[i];
          if c.id in seen {
            result := result + [(k, Str(PyStr(Erase(c))))];
          } else {
            seen := seen + {c.id};
            var x;
            x, seen := ConvertObjectIds(c, seen);
            result := result + [(k, x)];
          }
          i := i + 1;
        }
        r := Dict(result);
    }
  }

  // ------------------------------------------- the walk without shared objects

  /** Atoms hold no containers, at any depth. */
  predicate WellFormed(n: Node)
    decreases n
  {
    match n.shape
    case Atom(v) => !v.List? && !v.Dict?
    case Items(items) => forall j :: 0 <= j < |items| ==> WellFormed(items[j])
    case Entries(es) => forall j :: 0 <= j < |es| ==> WellFormed(es[j].1)
  }

  /** The identities of every object below `n`, in walk order. */
  function SubIds(n: Node): seq<nat>
    decreases n, 1
  {
    match n.shape
    case Atom(_) => []
    case Items(items) => ItemIds(n, |items|)
    case Entries(es) => EntryIds(n, |es|)
  }

  function ItemIds(n: Node, i: nat): seq<nat>
    requires n.shape.Items? && i <= |n.shape.items|
    decreases n, 0, i
  {
    if i == 0 then [] else ItemIds(n, i - 1) + [n.shape.items[i - 1].id] + SubIds(n.shape.items[i - 1])
  }

  function EntryIds(n: Node, i: nat): seq<nat>
    requires n.shape.Entries? && i <= |n.shape.entries|
    decreases n, 0, i
  {
    if i == 0 then [] else EntryIds(n, i - 1) + [n.shape.entries[i - 1].1.id] + SubIds(n.shape.entries[i - 1].1)
  }

  /** No identity occurs twice in `s`. */
  predicate Unique(s: seq<nat>)
    decreases |s|
  {
    |s| == 0 || (s[|s| - 1] !in s[..|s| - 1] && Unique(s[..|s| - 1]))
  }

  function Elems(s: seq<nat>): set<nat> {
    set x | x in s
  }

  lemma {:induction false} UniqueSplit(a: seq<nat>, b: seq<nat>)
    requires Unique(a + b)
    ensures Unique(a) && Unique(b) && forall x :: x in a ==> x !in b
    decreases |b|
  {
    if b == [] {
      assert a + b == a;
    } else {
      var b', y := b[..|b| - 1], b[|b| - 1];
      assert (a + b)[..|a + b| - 1] == a + b';
      assert (a + b)[|a + b| - 1] == y;
      UniqueSplit(a, b');
      assert y !in a && y !in b' by {
        assert forall x :: x in a ==> x in a + b';
        assert forall x :: x in b' ==> x in a + b';
      }
      assert b[..|b| - 1] == b';
      forall x | x in a ensures x !in b {
        assert x in b ==> x in b' || x == y;
      }
    }
  }

  /** Where no object occurs twice below the root (every document freshly
      decoded by the driver, whose objects are not shared), the walk as
      written performs exactly the intended conversion, and it visits every
      object below the root. */
  lemma {:induction false} WalkWithoutSharing(n: Node, visited: set<nat>)
    requires WellFormed(n) && Unique(SubIds(n))
    requires forall x :: x in SubIds(n) ==> x !in visited
    ensures Walk(n, visited) == (Normalize(Erase(n)), visited + Elems(SubIds(n)))
    decreases n, 1
  {
    match n.shape
    case Atom(v) =>
      assert SubIds(n) == [];
      assert visited + Elems(SubIds(n)) == visited;
      assert Walk(n, visited) == (ConvertLeaf(v), visited);
      assert Erase(n) == v && Normalize(v) == ConvertLeaf(v);
    case Items(items) =>
      WalkItemsWhole(n, visited);
    case Entries(es) =>
      WalkEntriesWhole(n, visited);
  }

  lemma {:induction false} WalkItemsWhole(n: Node, visited: set<nat>)
    requires n.shape.Items? && WellFormed(n) && Unique(SubIds(n))
    requires forall x :: x in SubIds(n) ==> x !in visited
    ensures Walk(n, visited) == (Normalize(Erase(n)), visited + Elems(SubIds(n)))
    decreases n, 0, |n.shape.items| + 1
  {
    var items := n.shape.items;
    WalkItemsSeen(n, |items|, visited);
    WalkItemsValues(n, |items|, visited);
    var vs := WalkItems(n, |items|, visited).0;
    var es := EraseItems(n, |items|);
    EraseItemsAt(n, |items|);
    assert vs == seq(|es|, i requires 0 <= i < |es| => Normalize(es[i]));
  }

  lemma {:induction false} WalkEntriesWhole(n: Node, visited: set<nat>)
    requires n.shape.Entries? && WellFormed(n) && Unique(SubIds(n))
    requires forall x :: x in SubIds(n) ==> x !in visited
    ensures Walk(n, visited) == (Normalize(Erase(n)), visited + Elems(SubIds(n)))
    decreases n, 0, |n.shape.entries| + 1
  {
    var es := n.shape.entries;
    WalkEntriesSeen(n, |es|, visited);
    WalkEntriesValues(n, |es|, visited);
    var fs := WalkEntries(n, |es|, visited).0;
    var ers := EraseEntries(n, |es|);
    EraseEntriesAt(n, |es|);
    assert fs == seq(|ers|, i requires 0 <= i < |ers| => (ers[i].0, Normalize(ers[i].1)));
  }

  lemma {:induction false} EraseItemsAt(n: Node, i: nat)
    requires n.shape.Items? && i <= |n.shape.items|
    ensures forall j :: 0 <= j < i ==> EraseItems(n, i)[j] == Erase(n.shape.items[j])
    decreases i
  {
    if i > 0 {
      EraseItemsAt(n, i - 1);
    }
  }

  lemma {:induction false} EraseEntriesAt(n: Node, i: nat)
    requires n.shape.Entries? && i <= |n.shape.entries|
    ensures forall j :: 0 <= j < i ==> EraseEntries(n, i)[j] == (n.shape.entries[j].0, Erase(n.shape.entries[j].1))
    decreases i
  {
    if i > 0 {
      EraseEntriesAt(n, i - 1);
    }
  }

  lemma {:induction false} WalkItemsSeen(n: Node, i: nat, visited: set<nat>)
    requires n.shape.Items? && i <= |n.shape.items| && WellFormed(n)
    requires Unique(ItemIds(n, i))
    requires forall x :: x in ItemIds(n, i) ==> x !in visited
    ensures WalkItems(n, i, visited).1 == visited + Elems(ItemIds(n, i))
    decreases n, 0, i
  {
    if i > 0 {
      var c := n.shape.items[i - 1];
      ChildStep(ItemIds(n, i), ItemIds(n, i - 1), c.id, SubIds(c), visited);
      WalkItemsSeen(n, i - 1, visited);
      var seen := WalkItems(n, i - 1, visited).1;
      assert WellFormed(c);
      WalkWithoutSharing(c, seen + {c.id});
    }
  }

  /** One more child walked: its value, converted as intended, is
      appended. */
  lemma {:induction false} WalkItemsLast(n: Node, i: nat, visited: set<nat>)
    requires n.shape.Items? && 0 < i <= |n.shape.items| && WellFormed(n)
    requires Unique(ItemIds(n, i))
    requires forall x :: x in ItemIds(n, i) ==> x !in visited
    ensures Unique(ItemIds(n, i - 1)) && forall x :: x in ItemIds(n, i - 1) ==> x !in visited
    ensures WalkItems(n, i, visited).0 == WalkItems(n, i - 1, visited).0 + [Normalize(Erase(n.shape.items[i - 1]))]
    decreases n, 0, i, 0
  {
    var c := n.shape.items[i - 1];
    ChildStep(ItemIds(n, i), ItemIds(n, i - 1), c.id, SubIds(c), visited);
    WalkItemsSeen(n, i - 1, visited);
    var seen := WalkItems(n, i - 1, visited).1;
    assert WellFormed(c);
    WalkWithoutSharing(c, seen + {c.id});
  }

  lemma {:induction false} WalkItemsValues(n: Node, i: nat, visited: set<nat>)
    requires n.shape.Items? && i <= |n.shape.items| && WellFormed(n)
    requires Unique(ItemIds(n, i))
    requires forall x :: x in ItemIds(n, i) ==> x !in visited
    ensures forall j :: 0 <= j < i ==> WalkItems(n, i, visited).0[j] == Normalize(Erase(n.shape.items[j]))
    decreases n, 0, i
  {
    if i > 0 {
      WalkItemsLast(n, i, visited);
      WalkItemsValues(n, i - 1, visited);
      var acc := WalkItems(n, i - 1, visited).0;
      var out := WalkItems(n, i, visited).0;
      forall j | 0 <= j < i - 1 ensures out[j] == acc[j] {
      }
    }
  }


  lemma {:induction false} WalkEntriesSeen(n: Node, i: nat, visited: set<nat>)
    requires n.shape.Entries? && i <= |n.shape.entries| && WellFormed(n)
    requires Unique(EntryIds(n, i))
    requires forall x :: x in EntryIds(n, i) ==> x !in visited
    ensures WalkEntries(n, i, visited).1 == visited + Elems(EntryIds(n, i))
    decreases n, 0, i
  {
    if i > 0 {
      var c := n.shape.entries[i - 1].1;
      ChildStep(EntryIds(n, i), EntryIds(n, i - 1), c.id, SubIds(c), visited);
      WalkEntriesSeen(n, i - 1, visited);
      var seen := WalkEntries(n, i - 1, visited).1;
      assert WellFormed(c);
      WalkWithoutSharing(c, seen + {c.id});
    }
  }

  /** One more child walked: its value, converted as intended, is
      appended. */
  lemma {:induction false} WalkEntriesLast(n: Node, i: nat, visited: set<nat>)
    requires n.shape.Entries? && 0 < i <= |n.shape.entries| && WellFormed(n)
    requires Unique(EntryIds(n, i))
    requires forall x :: x in EntryIds(n, i) ==> x !in visited
    ensures Unique(EntryIds(n, i - 1)) && forall x :: x in EntryIds(n, i - 1) ==> x !in visited
    ensures WalkEntries(n, i, visited).0 == WalkEntries(n, i - 1, visited).0 + [(n.shape.entries[i - 1].0, Normalize(Erase(n.shape.entries[i - 1].1)))]
    decreases n, 0, i, 0
  {
    var c := n.shape.entries[i - 1].1;
    ChildStep(EntryIds(n, i), EntryIds(n, i - 1), c.id, SubIds(c), visited);
    WalkEntriesSeen(n, i - 1, visited);
    var seen := WalkEntries(n, i - 1, visited).1;
    assert WellFormed(c);
    WalkWithoutSharing(c, seen + {c.id});
  }

  lemma {:induction false} WalkEntriesValues(n: Node, i: nat, visited: set<nat>)
    requires n.shape.Entries? && i <= |n.shape.entries| && WellFormed(n)
    requires Unique(EntryIds(n, i))
    requires forall x :: x in EntryIds(n, i) ==> x !in visited
    ensures forall j :: 0 <= j < i ==> WalkEntries(n, i, visited).0[j] == (n.shape.entries[j].0, Normalize(Erase(n.shape.entries[j].1)))
    decreases n, 0, i
  {
    if i > 0 {
      WalkEntriesLast(n, i, visited);
      WalkEntriesValues(n, i - 1, visited);
      var acc := WalkEntries(n, i - 1, visited).0;
      var out := WalkEntries(n, i, visited).0;
      forall j | 0 <= j < i - 1 ensures out[j] == acc[j] {
      }
    }
  }


  /** The identity bookkeeping of one loop step: the ids so far are
      `front`, the child is `id` and the ids below it are `below`. */
  lemma ChildStep(all: seq<nat>, front: seq<nat>, id: nat, below: seq<nat>, visited: set<nat>)
    requires all == front + [id] + below
    requires Unique(all) && forall x :: x in all ==> x !in visited
    ensures Unique(front) && forall x :: x in front ==> x !in visited
    ensures Unique(below)
    ensures id !in visited + Elems(front)
    ensures forall x :: x in below ==> x !in visited + Elems(front) + {id}
    ensures Elems(all) == Elems(front) + {id} + Elems(below)
  {
    assert all == front + ([id] + below);
    UniqueSplit(front, [id] + below);
    UniqueSplit([id], below);
    assert id in all;
    forall x | x in front ensures x in all {
    }
    forall x | x in below ensures x in all && x != id && x !in front {
      assert x in [id] + below;
    }
  }

  /** `{"lat": None, "lon": None}` as CPython builds it: both values are the
      one `None` object. */
  function SharedNoneDoc(): Node {
    Node(0, Entries([("lat", Node(1, Atom(Null))), ("lon", Node(1, Atom(Null)))]))
  }

  /** CPython shares `None` (and `True`, `False` and the small integers):
      a document with two `None` fields is one object twice, and the walk
      as written turns the second into the string `"None"`. */
  lemma SharedNoneBecomesString()
    ensures Walk(SharedNoneDoc(), {}).0 == Dict([("lat", Null), ("lon", Str("None"))])
  {
    var doc := SharedNoneDoc();
    var a := Node(1, Atom(Null));
    assert doc.shape.entries[0] == ("lat", a) && doc.shape.entries[1] == ("lon", a);
    assert WalkEntries(doc, 0, {}) == ([], {});
    var w1 := WalkEntries(doc, 1, {});
    assert w1.0 == [("lat", Null)] && 1 in w1.1;
    assert PyStr(Erase(a)) == "None";
    assert WalkEntries(doc, 2, {}).0 == w1.0 + [("lon", Str("None"))];
  }

  /** The intended conversion keeps both `None`s. */
  lemma SharedNoneIntended()
    ensures Normalize(Erase(SharedNoneDoc())) == Dict([("lat", Null), ("lon", Null)])
  {
    var doc := SharedNoneDoc();
    var fs := [("lat", Null), ("lon", Null)];
    assert doc.shape.entries[0].1 == Node(1, Atom(Null));
    assert EraseEntries(doc, 1) == [("lat", Null)];
    assert EraseEntries(doc, 2) == fs;
    var r := Normalize(Dict(fs));
    assert r.fields == seq(2, i requires 0 <= i < 2 => (fs[i].0, Normalize(fs[i].1)));
    assert Normalize(Null) == Null;
    assert r.fields[0] == fs[0] && r.fields[1] == fs[1];
    assert r.fields == fs;
  }

  // ------------------------------------------------------------------ _run

  /** A `dict` object the caller passes in and may see changed. */
  class FilterDict {
    var entries: Fields

    constructor(entries: Fields)
      ensures this.entries == entries
    {
      this.entries := entries;
    }
  }

  /** A non-dict `cityName` becomes the anchored case-insensitive regex on
      its text; a dict or absent `cityName` is left alone. */
  function RewriteCity(f: Fields): (r: Fields)
    ensures Keys(r) == Keys(f)
    ensures forall k :: k != "cityName" ==> Get(r, k) == Get(f, k)
    ensures HasKey(f, "cityName") && !GetValue(f, "cityName").Dict? ==>
      Get(r, "cityName") == Some(AnchoredIgnoreCase(PyStr(GetValue(f, "cityName"))))
    ensures !HasKey(f, "cityName") || GetValue(f, "cityName").Dict? ==> r == f
  {
    if HasKey(f, "cityName") && !GetValue(f, "cityName").Dict? then
      SetKey(f, "cityName", AnchoredIgnoreCase(PyStr(GetValue(f, "cityName"))))
    else f
  }

  /** The filter `_run` sends: `query_filter or {}`, updated with the keyword
      filters, with the city rewritten. */
  function QueryFilter(start: Fields, kwargs: Fields): Fields {
    RewriteCity(Update(start, kwargs))
  }

  /** What `_convert_objectids` makes of one object graph: the converted
      value is a dict exactly when the document is one, it holds no
      `ObjectId` or `datetime` when its atoms hold no containers, and on a
      document without shared objects it is the intended conversion. */
  lemma ShipOne(d: Node)
    ensures Erase(d).Dict? ==> Walk(d, {}).0.Dict?
    ensures WellFormed(d) ==> IsPlain(Walk(d, {}).0)
    ensures WellFormed(d) && Unique(SubIds(d)) ==> Walk(d, {}).0 == Normalize(Erase(d))
  {
    if WellFormed(d) {
      WalkPlain(d, {});
      if Unique(SubIds(d)) {
        WalkWithoutSharing(d, {});
      }
    }
  }

  /** The walk of an object graph whose atoms hold no containers leaves no
      `ObjectId` or `datetime` behind. */
  lemma {:induction false} WalkPlain(n: Node, visited: set<nat>)
    requires WellFormed(n)
    ensures IsPlain(Walk(n, visited).0)
    decreases n, 1
  {
    match n.shape
    case Atom(v) =>
    case Items(items) =>
      WalkItemsPlain(n, |items|, visited);
    case Entries(es) =>
      WalkEntriesPlain(n, |es|, visited);
  }

  lemma {:induction false} WalkItemsPlain(n: Node, i: nat, visited: set<nat>)
    requires n.shape.Items? && i <= |n.shape.items| && WellFormed(n)
    ensures forall j :: 0 <= j < i ==> IsPlain(WalkItems(n, i, visited).0[j])
    decreases n, 0, i
  {
    if i > 0 {
      WalkItemsPlain(n, i - 1, visited);
      var seen := WalkItems(n, i - 1, visited).1;
      var c := n.shape.items[i - 1];
      assert WellFormed(c);
      if c.id !in seen {
        WalkPlain(c, seen + {c.id});
      }
    }
  }

  lemma {:induction false} WalkEntriesPlain(n: Node, i: nat, visited: set<nat>)
    requires n.shape.Entries? && i <= |n.shape.entries| && WellFormed(n)
    ensures forall j :: 0 <= j < i ==> IsPlain(WalkEntries(n, i, visited).0[j].1)
    decreases n, 0, i
  {
    if i > 0 {
      WalkEntriesPlain(n, i - 1, visited);
      var seen := WalkEntries(n, i - 1, visited).1;
      var c := n.shape.entries[i - 1].1;
      assert WellFormed(c);
      if c.id !in seen {
        WalkPlain(c, seen + {c.id});
      }
    }
  }

  /** The fetched documents as `_run` ships them, in order: each one walked
      by `_convert_objectids` with a visited set of its own. */
  function Shipped(docs: seq<Node>): (r: seq<Value>)
    ensures |r| == |docs|
    ensures forall k :: 0 <= k < |r| ==> r[k] == Walk(docs[k], {}).0
    ensures forall k :: 0 <= k < |r| ==> (Erase(docs[k]).Dict? ==> r[k].Dict?) && (WellFormed(docs[k]) ==> IsPlain(r[k]))
    ensures forall k :: 0 <= k < |r| && WellFormed(docs[k]) && Unique(SubIds(docs[k])) ==> r[k] == Normalize(Erase(docs[k]))
  {
    forall k | 0 <= k < |docs| {
      ShipOne(docs[k]);
    }
    seq(|docs|, k requires 0 <= k < |docs| => Walk(docs[k], {}).0)
  }

  /** The shipping meant: each document converted on its own merits. */
  function ShippedIntended(docs: seq<Node>): (r: seq<Value>)
    ensures |r| == |docs|
    ensures forall k :: 0 <= k < |r| ==> IsPlain(r[k]) && (Erase(docs[k]).Dict? ==> r[k].Dict?)
  {
    seq(|docs|, k requires 0 <= k < |docs| => Normalize(Erase(docs[k])))
  }

  /** The two agree on documents without shared objects. */
  lemma ShippedAsIntended(docs: seq<Node>)
    requires forall k :: 0 <= k < |docs| ==> WellFormed(docs[k]) && Unique(SubIds(docs[k]))
    ensures Shipped(docs) == ShippedIntended(docs)
  {
  }

  /** They differ on the document with two `None` fields. */
  lemma ShippedSharedNone()
    ensures Shipped([SharedNoneDoc()]) == [Dict([("lat", Null), ("lon", Str("None"))])]
    ensures ShippedIntended([SharedNoneDoc()]) == [Dict([("lat", Null), ("lon", Null)])]
  {
    SharedNoneBecomesString();
    SharedNoneIntended();
  }

  /** What `_run` returns for a filter: `[]` when the query raises, else
      one converted document per fetched document, in order. */
  function RunResult(db: Database, collectionName: string, filter: Fields, limit: int): (r: seq<Value>)
    ensures db(collectionName).refuse(filter).Some? ==> r == []
    ensures var found := FindLimited(db(collectionName), filter, limit);
      found.Ok? ==> |r| == |found.value|
    ensures var found := FindLimited(db(collectionName), filter, limit);
      found.Ok? ==> forall k :: 0 <= k < |r| ==> r[k] == Walk(found.value[k], {}).0
    ensures var found := FindLimited(db(collectionName), filter, limit);
      found.Ok? ==> forall k :: 0 <= k < |r| && WellFormed(found.value[k]) ==> IsPlain(r[k])
    ensures forall k :: 0 <= k < |r| ==> r[k].Dict?
    ensures limit != 0 ==> |r| <= if limit < 0 then -limit else limit
  {
    match FindLimited(db(collectionName), filter, limit)
    case Err(_) => []
    case Ok(docs) => Shipped(docs)
  }

  /** The conversion loop of `_run`, one fetched document at a time. */
  method ShipAll(docs: seq<Node>) returns (processed: seq<Value>)
    ensures processed == Shipped(docs)
  {
    processed := [];
    var i := 0;
    while i < |docs|
      invariant 0 <= i <= |docs| && |processed| == i
      invariant forall k :: 0 <= k < i ==> processed[k] == Walk(docs[k], {}).0
    {
      var doc, _ := ConvertObjectIds(docs[i], {});
      processed := processed + [doc];
      i := i + 1;
    }
  }

  /** `MongoDBQueryTool._run(query_filter, limit, **kwargs)`. A non-empty
      filter dict of the caller is updated in place (keyword filters and the
      city rewrite stay in it); an empty or missing one is replaced by a
      fresh dict and stays as it was. Documents are converted by the walk
      `_convert_objectids`. */
  method Run(db: Database, collectionName: string, queryFilter: FilterDict?, limit: int, kwargs: Fields)
    returns (results: seq<Value>)
    modifies queryFilter
    ensures var start := if queryFilter != null then old(queryFilter.entries) else [];
      results == RunResult(db, collectionName, QueryFilter(start, kwargs), limit)
    ensures queryFilter != null && old(queryFilter.entries) != [] ==>
      queryFilter.entries == QueryFilter(old(queryFilter.entries), kwargs)
    ensures queryFilter != null && old(queryFilter.entries) == [] ==> queryFilter.entries == []
  {
    var filterDict: FilterDict;
    if queryFilter != null && queryFilter.entries != [] {
      filterDict := queryFilter;
    } else {
      filterDict := new FilterDict([]);
    }
    ghost var start := filterDict.entries;
    if kwargs != [] {
      filterDict.entries := Update(filterDict.entries, kwargs);
    }
    assert filterDict.entries == Update(start, kwargs);
    if HasKey(filterDict.entries, "cityName") {
      var city := GetValue(filterDict.entries, "cityName");
      if !city.Dict? {
        filterDict.entries := SetKey(filterDict.entries, "cityName", AnchoredIgnoreCase(PyStr(city)));
      }
    }
    assert filterDict.entries == QueryFilter(start, kwargs);
    match FindLimited(db(collectionName), filterDict.entries, limit) {
      case Err(_) =>
        results := [];
      case Ok(docs) =>
        results := ShipAll(docs);
    }
  }
}
