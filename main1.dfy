// The pure pieces of the direct assistant: the listing of tool results
// handed to the generation model, and the food-search arguments taken from
// a query and its classification.

module DirectAssistant {
  import opened PyStrings
  import opened PyValues

  /** At most this many results are listed. */
  const MaxListed: nat := 20

  const NoResults := "No results found."

  function Min(a: nat, b: nat): nat {
    if a <= b then a else b
  }

  // ------------------------------------------------------- one listed result

  /** `item.get('_id', 'N/A')`: the default only when the key is absent. */
  function ItemId(item: Fields): Value {
    GetOr(item, "_id", Str("N/A"))
  }

  /** `item.get('shops') or item.get('foodPlace') or "Unknown Place"`. */
  function ItemName(item: Fields): Value {
    FirstTruthy(item, ["shops", "foodPlace"], Str("Unknown Place"))
  }

  /** `item.get('famousFor') or item.get('description') or "No description"`. */
  function ItemDetails(item: Fields): Value {
    FirstTruthy(item, ["famousFor", "description"], Str("No description"))
  }

  /** `item.get('category', 'General')`: the default only when the key is
      absent. */
  function ItemCategory(item: Fields): Value {
    GetOr(item, "category", Str("General"))
  }

  /** `f"{i}. ID: {_id} | Name: {name} | Category: {category} | Details: {desc}"`. */
  function Entry(i: nat, item: Fields): string {
    NatStr(i) + ". ID: " + PyStr(ItemId(item)) + " | Name: " + PyStr(ItemName(item))
      + " | Category: " + PyStr(ItemCategory(item)) + " | Details: " + PyStr(ItemDetails(item))
  }

  /** `f"... and {n} more results."`. */
  function Overflow(n: nat): string {
    "... and " + NatStr(n) + " more results."
  }

  // --------------------------------------------------------- the whole list

  /** The first `MaxListed` results, each turned into a line by `line`
      with its number, counted from 1 in input order. */
  function Numbered(results: seq<Fields>, line: (nat, Fields) -> string): (lines: seq<string>)
    ensures |lines| == Min(|results|, MaxListed)
    ensures forall i :: 0 <= i < |lines| ==> lines[i] == line(i + 1, results[i])
  {
    var shown := Min(|results|, MaxListed);
    seq(shown, i requires 0 <= i < shown => line(i + 1, results[i]))
  }

  /** The entry lines of the listing. */
  function Entries(results: seq<Fields>): (lines: seq<string>)
    ensures |lines| == Min(|results|, MaxListed)
    ensures forall i :: 0 <= i < |lines| ==> lines[i] == Entry(i + 1, results[i])
  {
    Numbered(results, Entry)
  }

  /** The lines of the listing: the entry lines, then the overflow notice
      when there are more than `MaxListed` results. */
  function Listed(results: seq<Fields>): (lines: seq<string>)
    ensures |lines| == Min(|results|, MaxListed) + (if |results| > MaxListed then 1 else 0)
    ensures forall i :: 0 <= i < Min(|results|, MaxListed) ==> lines[i] == Entry(i + 1, results[i])
    ensures |results| > MaxListed <==> |lines| == MaxListed + 1 && lines[MaxListed] == Overflow(|results| - MaxListed)
  {
    Entries(results) + (if |results| > MaxListed then [Overflow(|results| - MaxListed)] else [])
  }

  /** `format_tool_results(results)`. */
  function FormatToolResults(results: seq<Fields>): string {
    if results == [] then NoResults else Join("\n", Listed(results))
  }

  /** The loop of `format_tool_results`: `formatted` gets one entry per
      result of `results[:20]`, then the overflow notice, and the lines are
      joined with newlines. */
  method FormatResults(results: seq<Fields>) returns (text: string)
    ensures text == FormatToolResults(results)
  {
    if results == [] {
      return NoResults;
    }
    ghost var lines := Listed(results);
    var formatted: seq<string> := [];
    var processed := if |results| > MaxListed then results[..MaxListed] else results;
    var i := 0;
    while i < |processed|
      invariant 0 <= i <= |processed| == Min(|results|, MaxListed)
      invariant formatted == lines[..i]
    {
      assert processed[i] == results[i];
      var entry := Entry(i + 1, processed[i]);
      assert entry == lines[i];
      PrefixSnoc(lines, i);
      formatted := formatted + [entry];
      i := i + 1;
    }
    if |results| > MaxListed {
      assert lines == lines[..MaxListed] + [lines[MaxListed]];
      formatted := formatted + [Overflow(|results| - MaxListed)];
    } else {
      assert lines[..i] == lines;
    }
    text := Join("\n", formatted);
  }

  /** Taking one more element of a sequence appends it. */
  lemma PrefixSnoc<T>(s: seq<T>, i: nat)
    requires i < |s|
    ensures s[..i + 1] == s[..i] + [s[i]]
  {
  }

  /** The listing is "No results found." exactly when there are no
      results: any other listing starts with the digit of entry 1. */
  lemma NoResultsIffEmpty(results: seq<Fields>)
    ensures FormatToolResults(results) == NoResults <==> results == []
  {
    if results != [] {
      var lines := Listed(results);
      var first := Entry(1, results[0]);
      assert lines[0] == first;
      assert NatStr(1) == "1";
      assert first[0] == '1';
      JoinHead(lines);
      assert FormatToolResults(results)[0] == '1';
      assert NoResults[0] == 'N';
    }
  }

  /** A newline join starts with its first piece. */
  lemma JoinHead(parts: seq<string>)
    requires parts != [] && parts[0] != []
    ensures Join("\n", parts) != [] && Join("\n", parts)[0] == parts[0][0]
  {
  }

  /** No value shown for the result holds a newline. */
  predicate OneLine(item: Fields) {
    '\n' !in PyStr(ItemId(item)) && '\n' !in PyStr(ItemName(item))
    && '\n' !in PyStr(ItemCategory(item)) && '\n' !in PyStr(ItemDetails(item))
  }

  /** An entry of such a result is one line. */
  lemma EntryOneLine(i: nat, item: Fields)
    requires OneLine(item)
    ensures '\n' !in Entry(i, item)
  {
    assert '\n' !in NatStr(i);
    EntryTextOneLine(NatStr(i), PyStr(ItemId(item)), PyStr(ItemName(item)), PyStr(ItemCategory(item)), PyStr(ItemDetails(item)));
  }

  /** The entry's text put together from its pieces, without a newline when
      they have none. */
  lemma EntryTextOneLine(n: string, id: string, name: string, category: string, details: string)
    requires '\n' !in n && '\n' !in id && '\n' !in name && '\n' !in category && '\n' !in details
    ensures '\n' !in n + ". ID: " + id + " | Name: " + name + " | Category: " + category + " | Details: " + details
  {
  }

  /** The overflow notice is one line. */
  lemma OverflowOneLine(n: nat)
    ensures '\n' !in Overflow(n)
  {
    assert '\n' !in NatStr(n);
    assert '\n' !in "... and " && '\n' !in " more results.";
  }

  /** When no shown value holds a newline, no line of the listing holds
      one. */
  lemma ListedOneLine(results: seq<Fields>)
    requires forall i :: 0 <= i < |results| ==> OneLine(results[i])
    ensures forall k :: 0 <= k < |Listed(results)| ==> Count(Listed(results)[k], '\n') == 0
  {
    var lines := Listed(results);
    forall k | 0 <= k < |lines|
      ensures Count(lines[k], '\n') == 0
    {
      if k < Min(|results|, MaxListed) {
        EntryOneLine(k + 1, results[k]);
      } else {
        OverflowOneLine(|results| - MaxListed);
      }
      CountAbsent(lines[k], '\n');
    }
  }

  /** When no shown value holds a newline, the listing of `n` results has
      `min(n, 20)` entry lines plus one overflow line when `n > 20`: one
      newline fewer than that, none at the end. */
  lemma ListingLines(results: seq<Fields>)
    requires results != []
    requires forall i :: 0 <= i < |results| ==> OneLine(results[i])
    ensures Count(FormatToolResults(results), '\n') + 1
      == Min(|results|, MaxListed) + (if |results| > MaxListed then 1 else 0)
  {
    ListedOneLine(results);
    JoinNewlines(Listed(results));
  }

  // ------------------------------------------------- food search arguments

  /** `"veg" in user_query.lower() and "non" not in user_query.lower()`. */
  predicate VegOnly(userQuery: string) {
    Contains(Lower(userQuery), "veg") && !Contains(Lower(userQuery), "non")
  }

  /** Asking for "non" in any capitals, anywhere, switches the vegetarian
      filter off. */
  lemma {:induction false} NonSwitchesVegOff(prefix: string, word: string, suffix: string)
    requires Lower(word) == "non"
    ensures !VegOnly(prefix + word + suffix)
  {
    LowerThree(prefix, word, suffix);
    ContainsMiddle(Lower(prefix), "non", Lower(suffix));
  }

  /** A query without "non" that says "veg" in any capitals asks for the
      vegetarian filter. */
  lemma {:induction false} VegSwitchesOn(prefix: string, word: string, suffix: string)
    requires Lower(word) == "veg"
    requires !Contains(Lower(prefix + word + suffix), "non")
    ensures VegOnly(prefix + word + suffix)
  {
    LowerThree(prefix, word, suffix);
    ContainsMiddle(Lower(prefix), "veg", Lower(suffix));
  }

  /** `parameters.get(key)` on the classification's parameters. */
  function Param(params: seq<(string, string)>, key: string): (r: Option<string>)
    ensures r.None? <==> forall i :: 0 <= i < |params| ==> params[i].0 != key
    ensures r.Some? ==> exists i :: 0 <= i < |params| && params[i] == (key, r.value)
  {
    if params == [] then None
    else if params[0].0 == key then Some(params[0].1)
    else
      assert forall i :: 0 <= i < |params| - 1 ==> params[1..][i] == params[i + 1];
      Param(params[1..], key)
  }

  /** `parameters.get("category") or parameters.get("food_type")`: the
      category when it is a non-empty text, otherwise whatever `food_type`
      gives, an empty text included. */
  function CategoryFilter(params: seq<(string, string)>): (r: Option<string>)
    ensures var c := Param(params, "category");
      c.Some? && c.value != [] ==> r == c
    ensures var c := Param(params, "category");
      !(c.Some? && c.value != []) ==> r == Param(params, "food_type")
  {
    var c := Param(params, "category");
    if c.Some? && c.value != [] then c else Param(params, "food_type")
  }
}
