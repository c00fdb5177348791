/** The regular expressions `CrewOutputParser` applies to the model's text
    (crew/crew_output_parser.py), each written out as a recogniser over the
    text. Every pattern here is matched as Python's `re` engine matches it:
    leftmost start first, greedy repetition, backtracking on failure. For the
    pair patterns every choice point but the last has a single alternative
    that can still succeed, so reading the pattern left to right finds the
    same match; the last part, `\s*["']?([^,\n\r}]+)`, is worked out with
    its backtracking in `NameCapture`. */
module OutputPatterns {
  import opened PyStrings
  import opened PyValues

  // ------------------------------------------------------------ characters

  predicate IsQuote(c: char) { c == '"' || c == '\'' }

  /** `[^,\n\r}]`, the class of the unquoted name captures. */
  predicate InNameClass(c: char) { c != ',' && c != '\n' && c != '\r' && c != '}' }

  /** `c` matches the pattern character `l` (a lower-case letter or a
      symbol) under `re.IGNORECASE`: its upper case, and the characters
      whose simple lower case is `l` (dotted capital I, Kelvin sign) or that
      `re` lists as equivalent (dotless i, long s). */
  predicate FoldEq(c: char, l: char) {
    || c == l
    || ('a' <= l <= 'z' && c == (l as int - 32) as char)
    || (l == 'i' && (c == '\U{130}' || c == '\U{131}'))
    || (l == 's' && c == '\U{17f}')
    || (l == 'k' && c == '\U{212a}')
  }

  /** The literal `lit` (written in lower case) at `p`, case-insensitively:
      the position after it. */
  function LitAt(s: string, p: nat, lit: string): (r: Option<nat>)
    ensures r.Some? ==> r.value == p + |lit| <= |s|
  {
    if p + |lit| <= |s| && FoldMatches(s[p..p + |lit|], lit) then Some(p + |lit|)
    else None
  }

  /** `t` matches the lower-case literal `lit` under `re.IGNORECASE`. */
  predicate FoldMatches(t: string, lit: string)
    requires |t| == |lit|
  {
    forall j :: 0 <= j < |lit| ==> FoldEq(t[j], lit[j])
  }

  /** `\s*` from `p`: the first position at or after `p` that is not whitespace. */
  function SkipSpaces(s: string, p: nat): (q: nat)
    requires p <= |s|
    ensures p <= q <= |s|
    decreases |s| - p
  {
    if p < |s| && IsSpace(s[p]) then SkipSpaces(s, p + 1) else p
  }

  /** `SkipSpaces` passes exactly the whitespace. */
  lemma {:induction false} SkipSpacesSpec(s: string, p: nat)
    requires p <= |s|
    ensures forall j :: p <= j < SkipSpaces(s, p) ==> IsSpace(s[j])
    ensures SkipSpaces(s, p) < |s| ==> !IsSpace(s[SkipSpaces(s, p)])
    decreases |s| - p
  {
    if p < |s| && IsSpace(s[p]) {
      SkipSpacesSpec(s, p + 1);
    }
  }

  /** `["']?` at `p`. */
  function OptQuote(s: string, p: nat): (q: nat)
    requires p <= |s|
    ensures p <= q <= |s|
  {
    if p < |s| && IsQuote(s[p]) then p + 1 else p
  }

  /** `c?` at `p`. */
  function OptChar(s: string, p: nat, c: char): (q: nat)
    requires p <= |s|
    ensures p <= q <= |s|
  {
    if p < |s| && s[p] == c then p + 1 else p
  }

  /** The end of the longest run of `[^,\n\r}]` that starts at `k`. */
  function NameRunEnd(s: string, k: nat): (j: nat)
    requires k <= |s|
    ensures k <= j <= |s|
    ensures forall m :: k <= m < j ==> InNameClass(s[m])
    ensures j < |s| ==> !InNameClass(s[j])
    decreases |s| - k
  {
    if k < |s| && InNameClass(s[k]) then NameRunEnd(s, k + 1) else k
  }

  /** The last position in `[lo, hi)` that holds a `[^,\n\r}]` character, or -1. */
  function LastInClass(s: string, lo: nat, hi: nat): (k: int)
    requires lo <= hi <= |s|
    ensures k == -1 || (lo <= k < hi && InNameClass(s[k]))
    ensures forall m :: k < m < hi && lo <= m ==> !InNameClass(s[m])
    decreases hi - lo
  {
    if hi == lo then -1
    else if InNameClass(s[hi - 1]) then hi - 1
    else LastInClass(s, lo, hi - 1)
  }

  /** `\s*["']?([^,\n\r}]+)` from `p`: the span of the capture. With `q` the
      end of the whitespace: after a quote the capture starts behind it if
      it can; otherwise it starts at `q` (the quote itself belongs to the
      class); when `q` holds no class character the engine gives back
      whitespace one character at a time, so the capture is the last class
      character before `q`, on its own. The capture is always as long as
      the class allows. */
  function NameCapture(s: string, p: nat): (r: Option<(nat, nat)>)
    requires p <= |s|
    ensures r.Some? ==> p <= r.value.0 < r.value.1 <= |s|
    ensures r.Some? ==> forall m :: r.value.0 <= m < r.value.1 ==> InNameClass(s[m])
    ensures r.Some? && r.value.1 < |s| ==> !InNameClass(s[r.value.1])
    ensures r.None? <==> forall m :: p <= m <= SkipSpaces(s, p) && m < |s| ==> !InNameClass(s[m])
  {
    var q := SkipSpaces(s, p);
    if q + 1 < |s| && IsQuote(s[q]) && InNameClass(s[q + 1]) then Some((q + 1, NameRunEnd(s, q + 1)))
    else if q < |s| && InNameClass(s[q]) then Some((q, NameRunEnd(s, q)))
    else
      var k := LastInClass(s, p, q);
      if k == -1 then None
      else
        assert k + 1 < |s| ==> !InNameClass(s[k + 1]);
        Some((k, k + 1))
  }

  // ----------------------------------------------------- the pair patterns

  /** What `([a-f0-9]{24})` captures under `re.IGNORECASE`. */
  predicate HexId(x: string) { |x| == 24 && AllHex(x) }

  /** What `([^,\n\r}]+)` captures. */
  predicate NameText(x: string) { x != [] && forall m :: 0 <= m < |x| ==> InNameClass(x[m]) }

  /** What `([^"]+)` captures. */
  predicate Unquoted(x: string) { x != [] && '"' !in x }

  lemma SliceNameText(s: string, lo: nat, hi: nat)
    requires lo < hi <= |s| && forall m :: lo <= m < hi ==> InNameClass(s[m])
    ensures NameText(s[lo..hi])
  {
    var x := s[lo..hi];
    assert forall m :: 0 <= m < |x| ==> x[m] == s[lo + m];
  }

  lemma SliceUnquoted(s: string, lo: nat, hi: nat)
    requires lo < hi <= |s| && forall m :: lo <= m < hi ==> s[m] != '"'
    ensures Unquoted(s[lo..hi])
  {
    var x := s[lo..hi];
    assert forall m :: 0 <= m < |x| ==> x[m] == s[lo + m];
  }

  /** The key the lenient pair pattern expects after the id. */
  datatype KeyWord = Shops | NameOrFoodPlace

  /** `shops`, or `(?:name|foodPlace)`, case-insensitively at `p`. */
  function KeywordAt(s: string, p: nat, kw: KeyWord): (r: Option<nat>)
    ensures r.Some? ==> p < r.value <= |s|
  {
    match kw
    case Shops => LitAt(s, p, "shops")
    case NameOrFoodPlace =>
      match LitAt(s, p, "name")
      case Some(e) => Some(e)
      case None => LitAt(s, p, "foodplace")
  }

  /** One match of a pair pattern: where it ends and its two groups. */
  datatype Capture = Capture(end: nat, id: string, name: string)

  /** `_id["']?\s*:\s*["']?([a-f0-9]{24})["']?\s*,?\s*` at `p`: the 24 hex
      digits and where the key is looked for. */
  function LenientId(s: string, p: nat): (r: Option<(string, nat)>)
    requires p <= |s|
    ensures r.Some? ==> p < r.value.1 <= |s|
    ensures r.Some? ==> HexId(r.value.0)
  {
    match LitAt(s, p, "_id")
    case None => None
    case Some(p1) =>
      var p2 := SkipSpaces(s, OptQuote(s, p1));
      if p2 == |s| || s[p2] != ':' then None
      else
        var h := OptQuote(s, SkipSpaces(s, p2 + 1));
        if h + 24 > |s| || !AllHex(s[h..h + 24]) then None
        else Some((s[h..h + 24], SkipSpaces(s, OptChar(s, SkipSpaces(s, OptQuote(s, h + 24)), ','))))
  }

  /** `KEY["']?\s*:\s*["']?([^,\n\r}]+)` at `p`: the span of the name. */
  function LenientName(s: string, p: nat, kw: KeyWord): (r: Option<(nat, nat)>)
    requires p <= |s|
    ensures r.Some? ==> p < r.value.0 < r.value.1 <= |s|
    ensures r.Some? ==> forall m :: r.value.0 <= m < r.value.1 ==> InNameClass(s[m])
  {
    match KeywordAt(s, p, kw)
    case None => None
    case Some(p4) =>
      var p5 := SkipSpaces(s, OptQuote(s, p4));
      if p5 == |s| || s[p5] != ':' then None
      else NameCapture(s, p5 + 1)
  }

  /** `_id["']?\s*:\s*["']?([a-f0-9]{24})["']?\s*,?\s*KEY["']?\s*:\s*["']?([^,\n\r}]+)`
      under `re.IGNORECASE`, tried at `p`. */
  function LenientAt(s: string, p: nat, kw: KeyWord): (r: Option<Capture>)
    requires p <= |s|
    ensures r.Some? ==> p < r.value.end <= |s|
    ensures r.Some? ==> HexId(r.value.id) && NameText(r.value.name)
  {
    match LenientId(s, p)
    case None => None
    case Some(idPart) =>
      match LenientName(s, idPart.1, kw)
      case None => None
      case Some(span) =>
        SliceNameText(s, span.0, span.1);
        Some(Capture(span.1, idPart.0, s[span.0..span.1]))
  }

  /** `re.findall` of the lenient pattern from `p`: after a match the scan
      goes on where the match ended, otherwise one character further. */
  function FindAllLenient(s: string, p: nat, kw: KeyWord): (ms: seq<(string, string)>)
    requires p <= |s|
    ensures forall k :: 0 <= k < |ms| ==> HexId(ms[k].0) && NameText(ms[k].1)
    decreases |s| - p
  {
    if p == |s| then []
    else
      match LenientAt(s, p, kw)
      case Some(c) => [(c.id, c.name)] + FindAllLenient(s, c.end, kw)
      case None => FindAllLenient(s, p + 1, kw)
  }

  /** The first `c` at or after `k`, or `|s|`. */
  function NextChar(s: string, k: nat, c: char): (j: nat)
    requires k <= |s|
    ensures k <= j <= |s|
    ensures forall m :: k <= m < j ==> s[m] != c
    ensures j < |s| ==> s[j] == c
    decreases |s| - k
  {
    if k < |s| && s[k] != c then NextChar(s, k + 1, c) else k
  }

  /** `"([^"]+)"` at `p`: the span of the text between the quotes. */
  function QuotedText(s: string, p: nat): (r: Option<(nat, nat)>)
    requires p <= |s|
    ensures r.Some? ==> p < r.value.0 < r.value.1 < |s| && s[r.value.1] == '"'
    ensures r.Some? ==> forall m :: r.value.0 <= m < r.value.1 ==> s[m] != '"'
  {
    if p < |s| && s[p] == '"' then
      var j := NextChar(s, p + 1, '"');
      if p + 1 < j < |s| then Some((p + 1, j)) else None
    else None
  }

  /** `sep` after optional whitespace at `p`: the position after it. */
  function SpacedChar(s: string, p: nat, sep: char): (r: Option<nat>)
    requires p <= |s|
    ensures r.Some? ==> p < r.value <= |s|
  {
    var q := SkipSpaces(s, p);
    if q < |s| && s[q] == sep then Some(q + 1) else None
  }

  /** `"_id"\s*:\s*"([^"]+)"\s*,\s*` at `p`: the span of the id and where
      the key's opening quote is looked for. */
  function QuotedId(s: string, p: nat): (r: Option<(nat, nat, nat)>)
    requires p <= |s|
    ensures r.Some? ==> p < r.value.0 < r.value.1 < r.value.2 <= |s|
    ensures r.Some? ==> forall m :: r.value.0 <= m < r.value.1 ==> s[m] != '"'
  {
    match LitAt(s, p, "\"_id\"")
    case None => None
    case Some(p1) =>
      match SpacedChar(s, p1, ':')
      case None => None
      case Some(p2) =>
        match QuotedText(s, SkipSpaces(s, p2))
        case None => None
        case Some(a) =>
          match SpacedChar(s, a.1 + 1, ',')
          case None => None
          case Some(p3) => Some((a.0, a.1, SkipSpaces(s, p3)))
  }

  /** `"(?:name|foodPlace)"\s*:\s*"([^"]+)"` at `p`: the span of the name. */
  function QuotedName(s: string, p: nat): (r: Option<(nat, nat)>)
    requires p <= |s|
    ensures r.Some? ==> p < r.value.0 < r.value.1 < |s| && s[r.value.1] == '"'
    ensures r.Some? ==> forall m :: r.value.0 <= m < r.value.1 ==> s[m] != '"'
  {
    if p == |s| || s[p] != '"' then None
    else
      match KeywordAt(s, p + 1, NameOrFoodPlace)
      case None => None
      case Some(p5) =>
        if p5 == |s| || s[p5] != '"' then None
        else
          match SpacedChar(s, p5 + 1, ':')
          case None => None
          case Some(p6) => QuotedText(s, SkipSpaces(s, p6))
  }

  /** `"_id"\s*:\s*"([^"]+)"\s*,\s*"(?:name|foodPlace)"\s*:\s*"([^"]+)"`
      under `re.IGNORECASE`, tried at `p`. */
  function QuotedAt(s: string, p: nat): (r: Option<Capture>)
    requires p <= |s|
    ensures r.Some? ==> p < r.value.end <= |s|
    ensures r.Some? ==> Unquoted(r.value.id) && Unquoted(r.value.name)
  {
    match QuotedId(s, p)
    case None => None
    case Some(a) =>
      match QuotedName(s, a.2)
      case None => None
      case Some(b) =>
        SliceUnquoted(s, a.0, a.1);
        SliceUnquoted(s, b.0, b.1);
        Some(Capture(b.1 + 1, s[a.0..a.1], s[b.0..b.1]))
  }

  /** `re.findall` of the quoted pattern from `p`. */
  function FindAllQuoted(s: string, p: nat): (ms: seq<(string, string)>)
    requires p <= |s|
    ensures forall k :: 0 <= k < |ms| ==> Unquoted(ms[k].0) && Unquoted(ms[k].1)
    decreases |s| - p
  {
    if p == |s| then []
    else
      match QuotedAt(s, p)
      case Some(c) => [(c.id, c.name)] + FindAllQuoted(s, c.end)
      case None => FindAllQuoted(s, p + 1)
  }

  // ------------------------------------------------ the food JSON candidate

  const RecKey: string := "\"recommendations\""

  predicate RecKeyAt(s: string, a: nat) {
    a + |RecKey| <= |s| && s[a..a + |RecKey|] == RecKey
  }

  /** `s[lo..hi]` holds no brace. */
  predicate NoBrace(s: string, lo: nat, hi: nat)
    requires lo <= hi <= |s|
  {
    forall m :: lo <= m < hi ==> s[m] != '{' && s[m] != '}'
  }

  /** `"recommendations"` occurs inside `s[lo..hi]`. */
  predicate KeyWithin(s: string, lo: nat, hi: nat)
    requires hi <= |s|
  {
    exists a :: lo <= a < hi && a + |RecKey| <= hi && RecKeyAt(s, a)
  }

  /** The positions of a match of
      `\{[^{}]*"recommendations"[^{}]*\[[^\]]*\][^{}]*\}`: the opening
      brace `i`, the bracket `b`, the closing bracket `c` and the closing
      brace `e`. */
  predicate Shape(s: string, i: nat, b: nat, c: nat, e: nat) {
    && i < b < c < e < |s|
    && s[i] == '{' && s[b] == '[' && s[c] == ']' && s[e] == '}'
    && NoBrace(s, i + 1, b) && KeyWithin(s, i + 1, b)
    && (forall m :: b < m < c ==> s[m] != ']')
    && NoBrace(s, c + 1, e)
  }

  /** No match of the candidate pattern starts at `i`. */
  ghost predicate NoMatchAt(s: string, i: nat) {
    forall b: nat, c: nat, e: nat :: !Shape(s, i, b, c, e)
  }

  /** The first brace at or after `k`, or `|s|`. */
  function NextBrace(s: string, k: nat): (j: nat)
    requires k <= |s|
    ensures k <= j <= |s|
    ensures NoBrace(s, k, j)
    ensures j < |s| ==> s[j] == '{' || s[j] == '}'
    decreases |s| - k
  {
    if k < |s| && s[k] != '{' && s[k] != '}' then NextBrace(s, k + 1) else k
  }

  /** The first `]` from `k` is the `]` with none between. */
  lemma {:induction false} NextCloseIs(s: string, k: nat, j: nat)
    requires k <= j < |s| && s[j] == ']' && forall m :: k <= m < j ==> s[m] != ']'
    ensures NextChar(s, k, ']') == j
    decreases j - k
  {
    if k < j {
      NextCloseIs(s, k + 1, j);
    }
  }

  lemma {:induction false} NextBraceIs(s: string, k: nat, j: nat)
    requires k <= j < |s| && (s[j] == '{' || s[j] == '}') && NoBrace(s, k, j)
    ensures NextBrace(s, k) == j
    decreases j - k
  {
    if k < j {
      NextBraceIs(s, k + 1, j);
    }
  }

  lemma {:induction false} NextBraceBeyond(s: string, k: nat, j: nat)
    requires k <= j <= |s| && NoBrace(s, k, j)
    ensures j <= NextBrace(s, k)
    decreases j - k
  {
    if k < j {
      NextBraceBeyond(s, k + 1, j);
    }
  }

  /** In a match the bracket fixes the rest: `c` is the first `]` after `b`
      and `e` the first brace after `c`; and `b` comes before the first
      brace after `i`. */
  lemma ShapeDetermined(s: string, i: nat, b: nat, c: nat, e: nat)
    requires Shape(s, i, b, c, e)
    ensures c == NextChar(s, b + 1, ']') && e == NextBrace(s, c + 1) && b < NextBrace(s, i + 1)
  {
    NextCloseIs(s, b + 1, c);
    NextBraceIs(s, c + 1, e);
    NextBraceBeyond(s, i + 1, b);
  }

  /** Whether the bracket at `k` completes a match from the brace at `i`:
      the closing bracket and brace it leads to. */
  function BracketTail(s: string, i: nat, k: nat): (r: Option<(nat, nat)>)
    requires i < k < |s|
  {
    var c := NextChar(s, k + 1, ']');
    if s[k] == '[' && KeyWithin(s, i + 1, k) && c < |s| then
      var e := NextBrace(s, c + 1);
      if e < |s| && s[e] == '}' then Some((c, e)) else None
    else None
  }

  /** `BracketTail` finds exactly the matches with bracket `k`. */
  lemma BracketTailShape(s: string, i: nat, k: nat)
    requires i < k < |s| && s[i] == '{' && NoBrace(s, i + 1, k)
    ensures BracketTail(s, i, k).Some? ==>
      Shape(s, i, k, BracketTail(s, i, k).value.0, BracketTail(s, i, k).value.1)
    ensures BracketTail(s, i, k).None? ==> forall c: nat, e: nat :: !Shape(s, i, k, c, e)
  {
    forall c: nat, e: nat | Shape(s, i, k, c, e) ensures BracketTail(s, i, k) == Some((c, e)) {
      ShapeDetermined(s, i, k, c, e);
    }
  }

  /** The last bracket below `b` (and above `i`) that completes a match from
      the brace at `i`, with the closing bracket and brace it leads to. */
  function BestBracket(s: string, i: nat, b: nat): (r: Option<(nat, nat, nat)>)
    requires i < b <= |s|
    ensures r.Some? ==> i < r.value.0 < b && BracketTail(s, i, r.value.0) == Some((r.value.1, r.value.2))
    ensures forall k :: (r.None? || r.value.0 < k) && i < k < b ==> BracketTail(s, i, k).None?
    decreases b
  {
    var k := b - 1;
    if k == i then None
    else
      match BracketTail(s, i, k)
      case Some(t) => Some((k, t.0, t.1))
      case None => BestBracket(s, i, k)
  }

  /** Looking below the first brace after `i`, `BestBracket` finds the match
      from `i` with the last bracket, and nothing means no match. */
  lemma BestBracketShape(s: string, i: nat, b: nat)
    requires i < |s| && s[i] == '{' && i < b <= NextBrace(s, i + 1)
    ensures BestBracket(s, i, b).Some? ==>
      var m := BestBracket(s, i, b).value; Shape(s, i, m.0, m.1, m.2)
    ensures forall b': nat, c: nat, e: nat ::
      (BestBracket(s, i, b).None? || BestBracket(s, i, b).value.0 < b') && b' < b ==> !Shape(s, i, b', c, e)
  {
    var r := BestBracket(s, i, b);
    if r.Some? {
      BracketTailShape(s, i, r.value.0);
    }
    forall b': nat, c: nat, e: nat | (r.None? || r.value.0 < b') && i < b' < b
      ensures !Shape(s, i, b', c, e)
    {
      BracketTailShape(s, i, b');
    }
  }

  /** The match that starts at `i`, if any. */
  function MatchAt(s: string, i: nat): (r: Option<(nat, nat, nat)>)
    requires i < |s|
    ensures r.Some? ==> Shape(s, i, r.value.0, r.value.1, r.value.2)
    ensures r.Some? ==> forall b': nat, c: nat, e: nat :: r.value.0 < b' ==> !Shape(s, i, b', c, e)
    ensures r.None? ==> NoMatchAt(s, i)
  {
    if s[i] != '{' then None
    else
      var f := NextBrace(s, i + 1);
      assert forall b': nat, c: nat, e: nat :: Shape(s, i, b', c, e) ==> b' < f by {
        forall b': nat, c: nat, e: nat | Shape(s, i, b', c, e) ensures b' < f {
          ShapeDetermined(s, i, b', c, e);
        }
      }
      if f == i + 1 then None
      else
        BestBracketShape(s, i, f);
        BestBracket(s, i, f)
  }

  /** `re.search` of the candidate pattern from `p` on: the leftmost start,
      and for it the last bracket that works. */
  function SearchFrom(s: string, p: nat): (r: Option<(nat, nat, nat, nat)>)
    requires p <= |s|
    ensures r.Some? ==> p <= r.value.0 && Shape(s, r.value.0, r.value.1, r.value.2, r.value.3)
    ensures r.Some? ==> forall i :: p <= i < r.value.0 ==> NoMatchAt(s, i)
    ensures r.Some? ==> forall b': nat, c: nat, e: nat :: r.value.1 < b' ==> !Shape(s, r.value.0, b', c, e)
    ensures r.None? ==> forall i :: p <= i < |s| ==> NoMatchAt(s, i)
    decreases |s| - p
  {
    if p == |s| then None
    else
      match MatchAt(s, p)
      case Some(m) => Some((p, m.0, m.1, m.2))
      case None => SearchFrom(s, p + 1)
  }

  lemma SliceOfSlice(s: string, lo: nat, hi: nat, x: nat, y: nat)
    requires lo <= hi <= |s| && x <= y <= hi - lo
    ensures s[lo..hi][x..y] == s[lo + x..lo + y]
  {
    var t := s[lo..hi];
    assert forall j :: 0 <= j < y - x ==> t[x..y][j] == t[x + j] == s[lo + x + j];
  }

  /** A piece of text opened by `{`, closed by `}` and holding
      `"recommendations"`. */
  predicate BracedWithKey(g: string) {
    |g| >= 2 && g[0] == '{' && g[|g| - 1] == '}' && Contains(g, RecKey)
  }

  /** The text of a match is brace-delimited and holds the key. */
  lemma ShapeText(s: string, i: nat, b: nat, c: nat, e: nat)
    requires Shape(s, i, b, c, e)
    ensures i < e < |s| && BracedWithKey(s[i..e + 1])
  {
    var a :| i + 1 <= a < b && a + |RecKey| <= b && RecKeyAt(s, a);
    KeySlice(s, i, e + 1, a);
    BracedSlice(s, i, e);
  }

  /** A key occurrence inside `s[lo..hi]` is one of that slice. */
  lemma KeySlice(s: string, lo: nat, hi: nat, a: nat)
    requires lo <= a && a + |RecKey| <= hi <= |s| && RecKeyAt(s, a)
    ensures Contains(s[lo..hi], RecKey)
  {
    SliceOfSlice(s, lo, hi, a - lo, a - lo + |RecKey|);
    ContainsAt(s[lo..hi], RecKey, a - lo);
  }

  /** A slice from a `{` to a `}` holding the key is braced with the key. */
  lemma BracedSlice(s: string, i: nat, e: nat)
    requires i < e < |s| && s[i] == '{' && s[e] == '}' && Contains(s[i..e + 1], RecKey)
    ensures BracedWithKey(s[i..e + 1])
  {
    var g := s[i..e + 1];
    assert g[0] == s[i] && g[|g| - 1] == s[e];
  }

  /** The text `re.search(...).group(0)` returns, if the pattern matches: a
      brace-delimited piece of `s` holding `"recommendations"` before its
      first array, with no brace outside that array. */
  function JsonObjectCandidate(s: string): (r: Option<string>)
    ensures r.Some? ==> BracedWithKey(r.value)
  {
    match CandidateSpan(s)
    case None => None
    case Some(m) => Some(s[m.0..m.1])
  }

  /** The positions of the match `re.search` finds in the whole text. */
  function CandidateSpan(s: string): (r: Option<(nat, nat)>)
    ensures r.Some? ==> r.value.0 <= r.value.1 <= |s| && BracedWithKey(s[r.value.0..r.value.1])
  {
    match SearchFrom(s, 0)
    case None => None
    case Some(m) =>
      ShapeText(s, m.0, m.1, m.2, m.3);
      Some((m.0, m.3 + 1))
  }

  /** The pattern finds nothing exactly when no position starts a match. */
  lemma JsonObjectCandidateNone(s: string)
    ensures JsonObjectCandidate(s).None? <==> forall i :: 0 <= i < |s| ==> NoMatchAt(s, i)
  {
    var m := SearchFrom(s, 0);
    assert CandidateSpan(s).Some? <==> m.Some?;
    if m.Some? {
      assert !NoMatchAt(s, m.value.0);
    }
  }
}
