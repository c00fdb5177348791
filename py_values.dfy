/** Python values as they flow through the recommendation core: what
    `json.loads` produces, what the MongoDB driver returns (with `ObjectId`
    and `datetime` leaves) and what the services build. A `dict` is an
    ordered sequence of key/value pairs (insertion order, as in Python);
    lookups take the first pair with the key, and every operation here that
    builds a dict keeps keys unique. */
module PyValues {
  import opened PyStrings

  datatype Option<+T> = None | Some(value: T)

  datatype Result<+T> = Ok(value: T) | Err(error: string)

  /** A naive `datetime.datetime`. */
  datatype DateTime = DateTime(year: nat, month: nat, day: nat, hour: nat, minute: nat, second: nat, microsecond: nat)

  /** `float` keeps the text of its `repr`; float arithmetic is not part of
      the model. `Oid` is a `bson.ObjectId` given by its 24 lower-case hex
      digits. */
  datatype Value =
    | Null
    | Bool(b: bool)
    | Int(i: int)
    | Float(repr: string)
    | Str(s: string)
    | Oid(hex: string)
    | Date(t: DateTime)
    | List(items: seq<Value>)
    | Dict(fields: Fields)

  type Fields = seq<(string, Value)>

  /** How a call to `json.loads` ends: a value, `json.JSONDecodeError`, a
      `ValueError` that is not a `JSONDecodeError` (the integer digit limit),
      or any other exception (`RecursionError` on deep nesting). */
  datatype JsonOutcome = Parsed(v: Value) | Malformed(msg: string) | Rejected(msg: string) | Crashed(msg: string)

  /** `json.loads`, which RFC 8259 specifies; the model takes it as given. */
  type Decoder = string -> JsonOutcome

  // ---------------------------------------------------------------- dicts

  predicate HasKey(fs: Fields, k: string) {
    exists i :: 0 <= i < |fs| && fs[i].0 == k
  }

  /** `list(d)`: the keys in order. */
  function Keys(fs: Fields): (ks: seq<string>)
    ensures |ks| == |fs|
    ensures forall i :: 0 <= i < |fs| ==> ks[i] == fs[i].0
  {
    seq(|fs|, i requires 0 <= i < |fs| => fs[i].0)
  }

  /** `d.get(k)`: the value of the first pair with key `k`. */
  function Get(fs: Fields, k: string): (r: Option<Value>)
    ensures r.None? <==> !HasKey(fs, k)
    ensures r.Some? ==> (k, r.value) in fs
  {
    if fs == [] then None
    else if fs[0].0 == k then Some(fs[0].1)
    else
      var r := Get(fs[1..], k);
      assert r.Some? ==> (k, r.value) in fs[1..];
      assert HasKey(fs[1..], k) ==> HasKey(fs, k) by {
        if HasKey(fs[1..], k) {
          var i :| 0 <= i < |fs[1..]| && fs[1..][i].0 == k;
          assert fs[i + 1].0 == k;
        }
      }
      r
  }

  /** `d.get(k, default)`. */
  function GetOr(fs: Fields, k: string, default: Value): (r: Value)
    ensures HasKey(fs, k) ==> Some(r) == Get(fs, k)
    ensures !HasKey(fs, k) ==> r == default
  {
    match Get(fs, k)
    case Some(v) => v
    case None => default
  }

  /** `d.get(k)`, with `None` when the key is absent. */
  function GetValue(fs: Fields, k: string): Value {
    GetOr(fs, k, Null)
  }

  /** `d[k] = v`: an existing key keeps its place, a new key goes last. */
  function SetKey(fs: Fields, k: string, v: Value): (r: Fields)
    ensures Get(r, k) == Some(v)
    ensures forall k' :: k' != k ==> Get(r, k') == Get(fs, k')
    ensures HasKey(fs, k) ==> Keys(r) == Keys(fs)
    ensures !HasKey(fs, k) ==> Keys(r) == Keys(fs) + [k]
  {
    SetKeyGet(fs, k, v);
    SetKeyKeys(fs, k, v);
    Assign(fs, k, v)
  }

  function Assign(fs: Fields, k: string, v: Value): Fields {
    if fs == [] then [(k, v)]
    else if fs[0].0 == k then [(k, v)] + fs[1..]
    else [fs[0]] + Assign(fs[1..], k, v)
  }

  lemma {:induction false} SetKeyGet(fs: Fields, k: string, v: Value)
    ensures Get(Assign(fs, k, v), k) == Some(v)
    ensures forall k' :: k' != k ==> Get(Assign(fs, k, v), k') == Get(fs, k')
    decreases |fs|
  {
    var r := Assign(fs, k, v);
    if fs == [] {
    } else if fs[0].0 == k {
      assert r[1..] == fs[1..];
    } else {
      SetKeyGet(fs[1..], k, v);
      assert r[1..] == Assign(fs[1..], k, v);
    }
  }

  lemma {:induction false} SetKeyKeys(fs: Fields, k: string, v: Value)
    ensures HasKey(fs, k) ==> Keys(Assign(fs, k, v)) == Keys(fs)
    ensures !HasKey(fs, k) ==> Keys(Assign(fs, k, v)) == Keys(fs) + [k]
  {
    var r := Assign(fs, k, v);
    AssignShape(fs, k, v);
    if HasKey(fs, k) {
      assert Keys(r) == Keys(fs);
    } else {
      assert Keys(r) == Keys(fs) + [k];
    }
  }

  lemma {:induction false} AssignShape(fs: Fields, k: string, v: Value)
    ensures HasKey(fs, k) ==> |Assign(fs, k, v)| == |fs| && forall i :: 0 <= i < |fs| ==> Assign(fs, k, v)[i].0 == fs[i].0
    ensures !HasKey(fs, k) ==> Assign(fs, k, v) == fs + [(k, v)]
    decreases |fs|
  {
    if fs != [] && fs[0].0 != k {
      AssignShape(fs[1..], k, v);
      assert HasKey(fs, k) <==> HasKey(fs[1..], k) by {
        if HasKey(fs, k) {
          var i :| 0 <= i < |fs| && fs[i].0 == k;
          assert fs[1..][i - 1].0 == k;
        }
        if HasKey(fs[1..], k) {
          var i :| 0 <= i < |fs[1..]| && fs[1..][i].0 == k;
          assert fs[i + 1].0 == k;
        }
      }
      assert [fs[0]] + (fs[1..] + [(k, v)]) == fs + [(k, v)];
    } else if fs != [] {
      assert HasKey(fs, k);
    }
  }

  /** Setting a key the dict lacks appends its pair. */
  lemma SetKeyNew(fs: Fields, k: string, v: Value)
    requires !HasKey(fs, k)
    ensures SetKey(fs, k, v) == fs + [(k, v)]
  {
    AssignNew(fs, k, v);
  }

  lemma {:induction false} AssignNew(fs: Fields, k: string, v: Value)
    requires !HasKey(fs, k)
    ensures Assign(fs, k, v) == fs + [(k, v)]
  {
    if fs != [] {
      assert forall j :: 0 <= j < |fs[1..]| ==> fs[1..][j] == fs[j + 1];
      assert fs[0].0 != k;
      AssignNew(fs[1..], k, v);
      assert fs == [fs[0]] + fs[1..];
    }
  }

  /** The value of a pair whose key no earlier pair has is what `d.get`
      returns for that key. */
  lemma {:induction false} GetFirstKey(fs: Fields, i: nat)
    requires i < |fs|
    requires forall j :: 0 <= j < i ==> fs[j].0 != fs[i].0
    ensures Get(fs, fs[i].0) == Some(fs[i].1)
  {
    if i > 0 {
      assert fs[1..][i - 1] == fs[i];
      GetFirstKey(fs[1..], i - 1);
    }
  }

  /** The value the last pair with key `k` carries: what `dict(pairs)` keeps. */
  function LastGet(fs: Fields, k: string): (r: Option<Value>)
    ensures r.None? <==> !HasKey(fs, k)
  {
    if fs == [] then None
    else
      var r := LastGet(fs[..|fs| - 1], k);
      if fs[|fs| - 1].0 == k then Some(fs[|fs| - 1].1)
      else
        assert HasKey(fs[..|fs| - 1], k) <==> HasKey(fs, k) by {
          if HasKey(fs, k) {
            var i :| 0 <= i < |fs| && fs[i].0 == k;
            assert fs[..|fs| - 1][i].0 == k;
          }
        }
        r
  }

  /** `d.update(kw)`: every pair of `kw` in order, later pairs winning. */
  function Update(fs: Fields, kw: Fields): (r: Fields)
    ensures forall k :: HasKey(kw, k) ==> Get(r, k) == LastGet(kw, k)
    ensures forall k :: !HasKey(kw, k) ==> Get(r, k) == Get(fs, k)
    decreases |kw|
  {
    if kw == [] then fs
    else
      var init := kw[..|kw| - 1];
      var (k, v) := kw[|kw| - 1];
      assert forall k' :: k' != k ==> (HasKey(kw, k') <==> HasKey(init, k')) by {
        forall k' | k' != k && HasKey(kw, k') ensures HasKey(init, k') {
          var i :| 0 <= i < |kw| && kw[i].0 == k';
          assert init[i].0 == k';
        }
      }
      SetKey(Update(fs, init), k, v)
  }

  // ------------------------------------------------------------ truthiness

  /** `bool(v)`: `None`, `False`, zero, and empty strings and containers are
      false; every `ObjectId` and `datetime` is true. */
  predicate Truthy(v: Value) {
    match v
    case Null => false
    case Bool(b) => b
    case Int(i) => i != 0
    case Float(r) => r != "0.0" && r != "-0.0"
    case Str(s) => s != []
    case Oid(_) => true
    case Date(_) => true
    case List(items) => items != []
    case Dict(fs) => fs != []
  }

  /** The position of the first key whose value is truthy, or `|keys|`. */
  function FirstTruthyIndex(fs: Fields, keys: seq<string>): (k: nat)
    ensures k <= |keys|
    ensures forall j :: 0 <= j < k ==> !Truthy(GetValue(fs, keys[j]))
    ensures k < |keys| ==> Truthy(GetValue(fs, keys[k]))
  {
    if keys == [] then 0
    else if Truthy(GetValue(fs, keys[0])) then 0
    else 1 + FirstTruthyIndex(fs, keys[1..])
  }

  /** `d.get(k1) or d.get(k2) or ... or default`: the value of the first key
      whose value is truthy, else `default` (returned whatever its
      truthiness). */
  function FirstTruthy(fs: Fields, keys: seq<string>, default: Value): (r: Value)
    ensures var k := FirstTruthyIndex(fs, keys);
      r == if k < |keys| then GetValue(fs, keys[k]) else default
  {
    if keys == [] then default
    else if Truthy(GetValue(fs, keys[0])) then GetValue(fs, keys[0])
    else FirstTruthy(fs, keys[1..], default)
  }

  // --------------------------------------------------------- str and repr

  /** A character that `repr` writes as `\xhh`: the C0 and C1 controls, DEL
      and the soft hyphen (the non-printable characters of Latin-1 other
      than tab, newline and carriage return, which have their own escapes). */
  predicate HexEscaped(c: char) {
    c < ' ' || ('\U{7f}' <= c <= '\U{a0}') || c == '\U{ad}'
  }

  /** A character above Latin-1 that `repr` writes as `\uXXXX` or
      `\UXXXXXXXX`: the separators and spaces other than the ASCII space
      (U+1680, U+2000 to U+200A, U+2028, U+2029, U+202F, U+205F, U+3000),
      the format characters of the General Punctuation block and the byte
      order mark, the private-use areas, and the tag characters. */
  predicate WideEscaped(c: char) {
    || c == '\U{1680}' || ('\U{2000}' <= c <= '\U{200f}') || ('\U{2028}' <= c <= '\U{202f}')
    || ('\U{205f}' <= c <= '\U{206f}') || c == '\U{3000}' || c == '\U{feff}'
    || ('\U{e000}' <= c <= '\U{f8ff}') || ('\U{e0000}' <= c <= '\U{e007f}') || '\U{f0000}' <= c
  }

  /** A character `repr` escapes in some way: all of the above, the
      backslash and both quotes. Any other character is written as it is. */
  predicate Escaped(c: char) {
    HexEscaped(c) || WideEscaped(c) || c == '\\' || c == '\'' || c == '"'
  }

  function HexDigitChar(d: nat): char
    requires d < 16
  {
    if d < 10 then ('0' as int + d) as char else ('a' as int + d - 10) as char
  }

  /** The last `width` lower-case hex digits of `n`. */
  function HexText(n: nat, width: nat): (r: string)
    ensures |r| == width
    ensures forall i :: 0 <= i < |r| ==> ('0' <= r[i] <= '9' || 'a' <= r[i] <= 'f')
  {
    if width == 0 then [] else HexText(n / 16, width - 1) + [HexDigitChar(n % 16)]
  }

  /** One character of a string literal written by `repr`, quoted by `q`. */
  function ReprChar(c: char, q: char): (r: string)
    requires q == '\'' || q == '"'
    ensures r != []
    ensures forall i :: 0 <= i < |r| ==> !HexEscaped(r[i]) && !WideEscaped(r[i])
    ensures r == [c] <==> !Escaped(c) || c == QuoteOther(q)
  {
    if c == '\\' then "\\\\"
    else if c == q then ['\\', q]
    else if c == '\t' then "\\t"
    else if c == '\n' then "\\n"
    else if c == '\r' then "\\r"
    else if HexEscaped(c) then "\\x" + HexText(c as int, 2)
    else if WideEscaped(c) then
      if c <= '\U{ffff}' then "\\u" + HexText(c as int, 4) else "\\U" + HexText(c as int, 8)
    else [c]
  }

  /** The quote character that is not `q`: it stands for itself inside a
      literal quoted by `q`. */
  function QuoteOther(q: char): char {
    if q == '"' then '\'' else '"'
  }

  function ReprBody(s: string, q: char): (r: string)
    requires q == '\'' || q == '"'
    ensures |r| >= |s|
    ensures forall i :: 0 <= i < |r| ==> !HexEscaped(r[i]) && !WideEscaped(r[i])
  {
    if s == [] then [] else ReprChar(s[0], q) + ReprBody(s[1..], q)
  }

  /** A text without any character `repr` escapes is copied as it is. */
  lemma {:induction false} ReprBodyLiteral(s: string, q: char)
    requires q == '\'' || q == '"'
    ensures (forall i :: 0 <= i < |s| ==> !Escaped(s[i])) ==> ReprBody(s, q) == s
  {
    if s != [] && forall i :: 0 <= i < |s| ==> !Escaped(s[i]) {
      assert forall i :: 0 <= i < |s| - 1 ==> s[1..][i] == s[i + 1];
      ReprBodyLiteral(s[1..], q);
      assert ReprChar(s[0], q) == [s[0]];
    }
  }

  /** `repr(s)` for a string: single quotes unless the text has a single
      quote and no double quote. The result is a quoted literal without any
      non-printable character. A text `repr` has nothing to escape in is
      put between single quotes as it is. */
  function ReprStr(s: string): (r: string)
    ensures |r| >= |s| + 2 && r[0] == r[|r| - 1]
    ensures r[0] == if '\'' in s && '"' !in s then '"' else '\''
    ensures forall i :: 0 <= i < |r| ==> !HexEscaped(r[i]) && !WideEscaped(r[i])
    ensures (forall i :: 0 <= i < |s| ==> !Escaped(s[i])) ==> r == ['\''] + s + ['\'']
  {
    var q := if '\'' in s && '"' !in s then '"' else '\'';
    ReprBodyLiteral(s, q);
    [q] + ReprBody(s, q) + [q]
  }

  function Pad2(n: nat): string {
    PadLeft(NatStr(n), 2)
  }

  /** `dt.isoformat(sep)`: `YYYY-MM-DD<sep>HH:MM:SS`, then `.ffffff` when
      the microseconds are not zero. */
  function IsoFormat(t: DateTime, sep: char): string {
    IsoDate(t) + [sep] + IsoTime(t)
      + (if t.microsecond != 0 then "." + PadLeft(NatStr(t.microsecond), 6) else "")
  }

  function IsoDate(t: DateTime): string {
    PadLeft(NatStr(t.year), 4) + "-" + Pad2(t.month) + "-" + Pad2(t.day)
  }

  function IsoTime(t: DateTime): string {
    Pad2(t.hour) + ":" + Pad2(t.minute) + ":" + Pad2(t.second)
  }

  /** `repr(dt)`: `datetime.datetime(y, m, d, h, mi)`, with the seconds when
      seconds or microseconds are not zero, and the microseconds when they
      are not zero. */
  function ReprDate(t: DateTime): string {
    "datetime.datetime(" + NatStr(t.year) + ", " + NatStr(t.month) + ", " + NatStr(t.day) + ", "
      + NatStr(t.hour) + ", " + NatStr(t.minute)
      + (if t.second != 0 || t.microsecond != 0 then ", " + NatStr(t.second) else "")
      + (if t.microsecond != 0 then ", " + NatStr(t.microsecond) else "")
      + ")"
  }

  /** `repr(v)`. */
  function Repr(v: Value): string
    decreases v, 1
  {
    match v
    case Null => "None"
    case Bool(b) => if b then "True" else "False"
    case Int(i) => IntStr(i)
    case Float(r) => r
    case Str(s) => ReprStr(s)
    case Oid(h) => "ObjectId('" + h + "')"
    case Date(t) => ReprDate(t)
    case List(items) => "[" + Join(", ", ReprItems(v, 0)) + "]"
    case Dict(fs) => "{" + Join(", ", ReprEntries(v, 0)) + "}"
  }

  function ReprItems(v: Value, i: nat): (r: seq<string>)
    requires v.List?
    decreases v, 0, |v.items| - i
  {
    if i >= |v.items| then [] else [Repr(v.items[i])] + ReprItems(v, i + 1)
  }

  function ReprEntries(v: Value, i: nat): (r: seq<string>)
    requires v.Dict?
    decreases v, 0, |v.fields| - i
  {
    if i >= |v.fields| then []
    else [ReprStr(v.fields[i].0) + ": " + Repr(v.fields[i].1)] + ReprEntries(v, i + 1)
  }

  /** `str(v)`: the text itself for a string, the hex digits for an
      `ObjectId`, `isoformat(' ')` for a `datetime`, and `repr` otherwise. */
  function PyStr(v: Value): string {
    match v
    case Str(s) => s
    case Oid(h) => h
    case Date(t) => IsoFormat(t, ' ')
    case _ => Repr(v)
  }

  // ---------------------------------------------------- isoformat round trip

  predicate ValidDateTime(t: DateTime) {
    1 <= t.year <= 9999 && 1 <= t.month <= 12 && 1 <= t.day <= 31
    && t.hour < 24 && t.minute < 60 && t.second < 60 && t.microsecond < 1000000
  }

  predicate AllDigits(s: string) { forall i :: 0 <= i < |s| ==> IsDigit(s[i]) }

  /** Reads back `YYYY-MM-DD<sep>HH:MM:SS[.ffffff]`. */
  function ParseIso(r: string, sep: char): Option<DateTime> {
    if (|r| == 19 || (|r| == 26 && r[19] == '.' && AllDigits(r[20..26])))
      && r[4] == '-' && r[7] == '-' && r[10] == sep && r[13] == ':' && r[16] == ':'
      && AllDigits(r[0..4]) && AllDigits(r[5..7]) && AllDigits(r[8..10])
      && AllDigits(r[11..13]) && AllDigits(r[14..16]) && AllDigits(r[17..19])
    then
      Some(DateTime(DecimalValue(r[0..4]), DecimalValue(r[5..7]), DecimalValue(r[8..10]),
        DecimalValue(r[11..13]), DecimalValue(r[14..16]), DecimalValue(r[17..19]),
        if |r| == 26 then DecimalValue(r[20..26]) else 0))
    else None
  }

  function Pow10(k: nat): nat {
    if k == 0 then 1 else 10 * Pow10(k - 1)
  }

  lemma {:induction false} NatStrLength(n: nat, k: nat)
    requires 1 <= k && n < Pow10(k)
    ensures |NatStr(n)| <= k
    decreases k
  {
    if n >= 10 {
      assert k > 1;
      NatStrLength(n / 10, k - 1);
    }
  }

  lemma {:induction false} DecimalLeadingZero(s: string)
    requires AllDigits(s)
    ensures AllDigits("0" + s) && DecimalValue("0" + s) == DecimalValue(s)
    decreases |s|
  {
    if s != [] {
      var init := s[..|s| - 1];
      DecimalLeadingZero(init);
      assert ("0" + s)[..|s|] == "0" + init;
    }
  }

  /** Zero padding keeps the digits' value. */
  lemma {:induction false} PadLeftValue(s: string, w: nat)
    requires AllDigits(s)
    ensures AllDigits(PadLeft(s, w)) && DecimalValue(PadLeft(s, w)) == DecimalValue(s)
    decreases w - |s|
  {
    if |s| < w {
      DecimalLeadingZero(s);
      PadLeftValue("0" + s, w);
    }
  }

  lemma PaddedField(n: nat, w: nat)
    requires 1 <= w && n < Pow10(w)
    ensures |PadLeft(NatStr(n), w)| == w
    ensures AllDigits(PadLeft(NatStr(n), w)) && DecimalValue(PadLeft(NatStr(n), w)) == n
  {
    NatStrLength(n, w);
    PadLeftValue(NatStr(n), w);
    NatStrRoundTrip(n);
  }

  lemma IsoDateFields(t: DateTime)
    requires ValidDateTime(t)
    ensures var d := IsoDate(t);
      && |d| == 10 && d[4] == '-' && d[7] == '-'
      && AllDigits(d[0..4]) && AllDigits(d[5..7]) && AllDigits(d[8..10])
      && DecimalValue(d[0..4]) == t.year && DecimalValue(d[5..7]) == t.month && DecimalValue(d[8..10]) == t.day
  {
    assert Pow10(2) == 100 && Pow10(4) == 10000;
    PaddedField(t.year, 4);
    PaddedField(t.month, 2);
    PaddedField(t.day, 2);
    var d := IsoDate(t);
    assert d[0..4] == PadLeft(NatStr(t.year), 4);
    assert d[5..7] == Pad2(t.month);
    assert d[8..10] == Pad2(t.day);
  }

  lemma IsoTimeFields(t: DateTime)
    requires ValidDateTime(t)
    ensures var h := IsoTime(t);
      && |h| == 8 && h[2] == ':' && h[5] == ':'
      && AllDigits(h[0..2]) && AllDigits(h[3..5]) && AllDigits(h[6..8])
      && DecimalValue(h[0..2]) == t.hour && DecimalValue(h[3..5]) == t.minute && DecimalValue(h[6..8]) == t.second
  {
    assert Pow10(2) == 100;
    PaddedField(t.hour, 2);
    PaddedField(t.minute, 2);
    PaddedField(t.second, 2);
    var h := IsoTime(t);
    assert h[0..2] == Pad2(t.hour);
    assert h[3..5] == Pad2(t.minute);
    assert h[6..8] == Pad2(t.second);
  }

  /** The first 19 characters of `isoformat` hold the date and time fields,
      separated as `ParseIso` expects. */
  lemma IsoFormatFields(t: DateTime, sep: char)
    requires ValidDateTime(t)
    ensures var r := IsoFormat(t, sep);
      && |r| >= 19 && r[4] == '-' && r[7] == '-' && r[10] == sep && r[13] == ':' && r[16] == ':'
      && AllDigits(r[0..4]) && AllDigits(r[5..7]) && AllDigits(r[8..10])
      && AllDigits(r[11..13]) && AllDigits(r[14..16]) && AllDigits(r[17..19])
      && DecimalValue(r[0..4]) == t.year && DecimalValue(r[5..7]) == t.month && DecimalValue(r[8..10]) == t.day
      && DecimalValue(r[11..13]) == t.hour && DecimalValue(r[14..16]) == t.minute && DecimalValue(r[17..19]) == t.second
  {
    IsoDateFields(t);
    IsoTimeFields(t);
    var d, h := IsoDate(t), IsoTime(t);
    var frac := if t.microsecond != 0 then "." + PadLeft(NatStr(t.microsecond), 6) else "";
    var r := IsoFormat(t, sep);
    assert r == d + [sep] + h + frac;
    assert r[0..10] == d && r[11..19] == h;
    assert r[0..4] == d[0..4] && r[5..7] == d[5..7] && r[8..10] == d[8..10];
    assert r[11..13] == h[0..2] && r[14..16] == h[3..5] && r[17..19] == h[6..8];
  }

  /** After them comes nothing when the microseconds are zero, and a dot
      with six digits of microseconds otherwise. */
  lemma IsoFormatFraction(t: DateTime, sep: char)
    requires ValidDateTime(t)
    ensures var r := IsoFormat(t, sep);
      && (t.microsecond == 0 ==> |r| == 19)
      && (t.microsecond != 0 ==> |r| == 26 && r[19] == '.' && AllDigits(r[20..26]) && DecimalValue(r[20..26]) == t.microsecond)
  {
    IsoDateFields(t);
    IsoTimeFields(t);
    var d, h := IsoDate(t), IsoTime(t);
    var r := IsoFormat(t, sep);
    if t.microsecond != 0 {
      var frac := "." + PadLeft(NatStr(t.microsecond), 6);
      assert r == d + [sep] + h + frac;
      assert Pow10(6) == 1000000;
      PaddedField(t.microsecond, 6);
      assert r[20..26] == PadLeft(NatStr(t.microsecond), 6);
    } else {
      assert r == d + [sep] + h;
    }
  }

  /** `isoformat` is read back exactly: the text determines the datetime. */
  lemma IsoFormatRoundTrip(t: DateTime, sep: char)
    requires ValidDateTime(t)
    ensures ParseIso(IsoFormat(t, sep), sep) == Some(t)
  {
    IsoFormatFields(t, sep);
    IsoFormatFraction(t, sep);
  }

  // ------------------------------------------------------------- ObjectIds

  /** No `ObjectId` anywhere inside `v`. */
  predicate NoOid(v: Value) {
    match v
    case Oid(_) => false
    case List(items) => forall i :: 0 <= i < |items| ==> NoOid(items[i])
    case Dict(fs) => forall i :: 0 <= i < |fs| ==> NoOid(fs[i].1)
    case _ => true
  }

  /** No `ObjectId` and no `datetime` anywhere inside `v`: plain JSON data. */
  predicate IsPlain(v: Value) {
    match v
    case Oid(_) => false
    case Date(_) => false
    case List(items) => forall i :: 0 <= i < |items| ==> IsPlain(items[i])
    case Dict(fs) => forall i :: 0 <= i < |fs| ==> IsPlain(fs[i].1)
    case _ => true
  }

  /** `ObjectId(x)`: a 24-digit hex string (either case) or an `ObjectId`
      gives an identifier; anything else raises. */
  function ObjectIdOf(v: Value): (r: Option<string>)
    ensures r.Some? <==> (v.Str? && |v.s| == 24 && AllHex(v.s)) || (v.Oid? && |v.hex| == 24 && AllHex(v.hex))
    ensures r.Some? ==> |r.value| == 24 && AllHex(r.value)
  {
    match v
    case Str(s) =>
      if |s| == 24 && AllHex(s) then
        LowerHex(s);
        Some(Lower(s))
      else None
    case Oid(h) => if |h| == 24 && AllHex(h) then Some(h) else None
    case _ => None
  }

  /** Lower-casing hex digits keeps them hex digits, one for one. */
  lemma LowerHex(s: string)
    requires AllHex(s)
    ensures |Lower(s)| == |s| && AllHex(Lower(s))
  {
    assert forall i :: 0 <= i < |s| ==> s[i] < '\U{80}';
    var r := Lower(s);
    forall i | 0 <= i < |r|
      ensures IsHexDigit(r[i])
    {
      assert r[i] == LowerChar(s[i])[0];
      LowerCharHex(s[i]);
    }
  }

  lemma LowerCharHex(c: char)
    requires IsHexDigit(c)
    ensures IsHexDigit(LowerChar(c)[0])
  {
  }
}
