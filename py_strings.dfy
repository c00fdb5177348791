/** The operations of Python's `str` that the recommendation core relies on:
    whitespace classification, `strip`, `find`/`rfind`, `in`, `lower`,
    `join`, `split()` and the decimal rendering of integers. */
module PyStrings {

  /** `str.isspace()` for one character. The same set is the `\s` class of
      `re` for str patterns and the separator set of `str.split()` and
      `str.strip()` without arguments. */
  predicate IsSpace(c: char) {
    || c == ' '
    || ('\t' <= c <= '\r')
    || ('\U{1c}' <= c <= '\U{1f}')
    || c == '\U{85}' || c == '\U{a0}' || c == '\U{1680}'
    || ('\U{2000}' <= c <= '\U{200a}')
    || c == '\U{2028}' || c == '\U{2029}' || c == '\U{202f}' || c == '\U{205f}' || c == '\U{3000}'
  }

  predicate IsDigit(c: char) { '0' <= c <= '9' }

  /** A character of the class `[a-f0-9]` under `re.IGNORECASE`. */
  predicate IsHexDigit(c: char) { IsDigit(c) || ('a' <= c <= 'f') || ('A' <= c <= 'F') }

  predicate AllHex(s: string) { forall i :: 0 <= i < |s| ==> IsHexDigit(s[i]) }

  predicate IsUpperAscii(c: char) { 'A' <= c <= 'Z' }

  /** `str.lower()` on one character. Only the characters whose lower case
      involves an ASCII letter are mapped: `A`-`Z`, the Kelvin sign (to `k`)
      and `\u0130` (to `i` and a combining dot). Every other character whose
      case `lower()` changes becomes a non-ASCII character there, which no
      ASCII text compared against it can tell apart; here it is kept. */
  function LowerChar(c: char): (r: string)
    ensures r != [] && forall i :: 0 <= i < |r| ==> !IsUpperAscii(r[i])
  {
    if IsUpperAscii(c) then [(c as int + 32) as char]
    else if c == '\U{212a}' then "k"
    else if c == '\U{130}' then "i\U{307}"
    else [c]
  }

  /** `str.lower()`. */
  function Lower(s: string): (r: string)
    ensures forall i :: 0 <= i < |r| ==> !IsUpperAscii(r[i])
    ensures (forall i :: 0 <= i < |s| ==> s[i] < '\U{80}') ==>
      |r| == |s| && forall i :: 0 <= i < |s| ==> r[i] == LowerChar(s[i])[0]
    ensures (forall i :: 0 <= i < |s| ==> !IsUpperAscii(s[i]) && s[i] != '\U{212a}' && s[i] != '\U{130}') ==> r == s
  {
    if s == [] then []
    else
      var h, t := LowerChar(s[0]), Lower(s[1..]);
      var r := h + t;
      assert forall i :: 1 <= i < |s| ==> s[1..][i - 1] == s[i];
      assert forall i :: 0 <= i < |r| ==> !IsUpperAscii(r[i]) by {
        forall i | 0 <= i < |r| ensures !IsUpperAscii(r[i]) {
          if i >= |h| {
            assert r[i] == t[i - |h|];
          }
        }
      }
      assert (forall i :: 0 <= i < |s| ==> s[i] < '\U{80}') ==>
        |r| == |s| && forall i :: 0 <= i < |s| ==> r[i] == LowerChar(s[i])[0]
      by {
        if forall i :: 0 <= i < |s| ==> s[i] < '\U{80}' {
          assert forall i :: 0 <= i < |s[1..]| ==> s[1..][i] < '\U{80}';
          assert |h| == 1;
          forall i | 0 <= i < |s| ensures r[i] == LowerChar(s[i])[0] {
            if i > 0 {
              assert r[i] == t[i - 1];
            }
          }
        }
      }
      assert (forall i :: 0 <= i < |s| ==> !IsUpperAscii(s[i]) && s[i] != '\U{212a}' && s[i] != '\U{130}') ==> r == s
      by {
        if forall i :: 0 <= i < |s| ==> !IsUpperAscii(s[i]) && s[i] != '\U{212a}' && s[i] != '\U{130}' {
          assert forall i :: 0 <= i < |s[1..]| ==> s[1..][i] == s[i + 1];
          assert h == [s[0]];
          assert s == [s[0]] + s[1..];
        }
      }
      r
  }

  /** Lower-casing twice is lower-casing once. */
  lemma LowerIdempotent(s: string)
    ensures Lower(Lower(s)) == Lower(s)
  {
    var r := Lower(s);
    assert forall i :: 0 <= i < |r| ==> !IsUpperAscii(r[i]) && r[i] != '\U{212a}' && r[i] != '\U{130}' by {
      LowerNoSpecial(s);
    }
  }

  lemma {:induction false} LowerNoSpecial(s: string)
    ensures forall i :: 0 <= i < |Lower(s)| ==> Lower(s)[i] != '\U{212a}' && Lower(s)[i] != '\U{130}'
    decreases |s|
  {
    if s != [] {
      LowerNoSpecial(s[1..]);
      var h := LowerChar(s[0]);
      assert Lower(s) == h + Lower(s[1..]);
      assert forall i :: 0 <= i < |h| ==> h[i] != '\U{212a}' && h[i] != '\U{130}';
    }
  }

  /** `lower()` works character by character. */
  lemma {:induction false} LowerConcat(a: string, b: string)
    ensures Lower(a + b) == Lower(a) + Lower(b)
    decreases |a|
  {
    if a == [] {
      assert a + b == b;
    } else {
      var ab := a + b;
      assert ab[0] == a[0] && ab[1..] == a[1..] + b;
      LowerConcat(a[1..], b);
      calc {
        Lower(ab);
        LowerChar(a[0]) + Lower(a[1..] + b);
        LowerChar(a[0]) + (Lower(a[1..]) + Lower(b));
        (LowerChar(a[0]) + Lower(a[1..])) + Lower(b);
        Lower(a) + Lower(b);
      }
    }
  }

  /** Lower-casing three pieces put together lower-cases each. */
  lemma LowerThree(a: string, b: string, c: string)
    ensures Lower(a + b + c) == Lower(a) + Lower(b) + Lower(c)
  {
    LowerConcat(a, b);
    LowerConcat(a + b, c);
  }

  predicate IsPrefix(p: string, s: string) {
    |p| <= |s| && s[..|p|] == p
  }

  /** `sub in s` for two strings. */
  predicate Contains(s: string, sub: string)
    decreases |s|
  {
    IsPrefix(sub, s) || (s != [] && Contains(s[1..], sub))
  }

  /** An occurrence of `sub` at index `k` is an occurrence in the sense of `in`. */
  lemma {:induction false} ContainsAt(s: string, sub: string, k: nat)
    requires k + |sub| <= |s| && s[k..k + |sub|] == sub
    ensures Contains(s, sub)
    decreases k
  {
    if k == 0 {
      assert s[..|sub|] == sub;
    } else {
      assert s[1..][k - 1..k - 1 + |sub|] == s[k..k + |sub|];
      ContainsAt(s[1..], sub, k - 1);
    }
  }

  /** A text holds whatever sits inside it. */
  lemma ContainsMiddle(a: string, sub: string, c: string)
    ensures Contains(a + sub + c, sub)
  {
    var s := a + sub + c;
    assert s[|a|..|a| + |sub|] == sub;
    ContainsAt(s, sub, |a|);
  }

  /** Every occurrence found by `in` sits at some index of `s`. */
  lemma {:induction false} ContainsWitness(s: string, sub: string) returns (k: nat)
    requires Contains(s, sub)
    ensures k + |sub| <= |s| && s[k..k + |sub|] == sub
    decreases |s|
  {
    if IsPrefix(sub, s) {
      k := 0;
    } else {
      var k' := ContainsWitness(s[1..], sub);
      assert s[1..][k'..k' + |sub|] == s[k' + 1..k' + 1 + |sub|];
      k := k' + 1;
    }
  }

  /** `s.find(c)`: the first index of `c`, or -1. */
  function Find(s: string, c: char): (k: int)
    ensures -1 <= k < |s|
    ensures k >= 0 ==> s[k] == c && forall i :: 0 <= i < k ==> s[i] != c
    ensures k == -1 ==> forall i :: 0 <= i < |s| ==> s[i] != c
  {
    if s == [] then -1
    else if s[0] == c then 0
    else
      var k := Find(s[1..], c);
      if k == -1 then -1 else k + 1
  }

  /** `s.rfind(c)`: the last index of `c`, or -1. */
  function RFind(s: string, c: char): (k: int)
    ensures -1 <= k < |s|
    ensures k >= 0 ==> s[k] == c && forall i :: k < i < |s| ==> s[i] != c
    ensures k == -1 ==> forall i :: 0 <= i < |s| ==> s[i] != c
  {
    if s == [] then -1
    else if s[|s| - 1] == c then |s| - 1
    else RFind(s[..|s| - 1], c)
  }

  /** Python slicing `s[start:end]`: negative bounds count from the end, and
      both bounds are clamped to the string. */
  function Slice(s: string, start: int, end: int): (r: string)
    ensures |r| <= |s|
  {
    var a := Clamp(if start < 0 then start + |s| else start, |s|);
    var b := Clamp(if end < 0 then end + |s| else end, |s|);
    if a < b then s[a..b] else []
  }

  function Clamp(i: int, n: nat): (r: nat)
    ensures r <= n
  {
    if i < 0 then 0 else if i > n then n else i
  }

  /** The characters a `strip` removes: whitespace for `strip()`, one
      given character for `strip(c)`. */
  datatype Strippable = Spaces | Only(c: char)

  predicate Dropped(d: Strippable, x: char) {
    match d
    case Spaces => IsSpace(x)
    case Only(c) => x == c
  }

  /** `s.lstrip(chars)`. */
  function TrimLeft(s: string, d: Strippable): (r: string)
    ensures |r| <= |s|
  {
    if s != [] && Dropped(d, s[0]) then TrimLeft(s[1..], d) else s
  }

  /** `s.rstrip(chars)`. */
  function TrimRight(s: string, d: Strippable): (r: string)
    ensures |r| <= |s|
  {
    if s != [] && Dropped(d, s[|s| - 1]) then TrimRight(s[..|s| - 1], d) else s
  }

  /** `s.strip(chars)`. */
  function Trim(s: string, d: Strippable): (r: string)
    ensures |r| <= |s|
  {
    TrimRight(TrimLeft(s, d), d)
  }

  /** `lstrip` removes the longest prefix of dropped characters. */
  lemma {:induction false} TrimLeftSpec(s: string, d: Strippable)
    ensures var r := TrimLeft(s, d);
      && r == s[|s| - |r|..]
      && (r != [] ==> !Dropped(d, r[0]))
      && forall i :: 0 <= i < |s| - |r| ==> Dropped(d, s[i])
    decreases |s|
  {
    if s != [] && Dropped(d, s[0]) {
      TrimLeftSpec(s[1..], d);
    }
  }

  /** `rstrip` removes the longest suffix of dropped characters. */
  lemma {:induction false} TrimRightSpec(s: string, d: Strippable)
    ensures var r := TrimRight(s, d);
      && r == s[..|r|]
      && (r != [] ==> !Dropped(d, r[|r| - 1]))
      && forall i :: |r| <= i < |s| ==> Dropped(d, s[i])
    decreases |s|
  {
    if s != [] && Dropped(d, s[|s| - 1]) {
      TrimRightSpec(s[..|s| - 1], d);
    }
  }

  /** `strip` leaves the piece of `s` between the longest dropped prefix and
      the longest dropped suffix: a piece that neither starts nor ends with a
      dropped character, with only dropped characters around it. */
  lemma TrimSpec(s: string, d: Strippable) returns (a: nat)
    ensures var r := Trim(s, d);
      && a + |r| <= |s| && r == s[a..a + |r|]
      && (forall i :: 0 <= i < a ==> Dropped(d, s[i]))
      && (forall i :: a + |r| <= i < |s| ==> Dropped(d, s[i]))
      && (r != [] ==> !Dropped(d, r[0]) && !Dropped(d, r[|r| - 1]))
  {
    var l := TrimLeft(s, d);
    TrimLeftSpec(s, d);
    TrimRightSpec(l, d);
    a := |s| - |l|;
    var r := Trim(s, d);
    assert r == l[..|r|];
    assert forall i :: a + |r| <= i < |s| ==> s[i] == l[i - a];
    if r != [] {
      assert r[0] == l[0];
    }
  }

  /** `strip` keeps only characters of `s`, and keeps all of a text that
      neither starts nor ends with a dropped character. */
  lemma TrimKeeps(s: string, d: Strippable)
    ensures forall c :: c in Trim(s, d) ==> c in s
    ensures (s == [] || (!Dropped(d, s[0]) && !Dropped(d, s[|s| - 1]))) ==> Trim(s, d) == s
  {
    var a := TrimSpec(s, d);
    var r := Trim(s, d);
    SliceElems(s, a, a + |r|);
    if s != [] && !Dropped(d, s[0]) && !Dropped(d, s[|s| - 1]) {
      assert a == 0;
      assert a + |r| == |s|;
    }
  }

  lemma SliceElems(s: string, a: nat, b: nat)
    requires a <= b <= |s|
    ensures forall c :: c in s[a..b] ==> c in s
  {
    forall c | c in s[a..b] ensures c in s {
      var i :| 0 <= i < b - a && s[a..b][i] == c;
      assert s[a + i] == c;
    }
  }

  /** `s.strip()`. */
  function Strip(s: string): string {
    Trim(s, Spaces)
  }

  /** `s.strip(c)` for a single character. */
  function StripChar(s: string, c: char): string {
    Trim(s, Only(c))
  }

  /** `sep.join(parts)`. */
  function Join(sep: string, parts: seq<string>): string {
    if parts == [] then []
    else if |parts| == 1 then parts[0]
    else parts[0] + sep + Join(sep, parts[1..])
  }

  /** Number of occurrences of `c` in `s`. */
  function Count(s: string, c: char): nat {
    if s == [] then 0 else (if s[0] == c then 1 else 0) + Count(s[1..], c)
  }

  lemma {:induction false} CountConcat(a: string, b: string, c: char)
    ensures Count(a + b, c) == Count(a, c) + Count(b, c)
    decreases |a|
  {
    if a == [] {
      assert a + b == b;
    } else {
      assert (a + b)[1..] == a[1..] + b;
      CountConcat(a[1..], b, c);
    }
  }

  /** A character that does not occur is counted zero times. */
  lemma {:induction false} CountAbsent(s: string, c: char)
    requires c !in s
    ensures Count(s, c) == 0
    decreases |s|
  {
    if s != [] {
      assert s == [s[0]] + s[1..];
      CountAbsent(s[1..], c);
    }
  }

  /** Joining with "\n" pieces that hold no newline gives exactly one newline
      fewer than there are pieces: that many lines. */
  lemma {:induction false} JoinNewlines(parts: seq<string>)
    requires parts != []
    requires forall i :: 0 <= i < |parts| ==> Count(parts[i], '\n') == 0
    ensures Count(Join("\n", parts), '\n') == |parts| - 1
    decreases |parts|
  {
    if |parts| > 1 {
      JoinNewlines(parts[1..]);
      CountConcat(parts[0], "\n", '\n');
      CountConcat(parts[0] + "\n", Join("\n", parts[1..]), '\n');
      assert Count("\n", '\n') == 1;
    }
  }

  /** The words of `s.split()`: maximal runs of non-space characters, in order. */
  function Words(s: string): (ws: seq<string>)
    ensures forall i :: 0 <= i < |ws| ==> IsWord(ws[i])
    decreases |s|
  {
    if s == [] then []
    else if IsSpace(s[0]) then Words(s[1..])
    else
      var n := WordLength(s);
      var w := s[..n];
      assert forall j :: 0 <= j < n ==> w[j] == s[j];
      [w] + Words(s[n..])
  }

  /** A non-empty string without whitespace. */
  predicate IsWord(w: string) {
    w != [] && forall j :: 0 <= j < |w| ==> !IsSpace(w[j])
  }

  /** Length of the longest prefix of `s` without whitespace. */
  function WordLength(s: string): (n: nat)
    ensures n <= |s|
    ensures forall i :: 0 <= i < n ==> !IsSpace(s[i])
    ensures n < |s| ==> IsSpace(s[n])
  {
    if s != [] && !IsSpace(s[0]) then 1 + WordLength(s[1..]) else 0
  }

  /** `' '.join(s.split())`: every run of whitespace becomes one space and the
      ends are trimmed. */
  function CollapseSpaces(s: string): string {
    Join(" ", Words(s))
  }

  /** The only whitespace left by `CollapseSpaces` is single spaces between
      words. */
  lemma {:induction false} JoinWordsShape(ws: seq<string>)
    requires forall i :: 0 <= i < |ws| ==> IsWord(ws[i])
    ensures var r := Join(" ", ws);
      && (r != [] ==> !IsSpace(r[0]) && !IsSpace(r[|r| - 1]))
      && (forall i :: 0 <= i < |r| && IsSpace(r[i]) ==> r[i] == ' ')
      && (forall i :: 0 <= i < |r| - 1 ==> !(IsSpace(r[i]) && IsSpace(r[i + 1])))
    decreases |ws|
  {
    if |ws| > 1 {
      JoinWordsShape(ws[1..]);
      var rest := Join(" ", ws[1..]);
      var r := ws[0] + " " + rest;
      assert Join(" ", ws) == r;
      assert IsWord(ws[0]);
      forall i | 0 <= i < |r| ensures IsSpace(r[i]) ==> r[i] == ' ' {
        if i < |ws[0]| {
          assert r[i] == ws[0][i];
        } else if i > |ws[0]| {
          assert r[i] == rest[i - |ws[0]| - 1];
        }
      }
      forall i | 0 <= i < |r| - 1 ensures !(IsSpace(r[i]) && IsSpace(r[i + 1])) {
        if i + 1 < |ws[0]| {
          assert r[i] == ws[0][i];
        } else if i + 1 == |ws[0]| {
          assert r[i] == ws[0][|ws[0]| - 1];
        } else if i == |ws[0]| {
          assert r[i + 1] == rest[0];
        } else {
          assert r[i] == rest[i - |ws[0]| - 1] && r[i + 1] == rest[i - |ws[0]|];
        }
      }
    }
  }

  lemma CollapseSpacesShape(s: string)
    ensures var r := CollapseSpaces(s);
      && (r != [] ==> !IsSpace(r[0]) && !IsSpace(r[|r| - 1]))
      && (forall i :: 0 <= i < |r| && IsSpace(r[i]) ==> r[i] == ' ')
      && (forall i :: 0 <= i < |r| - 1 ==> !(IsSpace(r[i]) && IsSpace(r[i + 1])))
  {
    JoinWordsShape(Words(s));
  }

  /** The characters of `s` that are not whitespace, in order. */
  function NonSpace(s: string): string {
    if s == [] then [] else (if IsSpace(s[0]) then [] else [s[0]]) + NonSpace(s[1..])
  }

  lemma {:induction false} NonSpaceConcat(a: string, b: string)
    ensures NonSpace(a + b) == NonSpace(a) + NonSpace(b)
    decreases |a|
  {
    if a == [] {
      assert a + b == b;
    } else {
      assert (a + b)[1..] == a[1..] + b;
      NonSpaceConcat(a[1..], b);
    }
  }

  lemma {:induction false} NonSpaceOfWord(w: string)
    requires forall j :: 0 <= j < |w| ==> !IsSpace(w[j])
    ensures NonSpace(w) == w
    decreases |w|
  {
    if w != [] {
      NonSpaceOfWord(w[1..]);
    }
  }

  lemma {:induction false} NonSpaceOfJoin(ws: seq<string>)
    requires forall i :: 0 <= i < |ws| ==> IsWord(ws[i])
    ensures NonSpace(Join(" ", ws)) == Flatten(ws)
    decreases |ws|
  {
    if |ws| == 1 {
      assert IsWord(ws[0]);
      NonSpaceOfWord(ws[0]);
      assert Flatten(ws) == ws[0] + Flatten([]);
    } else if |ws| > 1 {
      NonSpaceOfJoin(ws[1..]);
      assert IsWord(ws[0]);
      NonSpaceOfWord(ws[0]);
      NonSpaceConcat(ws[0] + " ", Join(" ", ws[1..]));
      NonSpaceConcat(ws[0], " ");
    }
  }

  lemma {:induction false} NonSpaceOfWords(s: string)
    ensures Flatten(Words(s)) == NonSpace(s)
    decreases |s|
  {
    if s != [] && IsSpace(s[0]) {
      NonSpaceOfWords(s[1..]);
    } else if s != [] {
      var n := WordLength(s);
      var w, u := s[..n], s[n..];
      assert NonSpace(s) == w + NonSpace(u) by {
        assert s == w + u;
        NonSpaceConcat(w, u);
        NonSpaceOfWord(w);
      }
      assert Flatten(Words(s)) == w + Flatten(Words(u)) by {
        var ws := [w] + Words(u);
        assert Words(s) == ws;
        assert ws[1..] == Words(u);
      }
      NonSpaceOfWords(u);
    }
  }

  /** Collapsing whitespace keeps every other character, in order. */
  lemma CollapseSpacesKeepsText(s: string)
    ensures NonSpace(CollapseSpaces(s)) == NonSpace(s)
  {
    NonSpaceOfJoin(Words(s));
    NonSpaceOfWords(s);
  }

  /** Concatenation of a sequence of strings. */
  function Flatten(ss: seq<string>): string {
    if ss == [] then [] else ss[0] + Flatten(ss[1..])
  }

  function DigitChar(d: nat): char
    requires d < 10
  {
    ('0' as int + d) as char
  }

  /** `str(n)` for a natural number: its decimal digits, most significant first. */
  function NatStr(n: nat): (r: string)
    ensures r != []
    ensures forall i :: 0 <= i < |r| ==> IsDigit(r[i])
    ensures |r| > 1 ==> r[0] != '0'
  {
    if n < 10 then [DigitChar(n)] else NatStr(n / 10) + [DigitChar(n % 10)]
  }

  /** `str(i)` for an integer. */
  function IntStr(i: int): string {
    if i < 0 then "-" + NatStr(-i) else NatStr(i)
  }

  /** The value of a string of decimal digits. */
  function DecimalValue(s: string): nat
    requires forall i :: 0 <= i < |s| ==> IsDigit(s[i])
  {
    if s == [] then 0
    else
      assert IsDigit(s[|s| - 1]);
      DecimalValue(s[..|s| - 1]) * 10 + (s[|s| - 1] as int - '0' as int)
  }

  /** Reading back the decimal rendering gives the number. */
  lemma {:induction false} NatStrRoundTrip(n: nat)
    ensures DecimalValue(NatStr(n)) == n
  {
    if n >= 10 {
      NatStrRoundTrip(n / 10);
      var r := NatStr(n);
      assert r[..|r| - 1] == NatStr(n / 10);
    }
  }

  /** `s.rjust(width, '0')`, as `%0<width>d` pads. */
  function PadLeft(s: string, width: nat): (r: string)
    ensures |r| == if |s| < width then width else |s|
    decreases width - |s|
  {
    if |s| < width then PadLeft("0" + s, width) else s
  }
}
