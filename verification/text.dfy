/** The handful of Python string operations the bot relies on: `strip`, `split`,
    `join`, `isdigit`, `int()`, a decimal subset of `float()`, `str()` of an integer,
    substring search and repetition. */
module Text {
  import opened Wrappers

  // ---------------------------------------------------------------------------
  // Whitespace, strip

  /** Python's `str.isspace` on one character (the Unicode White_Space set it uses). */
  predicate IsSpace(c: char) {
    c == ' ' || ('\t' <= c <= '\r') || ('\U{001C}' <= c <= '\U{001F}')
    || c == '\U{0085}' || c == '\U{00A0}' || c == '\U{1680}'
    || ('\U{2000}' <= c <= '\U{200A}') || c == '\U{2028}' || c == '\U{2029}'
    || c == '\U{202F}' || c == '\U{205F}' || c == '\U{3000}'
  }

  ghost predicate AllSpace(s: string) {
    forall i :: 0 <= i < |s| ==> IsSpace(s[i])
  }

  /** True when `s` neither starts nor ends with whitespace. */
  predicate Trimmed(s: string) {
    |s| == 0 || (!IsSpace(s[0]) && !IsSpace(s[|s| - 1]))
  }

  /** `s.lstrip()` */
  function TrimLeft(s: string): (r: string)
    ensures |r| <= |s|
    ensures |r| > 0 ==> !IsSpace(r[0]) && r[|r| - 1] == s[|s| - 1]
    decreases |s|
  {
    if |s| > 0 && IsSpace(s[0]) then TrimLeft(s[1..]) else s
  }

  /** `s.rstrip()` */
  function TrimRight(s: string): (r: string)
    ensures |r| <= |s|
    ensures |r| > 0 ==> !IsSpace(r[|r| - 1]) && r[0] == s[0]
    decreases |s|
  {
    if |s| > 0 && IsSpace(s[|s| - 1]) then TrimRight(s[..|s| - 1]) else s
  }

  /** `s.strip()` */
  function Strip(s: string): (r: string)
    ensures Trimmed(r)
    ensures |r| <= |s|
  {
    TrimRight(TrimLeft(s))
  }

  /** Stripping only removes characters. */
  lemma {:induction false} StripAbsent(s: string, c: char)
    requires c !in s
    ensures c !in Strip(s)
  {
    TrimLeftAbsent(s, c);
    TrimRightAbsent(TrimLeft(s), c);
  }

  lemma {:induction false} TrimLeftAbsent(s: string, c: char)
    requires c !in s
    ensures c !in TrimLeft(s)
    decreases |s|
  {
    if |s| > 0 && IsSpace(s[0]) {
      assert forall i :: 0 <= i < |s| - 1 ==> s[1..][i] == s[i + 1];
      TrimLeftAbsent(s[1..], c);
    }
  }

  lemma {:induction false} TrimRightAbsent(s: string, c: char)
    requires c !in s
    ensures c !in TrimRight(s)
    decreases |s|
  {
    if |s| > 0 && IsSpace(s[|s| - 1]) {
      assert forall i :: 0 <= i < |s| - 1 ==> s[..|s| - 1][i] == s[i];
      TrimRightAbsent(s[..|s| - 1], c);
    }
  }

  lemma {:induction false} TrimLeftSpaces(ws: string, x: string)
    requires AllSpace(ws)
    requires |x| == 0 || !IsSpace(x[0])
    ensures TrimLeft(ws + x) == x
    decreases |ws|
  {
    if |ws| > 0 {
      assert (ws + x)[1..] == ws[1..] + x;
      TrimLeftSpaces(ws[1..], x);
    } else {
      assert ws + x == x;
    }
  }

  lemma {:induction false} TrimRightSpaces(x: string, ws: string)
    requires AllSpace(ws)
    requires |x| == 0 || !IsSpace(x[|x| - 1])
    ensures TrimRight(x + ws) == x
    decreases |ws|
  {
    if |ws| > 0 {
      assert (x + ws)[..|x + ws| - 1] == x + ws[..|ws| - 1];
      TrimRightSpaces(x, ws[..|ws| - 1]);
    } else {
      assert x + ws == x;
    }
  }

  /** `strip` removes exactly the surrounding whitespace: its result is the unique
      trimmed core of a string framed by whitespace. */
  lemma StripFrame(ws1: string, x: string, ws2: string)
    requires AllSpace(ws1) && AllSpace(ws2) && Trimmed(x)
    ensures Strip(ws1 + x + ws2) == x
  {
    if |x| == 0 {
      assert ws1 + x + ws2 == ws1 + ws2;
      assert AllSpace(ws1 + ws2);
      TrimLeftSpaces(ws1 + ws2, "");
      assert ws1 + ws2 + "" == ws1 + ws2;
    } else {
      assert ws1 + x + ws2 == ws1 + (x + ws2);
      TrimLeftSpaces(ws1, x + ws2);
      TrimRightSpaces(x, ws2);
    }
  }

  lemma StripTrimmed(x: string)
    requires Trimmed(x)
    ensures Strip(x) == x
  {
    StripFrame("", x, "");
    assert "" + x + "" == x;
  }

  // ---------------------------------------------------------------------------
  // split(sep) and join

  /** `s.split(sep)` for a non-empty separator: left to right, non-overlapping. */
  function SplitOn(s: string, sep: string): (r: seq<string>)
    requires |sep| > 0
    ensures |r| >= 1
    decreases |s|
  {
    if |s| < |sep| then [s]
    else if s[..|sep|] == sep then [""] + SplitOn(s[|sep|..], sep)
    else
      var rest := SplitOn(s[1..], sep);
      [[s[0]] + rest[0]] + rest[1..]
  }

  /** `sep.join(parts)` */
  function Join(parts: seq<string>, sep: string): string
  {
    if |parts| == 0 then ""
    else if |parts| == 1 then parts[0]
    else parts[0] + sep + Join(parts[1..], sep)
  }

  /** Gluing a prefix onto the first part glues it onto the join. */
  lemma JoinPrepend(c: string, parts: seq<string>, sep: string)
    requires |parts| >= 1
    ensures Join([c + parts[0]] + parts[1..], sep) == c + Join(parts, sep)
  {
    var q := [c + parts[0]] + parts[1..];
    if |parts| > 1 {
      assert q[1..] == parts[1..];
      assert Join(q, sep) == q[0] + sep + Join(q[1..], sep);
    }
  }

  /** Joining the pieces of a split with the same separator gives the string back. */
  lemma {:induction false} JoinSplit(s: string, sep: string)
    requires |sep| > 0
    ensures Join(SplitOn(s, sep), sep) == s
    decreases |s|
  {
    if |s| < |sep| {
    } else if s[..|sep|] == sep {
      var rest := SplitOn(s[|sep|..], sep);
      JoinSplit(s[|sep|..], sep);
      assert SplitOn(s, sep) == [""] + rest;
      assert ([""] + rest)[1..] == rest;
      assert Join([""] + rest, sep) == "" + sep + Join(rest, sep);
      assert s == sep + s[|sep|..];
    } else {
      var rest := SplitOn(s[1..], sep);
      JoinSplit(s[1..], sep);
      assert SplitOn(s, sep) == [[s[0]] + rest[0]] + rest[1..];
      JoinPrepend([s[0]], rest, sep);
      assert s == [s[0]] + s[1..];
    }
  }

  /** A piece in front of the separator that cannot start an occurrence of it is split off whole. */
  lemma {:induction false} SplitOnPrefix(a: string, sep: string, b: string)
    requires |sep| > 0 && sep[0] !in a
    ensures SplitOn(a + sep + b, sep) == [a] + SplitOn(b, sep)
    decreases |a|
  {
    var s := a + sep + b;
    if |a| == 0 {
      assert s == sep + b;
      assert s[..|sep|] == sep;
      assert s[|sep|..] == b;
    } else {
      assert s[0] == a[0] != sep[0];
      assert s[..|sep|] != sep;
      assert s[1..] == a[1..] + sep + b;
      SplitOnPrefix(a[1..], sep, b);
      assert [a[0]] + a[1..] == a;
    }
  }

  /** A string with no character starting the separator is not split at all. */
  lemma {:induction false} SplitOnNone(a: string, sep: string)
    requires |sep| > 0 && sep[0] !in a
    ensures SplitOn(a, sep) == [a]
    decreases |a|
  {
    if |a| >= |sep| {
      assert a[0] != sep[0];
      assert a[..|sep|] != sep;
      SplitOnNone(a[1..], sep);
      assert [a[0]] + a[1..] == a;
    }
  }

  /** Splitting a join recovers the parts, provided no part contains the
      separator's first character. */
  lemma {:induction false} SplitJoin(parts: seq<string>, sep: string)
    requires |parts| >= 1 && |sep| > 0
    requires forall i :: 0 <= i < |parts| ==> sep[0] !in parts[i]
    ensures SplitOn(Join(parts, sep), sep) == parts
    decreases |parts|
  {
    if |parts| == 1 {
      SplitOnNone(parts[0], sep);
    } else {
      SplitOnPrefix(parts[0], sep, Join(parts[1..], sep));
      SplitJoin(parts[1..], sep);
      assert [parts[0]] + parts[1..] == parts;
    }
  }

  /** No piece of a split on a one-character separator contains it. */
  lemma {:induction false} SplitOnPieces(s: string, sep: string)
    requires |sep| == 1
    ensures forall i :: 0 <= i < |SplitOn(s, sep)| ==> sep[0] !in SplitOn(s, sep)[i]
    decreases |s|
  {
    var r := SplitOn(s, sep);
    if |s| < |sep| {
      assert |s| == 0;
    } else if s[..|sep|] == sep {
      SplitOnPieces(s[|sep|..], sep);
      forall i | 0 <= i < |r|
        ensures sep[0] !in r[i]
      {
        if i > 0 {
          assert r[i] == SplitOn(s[|sep|..], sep)[i - 1];
        }
      }
    } else {
      var rest := SplitOn(s[1..], sep);
      SplitOnPieces(s[1..], sep);
      assert s[0] != sep[0] by {
        assert s[..1] != sep;
      }
      forall i | 0 <= i < |r|
        ensures sep[0] !in r[i]
      {
        if i > 0 {
          assert r[i] == rest[i];
        } else {
          assert r[0] == [s[0]] + rest[0];
        }
      }
    }
  }

  // ---------------------------------------------------------------------------
  // split() on whitespace

  /** Length of the leading run of non-whitespace characters. */
  function TokenLen(s: string): (n: nat)
    ensures n <= |s|
    ensures |s| > 0 && !IsSpace(s[0]) ==> n > 0
    decreases |s|
  {
    if |s| == 0 || IsSpace(s[0]) then 0 else 1 + TokenLen(s[1..])
  }

  /** `s.split()`: the maximal runs of non-whitespace characters. */
  function Words(s: string): (r: seq<string>)
    decreases |s|
  {
    if |s| == 0 then []
    else if IsSpace(s[0]) then Words(s[1..])
    else
      var n := TokenLen(s);
      [s[..n]] + Words(s[n..])
  }

  predicate NoSpace(s: string) {
    forall i :: 0 <= i < |s| ==> !IsSpace(s[i])
  }

  lemma {:induction false} TokenLenWord(w: string, rest: string)
    requires NoSpace(w)
    requires |rest| == 0 || IsSpace(rest[0])
    ensures TokenLen(w + rest) == |w|
    decreases |w|
  {
    if |w| > 0 {
      assert (w + rest)[1..] == w[1..] + rest;
      TokenLenWord(w[1..], rest);
    } else {
      assert w + rest == rest;
    }
  }

  lemma {:induction false} WordsSpaces(ws: string, rest: string)
    requires AllSpace(ws)
    ensures Words(ws + rest) == Words(rest)
    decreases |ws|
  {
    if |ws| > 0 {
      assert (ws + rest)[1..] == ws[1..] + rest;
      WordsSpaces(ws[1..], rest);
    } else {
      assert ws + rest == rest;
    }
  }

  /** A word followed by whitespace is the first element of `split()`. */
  lemma WordsCons(w: string, ws: string, rest: string)
    requires |w| > 0 && NoSpace(w) && |ws| > 0 && AllSpace(ws)
    ensures Words(w + ws + rest) == [w] + Words(rest)
  {
    var s := w + ws + rest;
    assert s == w + (ws + rest);
    TokenLenWord(w, ws + rest);
    assert s[..|w|] == w;
    assert s[|w|..] == ws + rest;
    WordsSpaces(ws, rest);
  }

  lemma WordsSingle(w: string)
    requires |w| > 0 && NoSpace(w)
    ensures Words(w) == [w]
  {
    TokenLenWord(w, "");
    assert w + "" == w;
    assert w[|w|..] == "";
  }

  // ---------------------------------------------------------------------------
  // Digits and integers

  predicate IsDigit(c: char) { '0' <= c <= '9' }

  /** `s.isdigit()` restricted to ASCII digits: non-empty and all digits. */
  predicate IsDigits(s: string) {
    |s| > 0 && forall i :: 0 <= i < |s| ==> IsDigit(s[i])
  }

  function DigitValue(c: char): nat
    requires IsDigit(c)
  {
    (c as int - '0' as int) as nat
  }

  function DigitChar(d: nat): (c: char)
    requires d < 10
    ensures IsDigit(c) && DigitValue(c) == d
  {
    ('0' as int + d) as char
  }

  /** The value of a decimal digit string, most significant digit first. */
  function DigitsValue(s: string): nat
    requires forall i :: 0 <= i < |s| ==> IsDigit(s[i])
    decreases |s|
  {
    if |s| == 0 then 0 else DigitsValue(s[..|s| - 1]) * 10 + DigitValue(s[|s| - 1])
  }

  /** `str(n)` for a natural number. */
  function NatToString(n: nat): (r: string)
    ensures IsDigits(r)
    decreases n
  {
    if n < 10 then [DigitChar(n)] else NatToString(n / 10) + [DigitChar(n % 10)]
  }

  /** `str(i)` for an integer. */
  function IntToString(i: int): (r: string)
    ensures |r| > 0
  {
    if i < 0 then "-" + NatToString(-i) else NatToString(i)
  }

  lemma {:induction false} NatToStringValue(n: nat)
    ensures DigitsValue(NatToString(n)) == n
    decreases n
  {
    if n >= 10 {
      var s := NatToString(n);
      NatToStringValue(n / 10);
      assert s[..|s| - 1] == NatToString(n / 10);
    }
  }

  /** `str` is injective on integers, so keys and offsets built from it never collide. */
  lemma IntToStringInjective(a: int, b: int)
    requires IntToString(a) == IntToString(b)
    ensures a == b
  {
    IntToStringRoundTrip(a);
    IntToStringRoundTrip(b);
  }

  /** `int()` as used on probe fields and typed ids: surrounding whitespace,
      an optional sign, then ASCII digits. */
  function ParseInt(s: string): Option<int>
  {
    var t := Strip(s);
    if |t| > 0 && t[0] == '-' then (if IsDigits(t[1..]) then Some(-(DigitsValue(t[1..]) as int)) else None)
    else if |t| > 0 && t[0] == '+' then (if IsDigits(t[1..]) then Some(DigitsValue(t[1..]) as int) else None)
    else if IsDigits(t) then Some(DigitsValue(t) as int)
    else None
  }

  lemma IntToStringTrimmed(i: int)
    ensures Trimmed(IntToString(i)) && NoSpace(IntToString(i))
  {
  }

  /** `str(i)` is a minus sign and digits only. */
  lemma IntToStringAbsent(i: int, c: char)
    requires c != '-' && !IsDigit(c)
    ensures c !in IntToString(i)
  {
    var s := IntToString(i);
    var digits := NatToString(if i < 0 then -i else i);
    assert forall k :: 0 <= k < |digits| ==> digits[k] != c;
    if i < 0 {
      assert s == "-" + digits;
      forall k | 0 <= k < |s|
        ensures s[k] != c
      {
        if k > 0 {
          assert s[k] == digits[k - 1];
        }
      }
    }
  }

  /** `int(str(i)) == i` */
  lemma IntToStringRoundTrip(i: int)
    ensures ParseInt(IntToString(i)) == Some(i)
  {
    var t := IntToString(i);
    IntToStringTrimmed(i);
    StripTrimmed(t);
    if i < 0 {
      NatToStringValue(-i);
      assert t[1..] == NatToString(-i);
      assert t[0] == '-';
    } else {
      NatToStringValue(i);
      assert t[0] != '-' && t[0] != '+';
    }
  }

  // ---------------------------------------------------------------------------
  // Decimal numbers (the part of `float()` the probe output uses)

  function Pow10(n: nat): (r: nat)
    ensures r >= 1
  {
    if n == 0 then 1 else 10 * Pow10(n - 1)
  }

  /** Position of the first occurrence of `c`, or `|s|`. */
  function IndexOf(s: string, c: char): (k: nat)
    ensures k <= |s|
    ensures k < |s| ==> s[k] == c
    decreases |s|
  {
    if |s| == 0 then 0 else if s[0] == c then 0 else 1 + IndexOf(s[1..], c)
  }

  /** The first occurrence is found. */
  lemma {:induction false} IndexOfFirst(s: string, c: char, k: nat)
    requires k < |s| && s[k] == c && c !in s[..k]
    ensures IndexOf(s, c) == k
    decreases k
  {
    if k > 0 {
      assert s[0] == s[..k][0] != c;
      assert s[1..][..k - 1] == s[1..k];
      IndexOfFirst(s[1..], c, k - 1);
    }
  }

  predicate AllDigits(s: string) {
    forall i :: 0 <= i < |s| ==> IsDigit(s[i])
  }

  /** The value of the digits after a decimal point: `0.d1d2...` */
  function Fraction(s: string): (v: real)
    requires AllDigits(s)
    ensures 0.0 <= v < 1.0
    decreases |s|
  {
    if |s| == 0 then 0.0 else (DigitValue(s[0]) as real + Fraction(s[1..])) / 10.0
  }

  /** An unsigned decimal `digits[.digits]`, with at least one digit on either side of the point. */
  function ParseUnsignedDecimal(m: string): Option<real>
  {
    var k := IndexOf(m, '.');
    var whole := m[..k];
    var frac := if k < |m| then m[k + 1..] else "";
    if AllDigits(whole) && AllDigits(frac) && |whole| + |frac| > 0 then
      Some(DigitsValue(whole) as real + Fraction(frac))
    else None
  }

  /** `float(s)` for plain decimal notation: surrounding whitespace, an optional sign,
      digits with an optional fractional part. */
  function ParseDecimal(s: string): Option<real>
  {
    var t := Strip(s);
    if |t| > 0 && t[0] == '-' then
      (match ParseUnsignedDecimal(t[1..]) case Some(v) => Some(-v) case None => None)
    else if |t| > 0 && t[0] == '+' then ParseUnsignedDecimal(t[1..])
    else ParseUnsignedDecimal(t)
  }

  lemma UnsignedDecimalOfDigits(d: string)
    requires IsDigits(d)
    ensures ParseUnsignedDecimal(d) == Some(DigitsValue(d) as real)
  {
    assert forall j :: 0 <= j < |d| ==> d[j] != '.';
    assert IndexOf(d, '.') == |d|;
    assert d[..|d|] == d;
  }

  lemma UnsignedDecimalAt(t: string, w: string, f: string)
    requires |w| < |t| && IndexOf(t, '.') == |w| && t[..|w|] == w && t[|w| + 1..] == f
    requires IsDigits(w) && AllDigits(f)
    ensures ParseUnsignedDecimal(t) == Some(DigitsValue(w) as real + Fraction(f))
  {
  }

  lemma PointAt(w: string, f: string)
    requires '.' !in w
    ensures var t := w + "." + f; IndexOf(t, '.') == |w| && t[..|w|] == w && t[|w| + 1..] == f
  {
    var t := w + "." + f;
    assert t[..|w|] == w;
    assert t[|w| + 1..] == f;
    IndexOfFirst(t, '.', |w|);
  }

  lemma DigitsNoPoint(w: string)
    requires AllDigits(w)
    ensures '.' !in w
  {
    forall j | 0 <= j < |w|
      ensures w[j] != '.'
    {
      assert IsDigit(w[j]);
    }
  }

  lemma UnsignedDecimalWithPoint(w: string, f: string)
    requires IsDigits(w) && IsDigits(f)
    ensures ParseUnsignedDecimal(w + "." + f) == Some(DigitsValue(w) as real + Fraction(f))
  {
    DigitsNoPoint(w);
    PointAt(w, f);
    UnsignedDecimalAt(w + "." + f, w, f);
  }

  /** `float("w.f")` for digit strings on both sides of the point. */
  lemma DecimalWithPoint(w: string, f: string)
    requires IsDigits(w) && IsDigits(f)
    ensures ParseDecimal(w + "." + f) == Some(DigitsValue(w) as real + Fraction(f))
  {
    var t := w + "." + f;
    assert t[0] == w[0] && t[|t| - 1] == f[|f| - 1];
    StripTrimmed(t);
    UnsignedDecimalWithPoint(w, f);
  }

  /** `float(str(i)) == i` */
  lemma DecimalOfIntToString(i: int)
    ensures ParseDecimal(IntToString(i)) == Some(i as real)
  {
    var t := IntToString(i);
    IntToStringTrimmed(i);
    StripTrimmed(t);
    var n: nat := if i < 0 then -i else i;
    NatToStringValue(n);
    UnsignedDecimalOfDigits(NatToString(n));
    if i < 0 {
      assert t[1..] == NatToString(n);
      assert t[0] == '-';
    } else {
      assert t[0] != '-' && t[0] != '+';
    }
  }

  /** `int(x)` on a float: truncation toward zero. */
  function Trunc(x: real): (r: int)
    ensures x >= 0.0 ==> 0.0 <= r as real <= x < r as real + 1.0
    ensures x < 0.0 ==> x <= r as real <= 0.0 && r as real - 1.0 < x
  {
    if x >= 0.0 then x.Floor else -((-x).Floor)
  }

  // ---------------------------------------------------------------------------
  // Miscellaneous

  /** `sub in s` */
  predicate Contains(s: string, sub: string)
    decreases |s|
  {
    (|sub| <= |s| && s[..|sub|] == sub) || (|s| > 0 && Contains(s[1..], sub))
  }

  ghost predicate OccursAt(s: string, sub: string, k: int) {
    0 <= k <= |s| - |sub| && s[k..k + |sub|] == sub
  }

  /** `Contains` agrees with the existence of an occurrence at some offset. */
  lemma {:induction false} ContainsOccurrence(s: string, sub: string)
    ensures Contains(s, sub) <==> exists k :: OccursAt(s, sub, k)
    decreases |s|
  {
    if |s| > 0 {
      ContainsOccurrence(s[1..], sub);
      if Contains(s, sub) {
        if |sub| <= |s| && s[..|sub|] == sub {
          assert OccursAt(s, sub, 0);
        } else {
          var k :| OccursAt(s[1..], sub, k);
          assert s[1..][k..k + |sub|] == s[k + 1..k + 1 + |sub|];
          assert OccursAt(s, sub, k + 1);
        }
      }
      if exists k :: OccursAt(s, sub, k) {
        var k :| OccursAt(s, sub, k);
        if k > 0 {
          assert s[1..][k - 1..k - 1 + |sub|] == s[k..k + |sub|];
          assert OccursAt(s[1..], sub, k - 1);
        }
      }
    } else {
      if Contains(s, sub) {
        assert OccursAt(s, sub, 0);
      }
      if exists k :: OccursAt(s, sub, k) {
        var k :| OccursAt(s, sub, k);
        assert k == 0;
      }
    }
  }

  /** `s.replace(a, b)` for single characters. */
  function ReplaceChar(s: string, a: char, b: char): (r: string)
    ensures |r| == |s|
    ensures forall i {:trigger r[i]} :: 0 <= i < |s| ==> r[i] == (if s[i] == a then b else s[i])
  {
    seq(|s|, i requires 0 <= i < |s| => if s[i] == a then b else s[i])
  }

  /** `c * n`: `n` copies of `c`, or nothing when `n <= 0`. */
  function Repeat(c: char, n: int): (r: string)
    ensures |r| == if n <= 0 then 0 else n
    ensures forall i :: 0 <= i < |r| ==> r[i] == c
    decreases if n <= 0 then 0 else n
  {
    if n <= 0 then "" else [c] + Repeat(c, n - 1)
  }

  function Max(a: int, b: int): int { if a >= b then a else b }
}
