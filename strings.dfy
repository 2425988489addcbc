/**
 * The JavaScript string operations the app relies on, over `seq<char>`:
 * `String(n)` for integers, `Number(s)` for decimal numerals,
 * `padStart(2, '0')`, `split(c)` and `trim()`.
 */
module Strings {

  predicate IsDigit(c: char) {
    '0' <= c <= '9'
  }

  predicate AllDigits(s: string) {
    forall i :: 0 <= i < |s| ==> IsDigit(s[i])
  }

  function DigitChar(d: nat): (c: char)
    requires d < 10
    ensures IsDigit(c) && c as int - '0' as int == d
  {
    ('0' as int + d) as char
  }

  /** `String(n)` for a non-negative integer: its shortest decimal numeral. */
  function NatToString(n: nat): (s: string)
    ensures |s| >= 1 && AllDigits(s)
    ensures (|s| == 1) == (n < 10)
    decreases n
  {
    if n < 10 then [DigitChar(n)] else NatToString(n / 10) + [DigitChar(n % 10)]
  }

  /** `String(i)` for any integer: a minus sign in front of negative numbers. */
  function IntToString(i: int): (s: string)
    ensures i >= 0 ==> s == NatToString(i)
    ensures i < 0 ==> s == "-" + NatToString(-i)
  {
    if i < 0 then "-" + NatToString(-i) else NatToString(i)
  }

  /**
   * `Number(s)` for a string of ASCII digits; the empty string is 0, as in
   * JavaScript. Leading zeros are ignored.
   */
  function DecimalValue(s: string): nat
    requires AllDigits(s)
  {
    if s == [] then 0
    else DecimalValue(s[..|s| - 1]) * 10 + (s[|s| - 1] as int - '0' as int)
  }

  lemma {:induction false} DecimalValueOfNatToString(n: nat)
    ensures DecimalValue(NatToString(n)) == n
    decreases n
  {
    if n >= 10 {
      var s := NatToString(n);
      assert s[..|s| - 1] == NatToString(n / 10);
      DecimalValueOfNatToString(n / 10);
    }
  }

  lemma {:induction false} DecimalValueLeadingZero(s: string)
    requires AllDigits(s)
    ensures AllDigits("0" + s) && DecimalValue("0" + s) == DecimalValue(s)
    decreases |s|
  {
    var t := "0" + s;
    if s != [] {
      assert t[..|t| - 1] == "0" + s[..|s| - 1];
      DecimalValueLeadingZero(s[..|s| - 1]);
    }
  }

  /** The numeral of `n` has 2 characters for 10..99 and 4 for 1000..9999. */
  lemma NatToStringLength(n: nat)
    ensures 10 <= n < 100 ==> |NatToString(n)| == 2
    ensures 1000 <= n < 10000 ==> |NatToString(n)| == 4
  {
    if 1000 <= n < 10000 {
      assert |NatToString(n / 10)| == 3 by {
        assert |NatToString(n / 100)| == 2;
      }
    }
  }

  /** `s.padStart(n, c)` with a one-character pad. */
  function PadStart(s: string, n: nat, c: char): (r: string)
    ensures |r| == if |s| >= n then |s| else n
    ensures r[|r| - |s|..] == s
    ensures forall i :: 0 <= i < |r| - |s| ==> r[i] == c
  {
    if |s| >= n then s else seq(n - |s|, _ => c) + s
  }

  /** `s.padStart(2, '0')` */
  function Pad2(s: string): string {
    PadStart(s, 2, '0')
  }

  /** Zero-padding a numeral below 100 gives two digits that still denote it. */
  lemma Pad2Numeral(n: nat)
    requires n < 100
    ensures |Pad2(NatToString(n))| == 2 && AllDigits(Pad2(NatToString(n)))
    ensures DecimalValue(Pad2(NatToString(n))) == n
  {
    NatToStringLength(n);
    DecimalValueOfNatToString(n);
    var s := NatToString(n);
    if n < 10 {
      assert Pad2(s) == "0" + s;
      DecimalValueLeadingZero(s);
    }
  }

  /** Padding any numeral keeps it a digit string with the same value. */
  lemma Pad2Value(n: nat)
    ensures AllDigits(Pad2(NatToString(n))) && DecimalValue(Pad2(NatToString(n))) == n
  {
    DecimalValueOfNatToString(n);
    var s := NatToString(n);
    if n < 10 {
      assert Pad2(s) == "0" + s;
      DecimalValueLeadingZero(s);
    }
  }

  /** The position of the first `c` in `s`, or `|s|` when there is none. */
  function IndexOf(s: string, c: char): (i: nat)
    ensures i <= |s|
    ensures i < |s| ==> s[i] == c
    ensures forall j :: 0 <= j < i ==> s[j] != c
  {
    if s == [] then 0
    else if s[0] == c then 0
    else 1 + IndexOf(s[1..], c)
  }

  /** `s.split(sep)` for a one-character separator. */
  function Split(s: string, sep: char): (parts: seq<string>)
    ensures |parts| >= 1
    ensures forall k :: 0 <= k < |parts| ==> sep !in parts[k]
    decreases |s|
  {
    var i := IndexOf(s, sep);
    if i == |s| then [s] else [s[..i]] + Split(s[i + 1..], sep)
  }

  lemma SplitWithoutSeparator(s: string, sep: char)
    requires sep !in s
    ensures Split(s, sep) == [s]
  {
    assert IndexOf(s, sep) == |s|;
  }

  /** A field without the separator, then the separator, then the rest. */
  lemma SplitField(a: string, sep: char, b: string)
    requires sep !in a
    ensures Split(a + [sep] + b, sep) == [a] + Split(b, sep)
  {
    var s := a + [sep] + b;
    var i := IndexOf(s, sep);
    assert s[|a|] == sep;
    assert i == |a|;
    assert s[..i] == a && s[i + 1..] == b;
  }

  lemma DigitsHaveNo(s: string, c: char)
    requires AllDigits(s) && !IsDigit(c)
    ensures c !in s
  {
  }

  /** The characters `String.prototype.trim` removes: WhiteSpace and LineTerminator. */
  predicate IsWhitespace(c: char) {
    var k := c as int;
    k == 0x09 || k == 0x0A || k == 0x0B || k == 0x0C || k == 0x0D || k == 0x20 ||
    k == 0xA0 || k == 0x1680 || (0x2000 <= k <= 0x200A) ||
    k == 0x2028 || k == 0x2029 || k == 0x202F || k == 0x205F || k == 0x3000 || k == 0xFEFF
  }

  /** The number of whitespace characters at the start of `s`. */
  function LeadingWhitespace(s: string): (k: nat)
    ensures k <= |s|
    ensures forall i :: 0 <= i < k ==> IsWhitespace(s[i])
    ensures k < |s| ==> !IsWhitespace(s[k])
  {
    if s != [] && IsWhitespace(s[0]) then 1 + LeadingWhitespace(s[1..]) else 0
  }

  /** The length of `s` without its trailing whitespace. */
  function TrailingStart(s: string): (k: nat)
    ensures k <= |s|
    ensures forall i :: k <= i < |s| ==> IsWhitespace(s[i])
    ensures k > 0 ==> !IsWhitespace(s[k - 1])
  {
    if s != [] && IsWhitespace(s[|s| - 1]) then TrailingStart(s[..|s| - 1]) else |s|
  }

  /** `s.trim()` */
  function Trim(s: string): (r: string)
    ensures r == [] <==> forall i :: 0 <= i < |s| ==> IsWhitespace(s[i])
    ensures r != [] ==> !IsWhitespace(r[0]) && !IsWhitespace(r[|r| - 1])
    ensures LeadingWhitespace(s) + |r| <= |s|
    ensures s == s[..LeadingWhitespace(s)] + r + s[LeadingWhitespace(s) + |r|..]
    ensures forall i :: LeadingWhitespace(s) + |r| <= i < |s| ==> IsWhitespace(s[i])
  {
    var a := LeadingWhitespace(s);
    var t := s[a..];
    var k := TrailingStart(t);
    TrimmedSlice(s, a, k);
    t[..k]
  }

  /** Cutting `a` characters from the front and keeping `k` of the rest. */
  lemma TrimmedSlice(s: string, a: nat, k: nat)
    requires a + k <= |s|
    ensures s[a..][..k] == s[a..a + k]
    ensures s == s[..a] + s[a..a + k] + s[a + k..]
    ensures forall i :: a + k <= i < |s| ==> s[i] == s[a..][i - a]
  {
  }

  lemma TrimIdempotent(s: string)
    ensures Trim(Trim(s)) == Trim(s)
  {
    var r := Trim(s);
    var l := LeadingWhitespace(r);
    if r != [] {
      assert l == 0;
      var rr := Trim(r);
      assert r == rr + r[|rr|..];
    }
  }

  /** A two-digit numeral is reproduced by parsing it and printing it zero-padded. */
  lemma Pad2OfTwoDigits(a: string)
    requires |a| == 2 && AllDigits(a)
    ensures Pad2(NatToString(DecimalValue(a))) == a
  {
    var d1 := a[0] as int - '0' as int;
    var d2 := a[1] as int - '0' as int;
    TwoDigitValue(a);
    var v := DecimalValue(a);
    var c1, c2 := DigitChar(d1), DigitChar(d2);
    assert a == [c1, c2] by {
      TwoDigitChars(a);
    }
    if d1 == 0 {
      assert v == d2;
      PaddedOneDigit(d2);
      assert Pad2(NatToString(d2)) == [c1, c2];
    } else {
      assert v == d1 * 10 + d2;
      TwoDigitNumeral(d1, d2);
      assert Pad2(NatToString(d1 * 10 + d2)) == [c1, c2];
    }
  }

  lemma TwoDigitChars(a: string)
    requires |a| == 2 && AllDigits(a)
    ensures a == [DigitChar(a[0] as int - '0' as int), DigitChar(a[1] as int - '0' as int)]
  {
  }

  lemma PaddedOneDigit(d: nat)
    requires d < 10
    ensures Pad2(NatToString(d)) == [DigitChar(0), DigitChar(d)]
  {
    PadOneChar(NatToString(d));
  }

  lemma TwoDigitNumeral(d1: nat, d2: nat)
    requires 1 <= d1 < 10 && d2 < 10
    ensures Pad2(NatToString(d1 * 10 + d2)) == [DigitChar(d1), DigitChar(d2)]
  {
    DivTen(d1, d2);
    assert NatToString(d1) == [DigitChar(d1)];
    var r := NatToString(d1 * 10 + d2);
    assert r == [DigitChar(d1), DigitChar(d2)];
    PadTwoChars(r);
  }

  lemma PadOneChar(r: string)
    requires |r| == 1
    ensures Pad2(r) == ['0'] + r
  {
    var p := Pad2(r);
    assert p[1..] == r;
    assert p == [p[0]] + p[1..];
  }

  lemma PadTwoChars(r: string)
    requires |r| == 2
    ensures Pad2(r) == r
  {
    assert Pad2(r)[0..] == r;
  }

  lemma DivTen(q: nat, d: nat)
    requires d < 10
    ensures (q * 10 + d) / 10 == q && (q * 10 + d) % 10 == d
  {
  }

  lemma TwoDigitValue(a: string)
    requires |a| == 2 && AllDigits(a)
    ensures DecimalValue(a) == (a[0] as int - '0' as int) * 10 + (a[1] as int - '0' as int)
  {
    var head := a[..1];
    assert head == [a[0]] && head[..0] == [];
    assert a[..|a| - 1] == head;
    assert DecimalValue(head) == DecimalValue(head[..0]) * 10 + (a[0] as int - '0' as int);
    assert DecimalValue(a) == DecimalValue(head) * 10 + (a[1] as int - '0' as int);
  }

  /** Two digit strings joined by a non-digit split back into the two. */
  lemma SplitTwoFields(a: string, sep: char, b: string)
    requires AllDigits(a) && AllDigits(b) && !IsDigit(sep)
    ensures Split(a + [sep] + b, sep) == [a, b]
  {
    DigitsHaveNo(a, sep);
    DigitsHaveNo(b, sep);
    SplitField(a, sep, b);
    SplitWithoutSeparator(b, sep);
  }

  /** Three digit strings joined by a non-digit split back into the three. */
  lemma SplitThreeFields(a: string, sep: char, b: string, c: string)
    requires AllDigits(a) && AllDigits(b) && AllDigits(c) && !IsDigit(sep)
    ensures Split(a + [sep] + (b + [sep] + c), sep) == [a, b, c]
  {
    DigitsHaveNo(a, sep);
    SplitField(a, sep, b + [sep] + c);
    SplitTwoFields(b, sep, c);
  }
}
