/**
 * Text helpers that the response renderer relies on from Rust's standard
 * library: decimal rendering of integers (`{}` on `u16`/`u64`), the UTF-8
 * byte length of a `String` (`str::len`), `str::replace(' ', "-")` and
 * `[String]::join("\n")`, each with the inverse or invariant that pins it down.
 */
module Strings {

  // ---------------------------------------------------------------------
  // Decimal rendering
  // ---------------------------------------------------------------------

  predicate IsDigit(c: char) { '0' <= c <= '9' }

  function DigitChar(d: nat): (c: char)
    requires d < 10
    ensures IsDigit(c) && c as int - '0' as int == d
  {
    ['0', '1', '2', '3', '4', '5', '6', '7', '8', '9'][d]
  }

  predicate AllDigits(s: string)
  {
    forall k :: 0 <= k < |s| ==> IsDigit(s[k])
  }

  /** The decimal text of `n`, most significant digit first. */
  function Decimal(n: nat): string
    decreases n
  {
    if n < 10 then [DigitChar(n)] else Decimal(n / 10) + [DigitChar(n % 10)]
  }

  /** Decimal text is a non-empty run of digits without a leading zero. */
  lemma {:induction false} DecimalDigits(n: nat)
    ensures |Decimal(n)| >= 1
    ensures AllDigits(Decimal(n))
    ensures |Decimal(n)| > 1 ==> Decimal(n)[0] != '0'
    decreases n
  {
    if n >= 10 {
      DecimalDigits(n / 10);
      assert Decimal(n)[0] == Decimal(n / 10)[0];
    }
  }

  function DigitValue(c: char): nat
    requires IsDigit(c)
  {
    c as int - '0' as int
  }

  /** Decimal text holds neither a space nor a line break, so it cannot run into its neighbours. */
  lemma DecimalHasNoSeparator(n: nat)
    ensures ' ' !in Decimal(n) && '\n' !in Decimal(n)
  {
    DecimalDigits(n);
  }

  /** The number a string of decimal digits denotes; the inverse of Decimal. */
  function DecimalValue(s: string): nat
    requires AllDigits(s)
  {
    if s == [] then 0
    else 10 * DecimalValue(s[..|s| - 1]) + DigitValue(s[|s| - 1])
  }

  lemma {:induction false} DecimalRoundTrip(n: nat)
    ensures AllDigits(Decimal(n)) && DecimalValue(Decimal(n)) == n
    decreases n
  {
    DecimalDigits(n);
    var s := Decimal(n);
    if n >= 10 {
      DecimalRoundTrip(n / 10);
      assert s[..|s| - 1] == Decimal(n / 10);
    }
  }

  /** Two numbers render alike only when they are equal. */
  lemma DecimalInjective(m: nat, n: nat)
    requires Decimal(m) == Decimal(n)
    ensures m == n
  {
    DecimalRoundTrip(m);
    DecimalRoundTrip(n);
  }

  // ---------------------------------------------------------------------
  // UTF-8 byte length
  // ---------------------------------------------------------------------

  /** Number of bytes the UTF-8 encoding of one Unicode scalar value takes. */
  function Utf8Width(c: char): (w: nat)
    ensures 1 <= w <= 4
    ensures w == 1 <==> c as int < 0x80
  {
    if c as int < 0x80 then 1
    else if c as int < 0x800 then 2
    else if c as int < 0x1_0000 then 3
    else 4
  }

  /** `str::len`: the length in bytes of the UTF-8 encoding of `s`. */
  function Utf8Length(s: string): nat
  {
    if s == [] then 0 else Utf8Width(s[0]) + Utf8Length(s[1..])
  }

  /** Every character takes between one and four bytes. */
  lemma {:induction false} Utf8LengthBounds(s: string)
    ensures |s| <= Utf8Length(s) <= 4 * |s|
  {
    if s != [] {
      Utf8LengthBounds(s[1..]);
    }
  }

  lemma {:induction false} Utf8LengthAppend(a: string, b: string)
    ensures Utf8Length(a + b) == Utf8Length(a) + Utf8Length(b)
  {
    if a != [] {
      assert (a + b)[0] == a[0];
      assert (a + b)[1..] == a[1..] + b;
      Utf8LengthAppend(a[1..], b);
    } else {
      assert a + b == b;
    }
  }

  /** The byte length equals the character count exactly when every character is ASCII. */
  lemma {:induction false} Utf8LengthIsCharCountIffAscii(s: string)
    ensures Utf8Length(s) == |s| <==> forall i :: 0 <= i < |s| ==> s[i] as int < 0x80
  {
    if s != [] {
      Utf8LengthIsCharCountIffAscii(s[1..]);
      Utf8LengthBounds(s[1..]);
      if Utf8Length(s) == |s| {
        assert Utf8Width(s[0]) == 1;
        forall i | 0 <= i < |s| ensures s[i] as int < 0x80 {
          if i > 0 { assert s[i] == s[1..][i - 1]; }
        }
      }
    }
  }

  // ---------------------------------------------------------------------
  // str::replace(' ', "-")
  // ---------------------------------------------------------------------

  /** Every space of `s` turned into a hyphen, every other character kept. */
  function ReplaceSpaces(s: string): string
  {
    if s == [] then []
    else [if s[0] == ' ' then '-' else s[0]] + ReplaceSpaces(s[1..])
  }

  /** The result keeps the length and every non-space character in place, and holds no space. */
  lemma {:induction false} ReplaceSpacesSpec(s: string)
    ensures |ReplaceSpaces(s)| == |s|
    ensures forall i :: 0 <= i < |s| ==> ReplaceSpaces(s)[i] == (if s[i] == ' ' then '-' else s[i])
    ensures ' ' !in ReplaceSpaces(s)
  {
    if s != [] {
      ReplaceSpacesSpec(s[1..]);
      var r := ReplaceSpaces(s);
      forall i | 1 <= i < |s| ensures r[i] == (if s[i] == ' ' then '-' else s[i]) {
        assert r[i] == ReplaceSpaces(s[1..])[i - 1] && s[i] == s[1..][i - 1];
      }
    }
  }

  // ---------------------------------------------------------------------
  // join("\n") and its inverse
  // ---------------------------------------------------------------------

  /** `lines.join("\n")`: the lines with one newline between each pair. */
  function JoinLines(lines: seq<string>): string
  {
    if lines == [] then []
    else if |lines| == 1 then lines[0]
    else lines[0] + "\n" + JoinLines(lines[1..])
  }

  /** Index of the first occurrence of `c` in `s`, or `|s|` when there is none. */
  function FirstIndex(s: string, c: char): (k: nat)
    ensures k <= |s|
    ensures k < |s| ==> s[k] == c
    ensures forall i :: 0 <= i < k ==> s[i] != c
  {
    if s == [] || s[0] == c then 0 else 1 + FirstIndex(s[1..], c)
  }

  /** `s.split('\n')`: the pieces of `s` between newlines (one piece when there is none). */
  function SplitLines(s: string): (lines: seq<string>)
    ensures |lines| >= 1
    decreases |s|
  {
    var k := FirstIndex(s, '\n');
    if k == |s| then [s] else [s[..k]] + SplitLines(s[k + 1..])
  }

  predicate NoNewline(s: string) { '\n' !in s }

  /** The first `c` of `a + [c] + rest` is the one after `a`, when `a` holds none. */
  lemma FirstIndexAfter(a: string, c: char, rest: string)
    requires c !in a
    ensures FirstIndex(a + [c] + rest, c) == |a|
  {
    var s := a + [c] + rest;
    if a != [] {
      assert s[1..] == a[1..] + [c] + rest;
      FirstIndexAfter(a[1..], c, rest);
    }
  }

  /** Splitting the joined text gives the lines back, when none of them holds a newline. */
  lemma {:induction false} SplitJoin(lines: seq<string>)
    requires |lines| >= 1
    requires forall i :: 0 <= i < |lines| ==> NoNewline(lines[i])
    ensures SplitLines(JoinLines(lines)) == lines
  {
    if |lines| > 1 {
      var s := JoinLines(lines);
      var rest := JoinLines(lines[1..]);
      assert s == lines[0] + "\n" + rest;
      FirstIndexAfter(lines[0], '\n', rest);
      var k := |lines[0]|;
      assert s[..k] == lines[0];
      assert s[k + 1..] == rest;
      SplitJoin(lines[1..]);
      assert lines == [lines[0]] + lines[1..];
    }
  }
}
