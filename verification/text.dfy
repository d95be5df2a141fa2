/** String helpers: Python's whitespace `strip`, case-insensitive substring search as
    the database's `icontains` does it, `str.replace`, and the rendering of numbers
    with two decimals (`f"{x:.2f}"`). */
module Text {
  import opened Results

  /** The characters for which Python's `str.isspace()` holds; `str.strip()` removes them. */
  predicate IsSpace(c: char)
  {
    || c == ' '
    || ('\t' <= c <= '\r')
    || ('\U{1C}' <= c <= '\U{1F}')
    || c == '\U{85}' || c == '\U{A0}' || c == '\U{1680}'
    || ('\U{2000}' <= c <= '\U{200A}')
    || c == '\U{2028}' || c == '\U{2029}' || c == '\U{202F}' || c == '\U{205F}' || c == '\U{3000}'
  }

  /** `s.lstrip()`: drops leading whitespace. */
  function StripLeft(s: string): string
    decreases |s|
  {
    if s != [] && IsSpace(s[0]) then StripLeft(s[1..]) else s
  }

  /** `s.rstrip()`: drops trailing whitespace. */
  function StripRight(s: string): string
    decreases |s|
  {
    if s != [] && IsSpace(s[|s| - 1]) then StripRight(s[..|s| - 1]) else s
  }

  /** `s.strip()`. */
  function Strip(s: string): string
  {
    StripRight(StripLeft(s))
  }

  /** `lstrip` leaves the suffix that starts at the first non-whitespace character. */
  lemma {:induction false} StripLeftSpec(s: string)
    ensures var r := StripLeft(s);
            && |r| <= |s| && r == s[|s| - |r|..]
            && (r == [] || !IsSpace(r[0]))
            && (forall i :: 0 <= i < |s| - |r| ==> IsSpace(s[i]))
    decreases |s|
  {
    if s != [] && IsSpace(s[0]) {
      StripLeftSpec(s[1..]);
      var r := StripLeft(s);
      assert s[1..][|s[1..]| - |r|..] == s[|s| - |r|..];
      forall i | 0 <= i < |s| - |r|
        ensures IsSpace(s[i])
      {
        if i > 0 {
          assert s[i] == s[1..][i - 1];
        }
      }
    }
  }

  /** `rstrip` leaves the prefix that ends at the last non-whitespace character. */
  lemma {:induction false} StripRightSpec(s: string)
    ensures var r := StripRight(s);
            && |r| <= |s| && r == s[..|r|]
            && (r == [] || !IsSpace(r[|r| - 1]))
            && (forall i :: |r| <= i < |s| ==> IsSpace(s[i]))
    decreases |s|
  {
    if s != [] && IsSpace(s[|s| - 1]) {
      StripRightSpec(s[..|s| - 1]);
      var r := StripRight(s);
      assert s[..|s| - 1][..|r|] == s[..|r|];
      forall i | |r| <= i < |s|
        ensures IsSpace(s[i])
      {
        if i < |s| - 1 {
          assert s[i] == s[..|s| - 1][i];
        }
      }
    }
  }

  /** A stripped string is empty exactly when the input is all whitespace, and
      otherwise neither starts nor ends with whitespace. */
  lemma StripProperties(s: string)
    ensures Strip(s) == [] <==> forall i :: 0 <= i < |s| ==> IsSpace(s[i])
    ensures Strip(s) != [] ==> !IsSpace(Strip(s)[0]) && !IsSpace(Strip(s)[|Strip(s)| - 1])
  {
    var l := StripLeft(s);
    var r := StripRight(l);
    StripLeftSpec(s);
    StripRightSpec(l);
    if r == [] {
      assert l == [];
    } else {
      assert r[0] == l[0];
      assert !IsSpace(s[|s| - |l|]);
    }
  }

  /** ASCII upper-case letters folded to lower case; every other character unchanged. */
  function LowerChar(c: char): char
  {
    if 'A' <= c <= 'Z' then (c as int + 32) as char else c
  }

  function Lower(s: string): (r: string)
    ensures |r| == |s|
    ensures forall i :: 0 <= i < |s| ==> r[i] == LowerChar(s[i])
  {
    seq(|s|, i requires 0 <= i < |s| => LowerChar(s[i]))
  }

  /** `sub` occurs in `s` starting at position `i`. */
  predicate OccursAt(s: string, sub: string, i: int)
  {
    0 <= i && i + |sub| <= |s| && s[i..i + |sub|] == sub
  }

  /** A slice of the tail is the slice of the whole one position further on. */
  lemma ShiftedSlice(s: string, j: int, len: nat)
    requires 0 <= j && j + len < |s|
    ensures s[1..][j..j + len] == s[j + 1..j + 1 + len]
  {
  }

  /** Substring search (`sub in s`). */
  function Contains(s: string, sub: string): (b: bool)
    ensures b <==> exists i :: OccursAt(s, sub, i)
    decreases |s|
  {
    if sub <= s then
      assert OccursAt(s, sub, 0);
      true
    else if s == [] then
      false
    else
      var b := Contains(s[1..], sub);
      assert forall j :: OccursAt(s[1..], sub, j) ==> OccursAt(s, sub, j + 1) by {
        forall j | OccursAt(s[1..], sub, j)
          ensures OccursAt(s, sub, j + 1)
        {
          ShiftedSlice(s, j, |sub|);
        }
      }
      assert forall i :: OccursAt(s, sub, i) ==> i > 0 && OccursAt(s[1..], sub, i - 1) by {
        forall i | OccursAt(s, sub, i)
          ensures i > 0 && OccursAt(s[1..], sub, i - 1)
        {
          assert i == 0 ==> sub <= s;
          ShiftedSlice(s, i - 1, |sub|);
        }
      }
      b
  }

  /** `icontains`: substring search after folding both sides to lower case. */
  function ContainsIgnoreCase(s: string, sub: string): bool
  {
    Contains(Lower(s), Lower(sub))
  }

  /** Python's `s.replace(pat, rep)`: every non-overlapping occurrence, scanning left to right. */
  function ReplaceAll(s: string, pat: string, rep: string): string
    requires pat != []
    decreases |s|
  {
    if |s| < |pat| then s
    else if pat <= s then rep + ReplaceAll(s[|pat|..], pat, rep)
    else [s[0]] + ReplaceAll(s[1..], pat, rep)
  }

  /** Replacing a suffix whose first character does not occur before it rewrites just
      that suffix. */
  lemma {:induction false} ReplaceSuffix(base: string, pat: string, rep: string)
    requires pat != [] && pat[0] !in base
    ensures ReplaceAll(base + pat, pat, rep) == base + rep
    decreases |base|
  {
    var s := base + pat;
    if base == [] {
      assert s == pat && pat <= s;
      assert s[|pat|..] == [];
      assert ReplaceAll(s, pat, rep) == rep + ReplaceAll([], pat, rep);
    } else {
      assert s[0] == base[0] && base[0] != pat[0];
      assert !(pat <= s);
      assert ReplaceAll(s, pat, rep) == [s[0]] + ReplaceAll(s[1..], pat, rep);
      assert s[1..] == base[1..] + pat;
      ReplaceSuffix(base[1..], pat, rep);
      assert base == [base[0]] + base[1..];
    }
  }

  predicate IsDigit(c: char)
  {
    '0' <= c <= '9'
  }

  predicate AllDigits(s: string)
  {
    forall i :: 0 <= i < |s| ==> IsDigit(s[i])
  }

  function DigitChar(d: nat): (c: char)
    requires d < 10
    ensures IsDigit(c) && c as int - '0' as int == d
  {
    ('0' as int + d) as char
  }

  /** Decimal notation of a natural number, without leading zeros. */
  function NatToString(n: nat): (r: string)
    ensures |r| >= 1 && AllDigits(r)
    decreases n
  {
    if n < 10 then [DigitChar(n)] else NatToString(n / 10) + [DigitChar(n % 10)]
  }

  /** The number a string of decimal digits denotes. */
  function DigitsValue(s: string): nat
    requires AllDigits(s)
    decreases |s|
  {
    if s == [] then 0 else DigitsValue(s[..|s| - 1]) * 10 + (s[|s| - 1] as int - '0' as int)
  }

  lemma {:induction false} NatToStringRoundTrip(n: nat)
    ensures DigitsValue(NatToString(n)) == n
    decreases n
  {
    var r := NatToString(n);
    if n >= 10 {
      NatToStringRoundTrip(n / 10);
      assert r[..|r| - 1] == NatToString(n / 10);
    }
  }

  /** `f"{x:.2f}"` for a decimal with two fractional digits, given as hundredths. */
  function Fixed2(h: int): (r: string)
    ensures |r| >= 4 && r[|r| - 3] == '.' && AllDigits(r[|r| - 2..])
  {
    var a := if h < 0 then -h else h;
    (if h < 0 then "-" else "") + NatToString(a / 100) + "." + [DigitChar(a % 100 / 10), DigitChar(a % 100 % 10)]
  }

  /** Reads back a number written with exactly two fractional digits, as hundredths. */
  function ParseFixed2(s: string): Option<int>
  {
    if |s| < 4 || s[|s| - 3] != '.' || !AllDigits(s[|s| - 2..]) then None
    else ParseWhole(s[..|s| - 3], DigitsValue(s[|s| - 2..]))
  }

  /** The whole part, with an optional minus sign, combined with the hundredths. */
  function ParseWhole(whole: string, cents: nat): Option<int>
  {
    if |whole| > 1 && whole[0] == '-' && AllDigits(whole[1..]) then
      Some(-(DigitsValue(whole[1..]) * 100 + cents))
    else if AllDigits(whole) then
      Some(DigitsValue(whole) * 100 + cents)
    else
      None
  }

  /** Two digits read back to the number they spell. */
  lemma TwoDigitsValue(d1: nat, d0: nat)
    requires d1 < 10 && d0 < 10
    ensures DigitsValue([DigitChar(d1), DigitChar(d0)]) == d1 * 10 + d0
  {
    var t := [DigitChar(d1), DigitChar(d0)];
    assert DigitsValue([DigitChar(d1)]) == d1 by {
      assert [DigitChar(d1)][..0] == [];
    }
    assert t[..|t| - 1] == [DigitChar(d1)];
    assert DigitsValue(t) == DigitsValue([DigitChar(d1)]) * 10 + d0;
  }

  /** Reading back a string made of a whole part, a point and two digits. */
  lemma ParseParts(whole: string, tail: string)
    requires |whole| >= 1 && |tail| == 2 && AllDigits(tail)
    ensures ParseFixed2(whole + "." + tail) == ParseWhole(whole, DigitsValue(tail))
  {
    var s := whole + "." + tail;
    assert s[..|s| - 3] == whole;
    assert s[|s| - 2..] == tail;
  }

  /** The two decimals of a number of hundredths below 100 read back to it. */
  lemma CentsValue(c: nat)
    requires c < 100
    ensures DigitsValue([DigitChar(c / 10), DigitChar(c % 10)]) == c
  {
    TwoDigitsValue(c / 10, c % 10);
  }

  /** The whole part, with or without a minus sign, reads back to its value. */
  lemma WholeValue(neg: bool, q: nat, c: nat)
    ensures ParseWhole((if neg then "-" else "") + NatToString(q), c)
            == Some(if neg then -(q * 100 + c) else q * 100 + c)
  {
    var n := NatToString(q);
    var whole := (if neg then "-" else "") + n;
    NatToStringRoundTrip(q);
    if neg {
      assert whole[0] == '-' && whole[1..] == n;
    } else {
      assert whole == n && IsDigit(n[0]);
    }
  }

  /** The rendering of a sign, a whole part and two decimals reads back to the number. */
  lemma SignedPartsRoundTrip(neg: bool, q: nat, c: nat)
    requires c < 100
    ensures ParseFixed2((if neg then "-" else "") + NatToString(q) + "." + [DigitChar(c / 10), DigitChar(c % 10)])
            == Some(if neg then -(q * 100 + c) else q * 100 + c)
  {
    var tail := [DigitChar(c / 10), DigitChar(c % 10)];
    var whole := (if neg then "-" else "") + NatToString(q);
    ParseParts(whole, tail);
    CentsValue(c);
    WholeValue(neg, q, c);
  }

  /** Two-decimal rendering loses nothing: it reads back to the same hundredths. */
  lemma Fixed2RoundTrip(h: int)
    ensures ParseFixed2(Fixed2(h)) == Some(h)
  {
    var a := if h < 0 then -h else h;
    SignedPartsRoundTrip(h < 0, a / 100, a % 100);
  }

  /** Rounding to the nearest integer, ties to even (the default rounding of Python's
      `decimal` module). */
  function RoundHalfEven(x: real): (r: int)
    ensures r as real - 0.5 <= x <= r as real + 0.5
    ensures x - x.Floor as real == 0.5 ==> r % 2 == 0
  {
    var f := x.Floor;
    var d := x - f as real;
    if d < 0.5 then f else if d > 0.5 then f + 1 else if f % 2 == 0 then f else f + 1
  }
}
