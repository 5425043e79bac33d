/** Character-level model of the C strings both variants work on, and the
    specification of their numeric text helpers (`ft_strlen`, `ft_atoi`,
    `ft_isdigit_str`, `ft_itoa`), with the properties those helpers promise.
    The imperative code itself is in module Utils. */
module CText {
  import opened Machine

  /** A C string is the content of its character buffer. Reading at the end
      of the sequence yields the terminating NUL, so a buffer may hold an
      explicit '\0' or leave it implicit. */
  type CString = seq<char>

  function At(s: CString, i: nat): char
  {
    if i < |s| then s[i] else '\0'
  }

  predicate NoNul(t: seq<char>)
  {
    forall i :: 0 <= i < |t| ==> t[i] != '\0'
  }

  /** The number of characters before the first NUL. */
  function Len(s: CString): (n: nat)
    ensures n <= |s|
    ensures NoNul(s[..n])
    ensures n < |s| ==> s[n] == '\0'
  {
    if s == [] || s[0] == '\0' then 0 else 1 + Len(s[1..])
  }

  /** The text a C string denotes: everything before its first NUL. */
  function Text(s: CString): seq<char>
  {
    s[..Len(s)]
  }

  /** `Len` is determined by where the first NUL stands. */
  lemma LenIs(s: CString, k: nat)
    requires k <= |s| && NoNul(s[..k]) && (k < |s| ==> s[k] == '\0')
    ensures Len(s) == k
  {
    var n := Len(s);
    forall i | 0 <= i < k ensures s[i] != '\0' {
      assert s[..k][i] == s[i];
    }
    forall i | 0 <= i < n ensures s[i] != '\0' {
      assert s[..n][i] == s[i];
    }
  }

  /** A NUL-free text followed by a terminator (and anything after it)
      denotes itself. */
  lemma TextOfTerminated(t: seq<char>, rest: CString)
    requires NoNul(t)
    requires rest == [] || rest[0] == '\0'
    ensures Len(t + rest) == |t|
    ensures Text(t + rest) == t
  {
    assert (t + rest)[..|t|] == t;
    LenIs(t + rest, |t|);
  }

  // ---- character classes ------------------------------------------------

  /** ' ' and the control characters 9 to 13 ('\t' '\n' '\v' '\f' '\r'). */
  predicate IsSpace(c: char)
  {
    c == ' ' || ('\t' <= c <= '\r')
  }

  predicate IsDigit(c: char)
  {
    '0' <= c <= '9'
  }

  predicate IsSign(c: char)
  {
    c == '+' || c == '-'
  }

  predicate AllDigits(d: seq<char>)
  {
    forall i :: 0 <= i < |d| ==> IsDigit(d[i])
  }

  function DigitVal(c: char): int
  {
    c as int - '0' as int
  }

  function DigitChar(k: int): char
    requires 0 <= k < 10
  {
    (k + '0' as int) as char
  }

  /** The value of a run of decimal digits, accumulated left to right. It
      is only ever applied to digits. */
  function Value(d: seq<char>): int
    decreases |d|
  {
    if d == [] then 0 else Value(d[..|d| - 1]) * 10 + DigitVal(d[|d| - 1])
  }

  /** Digits have a non-negative value. */
  lemma {:induction false} ValueNonNegative(d: seq<char>)
    requires AllDigits(d)
    ensures Value(d) >= 0
    decreases |d|
  {
    if d != [] {
      ValueNonNegative(d[..|d| - 1]);
    }
  }

  // ---- scanning ---------------------------------------------------------

  /** The first position at or after `i` that is not white space. */
  function SkipSpaces(s: CString, i: nat): (j: nat)
    requires i <= |s|
    ensures i <= j <= |s|
    ensures j < |s| ==> !IsSpace(s[j])
    decreases |s| - i
  {
    if i < |s| && IsSpace(s[i]) then SkipSpaces(s, i + 1) else i
  }

  /** The first position at or after `i` that is not a decimal digit. */
  function SkipDigits(s: CString, i: nat): (j: nat)
    requires i <= |s|
    ensures i <= j <= |s|
    ensures j < |s| ==> !IsDigit(s[j])
    decreases |s| - i
  {
    if i < |s| && IsDigit(s[i]) then SkipDigits(s, i + 1) else i
  }

  /** Everything `SkipSpaces` passes over is white space. */
  lemma {:induction false} SpacesSkipped(s: CString, i: nat)
    requires i <= |s|
    ensures forall k :: i <= k < SkipSpaces(s, i) ==> IsSpace(s[k])
    decreases |s| - i
  {
    if i < |s| && IsSpace(s[i]) {
      SpacesSkipped(s, i + 1);
    }
  }

  /** Everything `SkipDigits` passes over is a digit. */
  lemma {:induction false} DigitsSkipped(s: CString, i: nat)
    requires i <= |s|
    ensures forall k :: i <= k < SkipDigits(s, i) ==> IsDigit(s[k])
    ensures AllDigits(s[i..SkipDigits(s, i)])
    decreases |s| - i
  {
    if i < |s| && IsDigit(s[i]) {
      DigitsSkipped(s, i + 1);
    }
  }

  lemma {:induction false} SkipSpacesIs(s: CString, i: nat, k: nat)
    requires i <= k <= |s|
    requires forall x :: i <= x < k ==> IsSpace(s[x])
    requires k < |s| ==> !IsSpace(s[k])
    ensures SkipSpaces(s, i) == k
    decreases k - i
  {
    if i < k {
      SkipSpacesIs(s, i + 1, k);
    }
  }

  lemma {:induction false} SkipDigitsIs(s: CString, i: nat, k: nat)
    requires i <= k <= |s|
    requires forall x :: i <= x < k ==> IsDigit(s[x])
    requires k < |s| ==> !IsDigit(s[k])
    ensures SkipDigits(s, i) == k
    decreases k - i
  {
    if i < k {
      SkipDigitsIs(s, i + 1, k);
    }
  }

  /** Position just after an optional sign at `a`. */
  function SignEnd(s: CString, a: nat): nat
    requires a <= |s|
  {
    if a < |s| && IsSign(s[a]) then a + 1 else a
  }

  function SignAt(s: CString, a: nat): int
  {
    if a < |s| && s[a] == '-' then -1 else 1
  }

  /** What `ft_atoi` computes, in unbounded arithmetic: skip white space,
      take at most one sign, then the longest run of digits. */
  function AtoiValue(s: CString): int
  {
    var a := SkipSpaces(s, 0);
    var b := SignEnd(s, a);
    var e := SkipDigits(s, b);
    SignAt(s, a) * Value(s[b..e])
  }

  /** `AtoiValue` once the three scanning positions are known. */
  lemma AtoiValueIs(s: CString, a: nat, b: nat, e: nat)
    requires a == SkipSpaces(s, 0) && b == SignEnd(s, a) && e == SkipDigits(s, b)
    ensures AllDigits(s[b..e])
    ensures AtoiValue(s) == SignAt(s, a) * Value(s[b..e])
  {
    DigitsSkipped(s, b);
  }

  /** What `ft_atoi` returns in a 32-bit int. */
  function AtoiInt(s: CString): Int32
  {
    Wrap32(AtoiValue(s))
  }

  /** What `ft_isdigit_str` accepts: an optional single sign followed by one
      or more digits and nothing else. */
  predicate IsNumeral(s: CString)
  {
    var t := Text(s);
    var b := if |t| > 0 && IsSign(t[0]) then 1 else 0;
    |t| > b && AllDigits(t[b..])
  }

  // ---- decimal rendering ------------------------------------------------

  /** The decimal digits of `m`, most significant first. */
  function Digits(m: nat): (d: seq<char>)
    ensures |d| >= 1 && AllDigits(d)
    decreases m
  {
    if m < 10 then [DigitChar(m)] else Digits(m / 10) + [DigitChar(m % 10)]
  }

  /** `n` written in decimal, with a leading '-' when negative. */
  function DecimalText(n: int): seq<char>
  {
    if n < 0 then ['-'] + Digits(-n) else Digits(n)
  }

  /** How many times `ft_itoa` can divide `n` by ten (C division) before it
      reaches zero: 0 for 0, otherwise the number of digits of `n`. */
  function CountDigits(n: int): nat
    decreases if n < 0 then -n else n
  {
    if n == 0 then 0 else 1 + CountDigits(Quot(n, 10))
  }

  function Spaces(k: nat): (r: seq<char>)
    ensures |r| == k
  {
    seq(k, _ => ' ')
  }

  /** printf's `%<w>s` on a string: right-aligned in a field of width `w`,
      never truncated. */
  function PadLeft(s: seq<char>, w: nat): (r: seq<char>)
    ensures |r| == if |s| >= w then |s| else w
  {
    if |s| >= w then s else Spaces(w - |s|) + s
  }

  /** printf's `%-<w>s`: left-aligned in a field of width `w`, never
      truncated. */
  function PadRight(s: seq<char>, w: nat): (r: seq<char>)
    ensures |r| == if |s| >= w then |s| else w
  {
    if |s| >= w then s else s + Spaces(w - |s|)
  }

  function Pow10(k: nat): nat
  {
    if k == 0 then 1 else 10 * Pow10(k - 1)
  }

  // ---- properties of the digits ------------------------------------------

  /** A number below 10^k takes at most k digits, so a field of width k
      holds it without growing. */
  lemma {:induction false} DigitsFit(m: nat, k: nat)
    requires 1 <= k && m < Pow10(k)
    ensures |Digits(m)| <= k
    decreases k
  {
    if m >= 10 {
      DigitsFit(m / 10, k - 1);
    }
  }

  /** A decimal rendering always ends in a digit. */
  lemma DecimalEndsWithDigit(n: int)
    ensures IsDigit(DecimalText(n)[|DecimalText(n)| - 1])
  {
    var d := if n < 0 then Digits(-n) else Digits(n);
    assert DecimalText(n)[|DecimalText(n)| - 1] == d[|d| - 1];
  }

  /** Reading back the digits of `m` gives `m`. */
  lemma {:induction false} ValueOfDigits(m: nat)
    ensures Value(Digits(m)) == m
    decreases m
  {
    if m >= 10 {
      var d := Digits(m);
      assert d[..|d| - 1] == Digits(m / 10);
      ValueOfDigits(m / 10);
    }
  }

  /** A positive number has as many digits as `ft_itoa`'s counting loop
      finds. */
  lemma {:induction false} DigitsLength(m: nat)
    requires m > 0
    ensures |Digits(m)| == CountDigits(m)
    decreases m
  {
    if m >= 10 {
      DigitsLength(m / 10);
    }
  }

  /** C's truncating division makes the count symmetric in the sign. */
  lemma {:induction false} CountDigitsNeg(n: int)
    ensures CountDigits(n) == CountDigits(-n)
    decreases if n < 0 then -n else n
  {
    if n != 0 {
      CountDigitsNeg(Quot(n, 10));
      assert Quot(-n, 10) == -Quot(n, 10);
    }
  }

  /** The length of the decimal text: one character per digit, plus one for
      the '-' of a negative number or for the single '0' of zero. */
  lemma DecimalLength(n: int)
    ensures |DecimalText(n)| == CountDigits(n) + (if n <= 0 then 1 else 0)
  {
    if n > 0 {
      DigitsLength(n);
    } else if n < 0 {
      DigitsLength(-n);
      CountDigitsNeg(n);
    }
  }

  /** The decimal text has no NUL and is itself an accepted numeral. */
  /** With a NUL after it, the rendering is a C string of its own length. */
  lemma DecimalTerminated(n: int)
    ensures Len(DecimalText(n) + ['\0']) == |DecimalText(n)|
  {
    DecimalIsNumeral(n);
    TextOfTerminated(DecimalText(n), ['\0']);
  }

  lemma DecimalIsNumeral(n: int)
    ensures NoNul(DecimalText(n))
    ensures IsNumeral(DecimalText(n))
  {
    var t := DecimalText(n);
    assert NoNul(t);
    TextOfTerminated(t, []);
    assert t + [] == t;
    if n < 0 {
      assert t[1..] == Digits(-n);
    }
  }

  // ---- properties of ft_atoi ---------------------------------------------

  /** Scanning white space ignores whatever stands before the start. */
  lemma {:induction false} SpacesAfterPrefix(w: seq<char>, t: CString, i: nat)
    requires i <= |t|
    ensures SkipSpaces(w + t, |w| + i) == |w| + SkipSpaces(t, i)
    decreases |t| - i
  {
    assert At(w + t, |w| + i) == At(t, i);
    if i < |t| && IsSpace(t[i]) {
      SpacesAfterPrefix(w, t, i + 1);
    }
  }

  /** Scanning digits ignores whatever stands before the start. */
  lemma {:induction false} DigitsAfterPrefix(w: seq<char>, t: CString, i: nat)
    requires i <= |t|
    ensures SkipDigits(w + t, |w| + i) == |w| + SkipDigits(t, i)
    decreases |t| - i
  {
    assert At(w + t, |w| + i) == At(t, i);
    if i < |t| && IsDigit(t[i]) {
      DigitsAfterPrefix(w, t, i + 1);
    }
  }

  /** A run of white space is passed over whole. */
  lemma {:induction false} SpacesThrough(w: seq<char>, t: CString, i: nat)
    requires i <= |w|
    requires forall k :: 0 <= k < |w| ==> IsSpace(w[k])
    ensures SkipSpaces(w + t, i) == SkipSpaces(w + t, |w|)
    decreases |w| - i
  {
    if i < |w| {
      assert (w + t)[i] == w[i];
      SpacesThrough(w, t, i + 1);
    }
  }

  /** Leading white space (' ' and characters 9 to 13) is skipped. */
  lemma AtoiSkipsSpaces(w: seq<char>, t: CString)
    requires forall i :: 0 <= i < |w| ==> IsSpace(w[i])
    ensures AtoiValue(w + t) == AtoiValue(t)
  {
    var a := SkipSpaces(t, 0);
    assert SkipSpaces(w + t, 0) == |w| + a by {
      SpacesThrough(w, t, 0);
      SpacesAfterPrefix(w, t, 0);
    }
    AtoiAfterPrefix(w, t, a);
  }

  /** Once white space has been skipped up to a point inside `t`, whatever
      stands before `t` no longer matters. */
  lemma AtoiAfterPrefix(w: seq<char>, t: CString, a: nat)
    requires a == SkipSpaces(t, 0) && SkipSpaces(w + t, 0) == |w| + a
    ensures AtoiValue(w + t) == AtoiValue(t)
  {
    var s := w + t;
    var b := SignEnd(t, a);
    assert SignEnd(s, |w| + a) == |w| + b && SignAt(s, |w| + a) == SignAt(t, a) by {
      assert At(s, |w| + a) == At(t, a);
    }
    var e := SkipDigits(t, b);
    assert SkipDigits(s, |w| + b) == |w| + e by {
      DigitsAfterPrefix(w, t, b);
    }
    assert s[|w| + b..|w| + e] == t[b..e];
    AtoiValueIs(s, |w| + a, |w| + b, |w| + e);
    AtoiValueIs(t, a, b, e);
  }

  /** A run of digits is read up to the first character that is not a digit. */
  lemma AtoiStopsAtNonDigit(d: seq<char>, rest: CString)
    requires d != [] && AllDigits(d)
    requires rest == [] || !IsDigit(rest[0])
    ensures AtoiValue(d + rest) == Value(d)
  {
    var s := d + rest;
    SkipSpacesIs(s, 0, 0);
    assert SignEnd(s, 0) == 0;
    SkipDigitsIs(s, 0, |d|);
    assert s[0..|d|] == d;
  }

  /** One sign is consumed, and '-' negates what follows it; a second sign is
      not a digit, so it stops the scan and the result is 0. */
  lemma AtoiSigned(c: char, d: seq<char>, rest: CString)
    requires IsSign(c)
    requires AllDigits(d)
    requires rest == [] || !IsDigit(rest[0])
    ensures AtoiValue([c] + d + rest) == (if c == '-' then -1 else 1) * Value(d)
  {
    var s := [c] + d + rest;
    SkipSpacesIs(s, 0, 0);
    assert SignEnd(s, 0) == 1;
    SkipDigitsIs(s, 1, 1 + |d|);
    assert s[1..1 + |d|] == d;
  }

  /** With no digit after the white space and the optional sign, the result
      is 0. */
  lemma AtoiNoDigits(s: CString)
    requires !IsDigit(At(s, SignEnd(s, SkipSpaces(s, 0))))
    ensures AtoiValue(s) == 0
  {
    var b := SignEnd(s, SkipSpaces(s, 0));
    SkipDigitsIs(s, b, b);
  }

  /** For a string of digits whose value fits in an int, `ft_atoi` returns
      that value. */
  lemma AtoiOfFittingDigits(d: seq<char>, rest: CString)
    requires d != [] && AllDigits(d) && Value(d) <= INT32_MAX
    requires rest == [] || !IsDigit(rest[0])
    ensures AtoiInt(d + rest) == Value(d)
  {
    ValueNonNegative(d);
    AtoiStopsAtNonDigit(d, rest);
  }

  /** Reading an accepted numeral: its sign times the value of its digits. */
  lemma AtoiOfNumeral(s: CString)
    requires IsNumeral(s)
    ensures var t := Text(s);
            var b := if IsSign(t[0]) then 1 else 0;
            AtoiValue(s) == (if t[0] == '-' then -1 else 1) * Value(t[b..])
  {
    var t := Text(s);
    var b := if IsSign(t[0]) then 1 else 0;
    assert s[0] == t[0];
    SkipSpacesIs(s, 0, 0);
    assert SignEnd(s, 0) == b;
    forall x | b <= x < |t| ensures IsDigit(s[x]) {
      assert s[x] == t[b..][x - b];
    }
    SkipDigitsIs(s, b, |t|);
  }

  /** `ft_atoi` reads back what `ft_itoa` writes, whatever follows the
      number as long as it is not a digit. */
  lemma AtoiOfDecimal(n: int, rest: CString)
    requires rest == [] || !IsDigit(rest[0])
    ensures AtoiValue(DecimalText(n) + rest) == n
  {
    if n < 0 {
      ValueOfDigits(-n);
      AtoiSigned('-', Digits(-n), rest);
      assert DecimalText(n) + rest == ['-'] + Digits(-n) + rest;
    } else {
      ValueOfDigits(n);
      AtoiStopsAtNonDigit(Digits(n), rest);
    }
  }

  /** A right-aligned field holding `n` reads back as `n`. */
  lemma AtoiOfPadded(n: int, w: nat, rest: CString)
    requires rest == [] || !IsDigit(rest[0])
    ensures AtoiValue(PadLeft(DecimalText(n), w) + rest) == n
  {
    var d := DecimalText(n);
    var p := PadLeft(d, w);
    var sp := Spaces(|p| - |d|);
    assert p + rest == sp + (d + rest);
    assert forall i :: 0 <= i < |sp| ==> IsSpace(sp[i]);
    AtoiSkipsSpaces(sp, d + rest);
    AtoiOfDecimal(n, rest);
  }
}
