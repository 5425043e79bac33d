/** The text helpers of philo/pl_utils.c and philo_bonus/pl_utils.c, walking
    their C strings index by index as the source advances `str`.
    `Atoi` and `IsDigitStr` are textually the same in both files; `StrLen`,
    `Itoa` and `StrJoin` exist only in the process variant. */
module Utils {
  import opened Machine
  import opened CText

  /** ft_atoi: `num` lives in a 32-bit int, so each `num * 10 + digit` wraps;
      the result is the unbounded reading wrapped once. */
  method Atoi(s: CString) returns (r: Int32)
    ensures r == AtoiInt(s)
  {
    var sign := 1;
    var i := SkipWhite(s);
    var a := i;
    if At(s, i) == '-' || At(s, i) == '+' {
      if At(s, i) == '-' {
        sign := -sign;
      }
      i := i + 1;
    }
    var b := i;
    assert b == SignEnd(s, a) && sign == SignAt(s, a);
    var e, num := ReadDigits(s, b);
    FinishAtoi(s, a, b, e, sign, num);
    r := Wrap32(sign * num);
  }

  /** The white-space loop of ft_atoi: the index of the first character
      that is not white space. */
  method SkipWhite(s: CString) returns (i: nat)
    ensures i == SkipSpaces(s, 0)
  {
    i := 0;
    while IsSpace(At(s, i))
      invariant i <= |s|
      invariant forall k :: 0 <= k < i ==> IsSpace(s[k])
      decreases |s| - i
    {
      i := i + 1;
    }
    SkipSpacesIs(s, 0, i);
  }

  /** The digit loop of ft_atoi: from `b`, reads digits up to the first
      non-digit `e`, accumulating their value in a wrapping 32-bit int. */
  method ReadDigits(s: CString, b: nat) returns (e: nat, num: int)
    requires b <= |s|
    ensures e == SkipDigits(s, b)
    ensures num == Wrap32(Value(s[b..e]))
  {
    e, num := b, 0;
    while IsDigit(At(s, e))
      invariant b <= e <= |s|
      invariant forall k :: b <= k < e ==> IsDigit(s[k])
      invariant num == Wrap32(Value(s[b..e]))
      decreases |s| - e
    {
      AccumulateDigit(s, b, e);
      num := Wrap32(num * 10 + DigitVal(s[e]));
      e := e + 1;
    }
    SkipDigitsIs(s, b, e);
  }

  /** One more digit: the unbounded value grows by `* 10 + digit`, and the
      wrapped value follows it. */
  lemma AccumulateDigit(s: CString, b: nat, i: nat)
    requires b <= i < |s| && forall k :: b <= k <= i ==> IsDigit(s[k])
    ensures Value(s[b..i + 1]) == Value(s[b..i]) * 10 + DigitVal(s[i])
    ensures Wrap32(Wrap32(Value(s[b..i])) * 10 + DigitVal(s[i])) == Wrap32(Value(s[b..i + 1]))
  {
    assert s[b..i + 1][..i - b] == s[b..i];
    WrapMulAdd(Value(s[b..i]), DigitVal(s[i]));
  }

  lemma FinishAtoi(s: CString, a: nat, b: nat, e: nat, sign: int, num: int)
    requires a == SkipSpaces(s, 0) && b == SignEnd(s, a) && e == SkipDigits(s, b)
    requires sign == SignAt(s, a) && num == Wrap32(Value(s[b..e]))
    ensures Wrap32(sign * num) == AtoiInt(s)
  {
    WrapSign(sign, Value(s[b..e]));
  }

  /** The digits of `an` still to be written: none once it has reached 0. */
  ghost function LeadingDigits(an: nat): seq<char>
  {
    if an == 0 then [] else Digits(an)
  }

  /** Writing the last digit of `an` leaves the digits of `an / 10`. */
  lemma PeelDigit(an: nat)
    requires an > 0
    ensures LeadingDigits(an) == LeadingDigits(an / 10) + [DigitChar(an % 10)]
  {
  }

  /** ft_isdigit_str: 1 exactly for an optional single sign followed by one
      or more digits. The source reads its `sign` variable uninitialised on
      the empty string, so the model requires a non-empty one; `sign` starts
      out arbitrary here and the result never depends on that value. */
  method IsDigitStr(s: CString) returns (r: int)
    requires Len(s) > 0
    ensures r == 0 || r == 1
    ensures r == 1 <==> IsNumeral(s)
  {
    var t := Text(s);
    var sign: int := *;
    var i: nat := 0;
    if At(s, 0) == '+' || At(s, 0) == '-' {
      sign := 1;
      i := 1;
    }
    var start := i;
    assert start == if IsSign(t[0]) then 1 else 0;
    while At(s, i) != '\0'
      invariant start <= i <= Len(s)
      invariant forall k :: start <= k < i ==> IsDigit(s[k])
      invariant i > start ==> sign == 0
      invariant i == start && start == 1 ==> sign == 1
      decreases Len(s) - i
    {
      sign := 0;
      if !('0' <= At(s, i) <= '9') {
        assert t[start..][i - start] == s[i];
        return 0;
      }
      i := i + 1;
    }
    if sign == 1 {
      return 0;
    }
    assert forall k :: 0 <= k < |t[start..]| ==> t[start..][k] == s[start + k];
    return 1;
  }

  /** ft_strlen: the number of characters before the first NUL. */
  method StrLen(s: CString) returns (n: nat)
    ensures n == Len(s)
  {
    n := 0;
    while At(s, n) != '\0'
      invariant n <= Len(s)
      decreases Len(s) - n
    {
      n := n + 1;
    }
  }

  /** ft_itoa: counts the characters with C division, then fills a fresh
      buffer from its end. `n` is widened to an unbounded integer before it
      is negated, as the source widens it to `long`, so INT_MIN is
      rendered correctly. */
  method Itoa(n: Int32) returns (r: CString)
    ensures r == DecimalText(n) + ['\0']
    ensures Len(r) == CountDigits(n) + (if n <= 0 then 1 else 0)
  {
    var an: int := n;
    var size := CountChars(n);
    DecimalLength(n);
    var output := new char[size + 1];
    if an < 0 {
      output[0] := '-';
    }
    if an < 0 {
      an := -an;
    }
    ghost var neg := if n < 0 then 1 else 0;
    ghost var sign: seq<char> := if n < 0 then ['-'] else [];
    ghost var d := Digits(an);
    assert |d| + neg == size && DecimalText(n) == sign + d;
    output[size] := '\0';
    if an == 0 {
      output[0] := '0';
      assert output[..] == ['0', '\0'];
    } else {
      ghost var before := output[..];
      assert before[..neg] == sign && before[size..] == ['\0'];
      WriteDigits(output, size - 1, an);
    }
    r := output[..];
    DecimalTerminated(n);
  }

  /** The counting loop of ft_itoa: one character per decimal digit, with
      C's truncating division, plus one for '-' or for the single '0'. */
  method CountChars(n: Int32) returns (i: nat)
    ensures i == CountDigits(n) + (if n <= 0 then 1 else 0)
  {
    i := if n <= 0 then 1 else 0;
    var m: int := n;
    while m != 0
      invariant i + CountDigits(m) == CountDigits(n) + (if n <= 0 then 1 else 0)
      decreases if m < 0 then -m else m
    {
      i := i + 1;
      m := Quot(m, 10);
    }
  }

  /** ft_atoi reads back what ft_itoa writes, for every int, INT_MIN
      included. */
  lemma ItoaRoundTrip(n: Int32)
    ensures AtoiInt(DecimalText(n) + ['\0']) == n
  {
    AtoiOfDecimal(n, ['\0']);
  }

  /** The filling loop of ft_itoa: writes the digits of `an` backwards so
      that the last one lands at index `j`, and touches nothing else. */
  method WriteDigits(output: array<char>, j: int, an: nat)
    requires an > 0 && |Digits(an)| <= j + 1 < output.Length
    modifies output
    ensures output[..] == old(output[..j + 1 - |Digits(an)|]) + Digits(an) + old(output[j + 1..])
  {
    ghost var orig := output[..];
    ghost var done: seq<char> := [];
    var i := j;
    var rest := an;
    while rest != 0
      invariant -1 <= i <= j && |done| == j - i
      invariant i + 1 == |LeadingDigits(rest)| + (j + 1 - |Digits(an)|)
      invariant LeadingDigits(rest) + done == Digits(an)
      invariant output[..] == orig[..i + 1] + done + orig[j + 1..]
    {
      var c := DigitChar(rest % 10);
      PeelStep(rest, done, an);
      ghost var before := output[..];
      output[i] := c;
      WriteStep(orig, done, i, j, c, before, output[..]);
      done := [c] + done;
      i := i - 1;
      rest := rest / 10;
    }
  }

  /** Writing the last digit still to be written moves it from the digits
      of `rest` to the digits written. */
  lemma PeelStep(rest: nat, done: seq<char>, an: nat)
    requires rest > 0 && LeadingDigits(rest) + done == Digits(an)
    ensures LeadingDigits(rest / 10) + ([DigitChar(rest % 10)] + done) == Digits(an)
    ensures |LeadingDigits(rest / 10)| + 1 == |LeadingDigits(rest)|
  {
    PeelDigit(rest);
    assert LeadingDigits(rest / 10) + ([DigitChar(rest % 10)] + done)
        == (LeadingDigits(rest / 10) + [DigitChar(rest % 10)]) + done;
  }

  /** Storing `c` just before the written run extends the run by `c`. */
  lemma WriteStep(orig: seq<char>, done: seq<char>, i: int, j: int, c: char, before: seq<char>, now: seq<char>)
    requires 0 <= i <= j < |orig| && |done| == j - i
    requires before == orig[..i + 1] + done + orig[j + 1..] && now == before[i := c]
    ensures now == orig[..i] + ([c] + done) + orig[j + 1..]
  {
    var after := orig[..i] + ([c] + done) + orig[j + 1..];
    assert |before| == |after|;
    forall k | 0 <= k < |after|
      ensures now[k] == after[k]
    {
      if k < i {
        assert before[k] == orig[k] && after[k] == orig[k];
      }
    }
  }

  /** ft_strjoin: NULL when either argument is NULL, otherwise a fresh
      string holding the text of `s1` followed by the text of `s2`. */
  method StrJoin(s1: Option<CString>, s2: Option<CString>) returns (r: Option<CString>)
    ensures s1.None? || s2.None? ==> r == None
    ensures s1.Some? && s2.Some? ==> r == Some(Text(s1.value) + Text(s2.value) + ['\0'])
    ensures s1.Some? && s2.Some? ==> Len(r.value) == Len(s1.value) + Len(s2.value)
  {
    if s1.None? || s2.None? {
      return None;
    }
    var a, b := s1.value, s2.value;
    var l1 := StrLen(a);
    var l2 := StrLen(b);
    var size := l1 + l2;
    var str := new char[size + 1];
    ghost var blank := str[..];
    var index := CopyText(str, 0, a);
    index := CopyText(str, index, b);
    str[index] := '\0';
    JoinStep(Text(a), Text(b), blank);
    r := Some(str[..]);
    JoinedLen(Text(a), Text(b));
  }

  /** Two texts without NUL, joined and terminated, measure the sum of
      their lengths. */
  lemma JoinedLen(ta: seq<char>, tb: seq<char>)
    requires NoNul(ta) && NoNul(tb)
    ensures Len(ta + tb + ['\0']) == |ta| + |tb|
  {
    assert NoNul(ta + tb) by {
      forall k | 0 <= k < |ta + tb| ensures (ta + tb)[k] != '\0' {
        if k >= |ta| {
          assert (ta + tb)[k] == tb[k - |ta|];
        }
      }
    }
    TextOfTerminated(ta + tb, ['\0']);
  }

  /** The two copies and the final NUL leave exactly the joined text in a
      buffer one longer than both texts. */
  lemma JoinStep(ta: seq<char>, tb: seq<char>, buf: seq<char>)
    requires |buf| == |ta| + |tb| + 1
    ensures var first := [] + ta + buf[|ta|..];
      (first[..|ta|] + tb + first[|ta| + |tb|..])[|ta| + |tb| := '\0'] == ta + tb + ['\0']
  {
    var first := [] + ta + buf[|ta|..];
    assert first[..|ta|] == ta;
    var second := first[..|ta|] + tb + first[|ta| + |tb|..];
    assert |second| == |ta| + |tb| + 1;
    assert second[..|ta| + |tb|] == ta + tb;
  }

  /** One copying loop of ft_strjoin: the characters of `src` before its NUL
      go to `dst` from index `at` on; the rest of `dst` is left alone. */
  method CopyText(dst: array<char>, at: nat, src: CString) returns (index: nat)
    requires at + Len(src) <= dst.Length
    modifies dst
    ensures index == at + Len(src)
    ensures dst[..] == old(dst[..at]) + Text(src) + old(dst[index..])
  {
    ghost var orig := dst[..];
    index := at;
    var j := 0;
    while At(src, j) != '\0'
      invariant j <= Len(src) && index == at + j
      invariant dst[..] == orig[..at] + src[..j] + orig[index..]
      decreases Len(src) - j
    {
      ghost var before := dst[..];
      dst[index] := src[j];
      CopyStep(orig, src, at, j, before, dst[..]);
      index := index + 1;
      j := j + 1;
    }
  }

  /** Copying one more character extends the copied run by it. */
  lemma CopyStep(orig: seq<char>, src: seq<char>, at: nat, j: nat, before: seq<char>, now: seq<char>)
    requires j < |src| && at + j < |orig|
    requires before == orig[..at] + src[..j] + orig[at + j..] && now == before[at + j := src[j]]
    ensures now == orig[..at] + src[..j + 1] + orig[at + j + 1..]
  {
    var after := orig[..at] + src[..j + 1] + orig[at + j + 1..];
    assert |before| == |after|;
    forall k | 0 <= k < |after|
      ensures now[k] == after[k]
    {
      if k < at {
        assert before[k] == orig[k] && after[k] == orig[k];
      } else if k < at + j {
        assert before[k] == src[k - at] && after[k] == src[k - at];
      }
    }
  }
}
