/** The output of philo/pl_msg.c, rendered to strings: the error report of
    `pl_show_error` and the log line of `pl_declare_state`. Colour escapes
    are not part of the text. */
module Messages {
  import opened Machine
  import opened CText
  import opened Types

  const ERROR_PREFIX: string := "[ERROR]: "
  const HELP_HINT: string := "Run `make help` for help.\n"

  /** pl_show_error: nothing for a value outside the enum; otherwise the
      prefix, the message of that error and, unless the error is one of the
      resource errors from CREATE_THD_FAILED on, the help hint. */
  function ShowError(error: int, id: int): (out: string)
    ensures out == [] <==> !(0 <= error < PHILO_ERROR_TOTAL)
    ensures out != [] ==> |out| > |ERROR_PREFIX| && out[..|ERROR_PREFIX|] == ERROR_PREFIX
  {
    if error < 0 || error >= PHILO_ERROR_TOTAL then []
    else
      ERROR_PREFIX + ErrorText(error, id)
      + (if !(error >= PhiloErrorCode(CreateThdFailed) && error < PHILO_ERROR_TOTAL) then HELP_HINT else [])
  }

  /** The message branch of pl_show_error; the thread and mutex messages
      carry the philosopher's number. */
  function ErrorText(error: int, id: int): string
  {
    if error == PhiloErrorCode(InvalidArgsTotal) then "Require at least 4 or 5 arguments!\n\n"
    else if error == PhiloErrorCode(NonNumericArgs) then "Found non numeric arguments!\n\n"
    else if error == PhiloErrorCode(NegativeArgs) then "Found Negative numeric argument!\n\n"
    else if error == PhiloErrorCode(CreateThdFailed) then "Failed to create PHILO " + DecimalText(id) + "\n"
    else if error == PhiloErrorCode(CreateMutFailed) then "Failed to create MUTEX " + DecimalText(id) + "\n"
    else if error == PhiloErrorCode(DestroyMutFailed) then "Failed to destroy MUTEX " + DecimalText(id) + "\n"
    else []
  }

  /** The argument errors are the ones below CREATE_THD_FAILED. */
  predicate IsArgumentError(e: PhiloError)
  {
    e == InvalidArgsTotal || e == NonNumericArgs || e == NegativeArgs
  }

  /** The help hint closes the report exactly for the argument errors. */
  lemma HintExactlyForArgumentErrors(e: PhiloError, id: int)
    ensures EndsWith(ShowError(PhiloErrorCode(e), id), HELP_HINT) <==> IsArgumentError(e)
  {
    var text := ErrorText(PhiloErrorCode(e), id);
    if IsArgumentError(e) {
      EndsWithSuffix(ERROR_PREFIX + text, HELP_HINT);
    } else {
      var d := DecimalText(id);
      assert text == Subject(e) + d + "\n";
      DecimalEndsWithDigit(id);
      NextToLast(ERROR_PREFIX, Subject(e) + d);
      NoHint(ERROR_PREFIX + (Subject(e) + d + "\n") + []);
    }
  }

  /** The fixed text in front of the number in the thread and mutex
      reports. */
  function Subject(e: PhiloError): string
    requires !IsArgumentError(e)
  {
    match e
    case CreateThdFailed => "Failed to create PHILO "
    case CreateMutFailed => "Failed to create MUTEX "
    case DestroyMutFailed => "Failed to destroy MUTEX "
  }

  /** A resource error names the philosopher: the number after its fixed
      text reads back as `id`. */
  lemma ResourceErrorNamesPhilosopher(e: PhiloError, id: int)
    requires !IsArgumentError(e)
    ensures var out := ShowError(PhiloErrorCode(e), id);
      var k := |ERROR_PREFIX + Subject(e)|;
      |out| >= k && out[..k] == ERROR_PREFIX + Subject(e) && AtoiValue(out[k..]) == id
  {
    var d := DecimalText(id);
    assert ErrorText(PhiloErrorCode(e), id) == Subject(e) + d + "\n";
    Regroup(ERROR_PREFIX, Subject(e), d, "\n");
    Split(ERROR_PREFIX + Subject(e), d + "\n");
    AtoiOfDecimal(id, "\n");
  }

  // ---- facts about strings built by concatenation --------------------------

  predicate EndsWith(s: string, t: string)
  {
    |s| >= |t| && s[|s| - |t|..] == t
  }

  lemma EndsWithSuffix(x: string, t: string)
    ensures EndsWith(x + t, t)
  {
    assert (x + t)[|x|..] == t;
  }

  /** Two texts whose next-to-last characters differ do not end one with
      the other. */
  lemma NotEndingWith(out: string, t: string)
    requires |out| >= 2 && |t| >= 2 && out[|out| - 2] != t[|t| - 2]
    ensures !EndsWith(out, t)
  {
    if |out| >= |t| {
      assert out[|out| - |t|..][|t| - 2] == out[|out| - 2];
    }
  }

  /** A text whose next-to-last character is not the hint's full stop does
      not end with the hint. */
  lemma NoHint(out: string)
    requires |out| >= 2 && out[|out| - 2] != '.'
    ensures !EndsWith(out, HELP_HINT)
  {
    assert HELP_HINT[|HELP_HINT| - 2] == '.';
    NotEndingWith(out, HELP_HINT);
  }

  /** Before a closing newline stands the last character of what precedes
      it. */
  lemma NextToLast(p: string, x: string)
    requires x != []
    ensures |p + (x + "\n") + []| >= 2
    ensures (p + (x + "\n") + [])[|p + (x + "\n") + []| - 2] == x[|x| - 1]
  {
  }

  /** The next-to-last character of a text with nothing appended. */
  lemma NextToLastOf(p: string, x: string)
    requires |x| >= 2
    ensures |p + x + []| >= 2 && (p + x + [])[|p + x + []| - 2] == x[|x| - 2]
  {
  }

  lemma Regroup(p: string, s: string, d: string, n: string)
    ensures p + (s + d + n) + [] == (p + s) + (d + n)
  {
  }

  lemma Split(x: string, y: string)
    ensures (x + y)[..|x|] == x && (x + y)[|x|..] == y
  {
  }

  lemma AfterSeparator(x: string, y: string)
    ensures (x + (" " + y))[|x| + 1..] == y
  {
  }

  /** What follows the two number columns of a log line: `%-4s` of "has " or
      "is " (none for DIED), then the verb; DIED is `%8s` of "died". */
  function Phrase(state: PhiloState): string
  {
    (if state == Fork then PadRight("has ", 4)
     else if state != Died then PadRight("is ", 4)
     else [])
    + (if state == Fork then "taken a fork\n"
       else if state == Eat then "eating\n"
       else if state == Sleep then "sleeping\n"
       else if state == Think then "thinking\n"
       else if state == Died then PadLeft("died", 8) + "\n"
       else [])
  }

  /** printf's `"%*d %*d %s"`: two right-aligned numbers in fields of
      widths `wt` and `wn`, then the phrase, single spaces between. */
  function Columns(t: int, wt: nat, n: int, wn: nat, phrase: string): string
  {
    PadLeft(DecimalText(t), wt) + (" " + (PadLeft(DecimalText(n), wn) + (" " + phrase)))
  }

  /** pl_declare_state: nothing without a philosopher; otherwise the time
      since the start in a field of width 6, the philosopher's 1-based
      number in a field of width 3, and the phrase. `now` stands for the
      clock reading. */
  function DeclareState(who: Option<int>, state: PhiloState, now: int, start: int): (line: string)
    ensures line == [] <==> who.None?
  {
    if who.None? then [] else Columns(now - start, 6, who.value + 1, 3, Phrase(state))
  }

  /** The two number columns of a line read back as the numbers they hold,
      whatever their widths: the time from the start of the line, the
      number from just after the first field and its separator. */
  lemma ColumnsReadBack(t: int, wt: nat, n: int, wn: nat, phrase: string)
    ensures |PadLeft(DecimalText(t), wt)| + 1 <= |Columns(t, wt, n, wn, phrase)|
    ensures AtoiValue(Columns(t, wt, n, wn, phrase)) == t
    ensures AtoiValue(Columns(t, wt, n, wn, phrase)[|PadLeft(DecimalText(t), wt)| + 1..]) == n
  {
    var time := PadLeft(DecimalText(t), wt);
    var rest := PadLeft(DecimalText(n), wn) + (" " + phrase);
    assert Columns(t, wt, n, wn, phrase) == time + (" " + rest);
    AfterSeparator(time, rest);
    AtoiOfPadded(t, wt, " " + rest);
    AtoiOfPadded(n, wn, " " + phrase);
  }

  /** Numbers that fit their fields give fixed columns: separators at `wt`
      and `wt + wn + 1`, the phrase after them. */
  lemma ColumnsFixed(t: int, wt: nat, n: int, wn: nat, phrase: string)
    requires 1 <= wt && 0 <= t < Pow10(wt) && 1 <= wn && 0 <= n < Pow10(wn)
    ensures |Columns(t, wt, n, wn, phrase)| == wt + wn + 2 + |phrase|
    ensures Columns(t, wt, n, wn, phrase)[wt] == ' ' && Columns(t, wt, n, wn, phrase)[wt + wn + 1] == ' '
    ensures Columns(t, wt, n, wn, phrase)[wt + wn + 2..] == phrase
  {
    var time := PadLeft(DecimalText(t), wt);
    var num := PadLeft(DecimalText(n), wn);
    assert |time| == wt by {
      DigitsFit(t, wt);
    }
    assert |num| == wn by {
      DigitsFit(n, wn);
    }
    assert Columns(t, wt, n, wn, phrase) == time + (" " + (num + (" " + phrase)));
    ColumnsShape(time, num, phrase);
  }

  /** Where the separators and the phrase stand in two columns joined by
      single spaces. */
  lemma ColumnsShape(time: string, num: string, phrase: string)
    ensures |time + (" " + (num + (" " + phrase)))| == |time| + |num| + 2 + |phrase|
    ensures (time + (" " + (num + (" " + phrase))))[|time|] == ' '
    ensures (time + (" " + (num + (" " + phrase))))[|time| + |num| + 1] == ' '
    ensures (time + (" " + (num + (" " + phrase))))[|time| + |num| + 2..] == phrase
  {
    var line := time + (" " + (num + (" " + phrase)));
    assert line[|time| + |num| + 2..] == phrase;
  }

  /** The log line reads back as the elapsed time and the 1-based number. */
  lemma DeclareReadsBack(id: int, state: PhiloState, now: int, start: int)
    ensures |PadLeft(DecimalText(now - start), 6)| + 1 <= |DeclareState(Some(id), state, now, start)|
    ensures AtoiValue(DeclareState(Some(id), state, now, start)) == now - start
    ensures AtoiValue(DeclareState(Some(id), state, now, start)[|PadLeft(DecimalText(now - start), 6)| + 1..]) == id + 1
  {
    var time := PadLeft(DecimalText(now - start), 6);
    var rest := PadLeft(DecimalText(id + 1), 3) + (" " + Phrase(state));
    assert DeclareState(Some(id), state, now, start) == time + (" " + rest);
    AfterSeparator(time, rest);
    AtoiOfPadded(now - start, 6, " " + rest);
    AtoiOfPadded(id + 1, 3, " " + Phrase(state));
  }

  lemma PaddedWords()
    ensures PadRight("has ", 4) == "has " && PadRight("is ", 4) == "is  "
    ensures PadLeft("died", 8) == "    died"
  {
    assert Spaces(1) == " ";
    assert Spaces(4) == "    ";
  }

  /** The phrase of each state, with its padding worked out. */
  lemma PhraseTable(state: PhiloState)
    ensures Phrase(state) == match state
      case Fork => "has taken a fork\n"
      case Eat => "is  eating\n"
      case Sleep => "is  sleeping\n"
      case Think => "is  thinking\n"
      case Died => "    died\n"
      case _ => "is  "
  {
    PaddedWords();
    match state
    case Fork => assert "has " + "taken a fork\n" == "has taken a fork\n";
    case Eat => assert "is  " + "eating\n" == "is  eating\n";
    case Sleep => assert "is  " + "sleeping\n" == "is  sleeping\n";
    case Think => assert "is  " + "thinking\n" == "is  thinking\n";
    case Died => assert [] + ("    died" + "\n") == "    died\n";
    case _ =>
  }

  /** While the elapsed time has at most six digits and the number at most
      three, the phrase starts at column 11 after separators at 6 and 10. */
  lemma DeclareColumns(id: int, state: PhiloState, now: int, start: int)
    requires 0 <= now - start < Pow10(6) && 0 <= id + 1 < Pow10(3)
    ensures |DeclareState(Some(id), state, now, start)| >= 11
    ensures DeclareState(Some(id), state, now, start)[6] == ' ' && DeclareState(Some(id), state, now, start)[10] == ' '
    ensures DeclareState(Some(id), state, now, start)[11..] == Phrase(state)
  {
    assert DeclareState(Some(id), state, now, start) == Columns(now - start, 6, id + 1, 3, Phrase(state));
    ColumnsFixed(now - start, 6, id + 1, 3, Phrase(state));
  }
}
