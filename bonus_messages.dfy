/** The output of philo_bonus/pl_msg.c, rendered to strings. The values of
    the error enum come from a layout (see `Types.ValidLayout`), because the
    header the file is compiled against does not declare two of the names it
    uses. */
module BonusMessages {
  import opened Machine
  import opened CText
  import opened Types
  import Messages

  const ERROR_PREFIX: string := "[ERROR]: "
  const HELP_HINT: string := Messages.HELP_HINT

  /** pl_show_error: returns 1 and prints nothing for a value outside the
      enum; otherwise returns 0 and prints the prefix, the message branch and,
      below CREATE_THD_FAILED, the help hint. */
  function ShowError(layout: seq<BonusError>, error: int, id: int): (r: (int, string))
    requires ValidLayout(layout)
    ensures r.0 == 1 <==> !(0 <= error < BONUS_ERROR_TOTAL)
    ensures r.0 == 0 <==> 0 <= error < BONUS_ERROR_TOTAL
    ensures r.0 == 1 ==> r.1 == []
    ensures r.0 == 0 ==> |r.1| >= |ERROR_PREFIX| && r.1[..|ERROR_PREFIX|] == ERROR_PREFIX
  {
    if error < 0 || error >= BONUS_ERROR_TOTAL then (1, [])
    else
      (0, ERROR_PREFIX + ErrorText(layout, error, id)
          + (if !(error >= BonusCode(layout, BCreateThdFailed) && error < BONUS_ERROR_TOTAL) then HELP_HINT else []))
  }

  /** The message branch, chosen by the name whose value `error` is (the
      name in that slot of the layout): the two mutex errors have none. */
  function ErrorText(layout: seq<BonusError>, error: int, id: int): string
    requires ValidLayout(layout) && 0 <= error < BONUS_ERROR_TOTAL
  {
    match layout[error]
    case BInvalidArgsTotal => "Require at least 4 or 5 arguments!\n\n"
    case BNonNumericArgs => "Found non numeric arguments!\n\n"
    case BNegativeArgs => "Found Negative numeric argument!\n\n"
    case BInvalidOption => "Optional argument should more than 0!\n\n"
    case BCreateThdFailed => "Failed to create PHILO " + DecimalText(id) + "\n"
    case BOpenSemFailed => "Failed to open SEMAPHORE\n"
    case BForkFailed => "Failed to FORK child!\n"
    case BCreateMutFailed => []
    case BDestroyMutFailed => []
  }

  /** The argument errors: the declared names before CREATE_THD_FAILED. */
  predicate IsArgumentError(e: BonusError)
  {
    e == BInvalidArgsTotal || e == BNonNumericArgs || e == BNegativeArgs || e == BInvalidOption
  }

  /** Under every layout the argument errors close with the help hint. */
  lemma ArgumentErrorsGetHint(layout: seq<BonusError>, e: BonusError, id: int)
    requires ValidLayout(layout) && IsArgumentError(e)
    ensures Messages.EndsWith(ShowError(layout, BonusCode(layout, e), id).1, HELP_HINT)
  {
    BonusCodeOrder(layout, e, BCreateThdFailed);
    var c := BonusCode(layout, e);
    Messages.EndsWithSuffix(ERROR_PREFIX + ErrorText(layout, c, id), HELP_HINT);
  }

  /** The thread error names the philosopher and carries no hint. */
  lemma ThreadErrorHasNoHint(layout: seq<BonusError>, id: int)
    requires ValidLayout(layout)
    ensures var out := ShowError(layout, BonusCode(layout, BCreateThdFailed), id).1;
      && !Messages.EndsWith(out, HELP_HINT)
      && AtoiValue(out[|ERROR_PREFIX + "Failed to create PHILO "|..]) == id
  {
    var c := BonusCode(layout, BCreateThdFailed);
    var d := DecimalText(id);
    var subject := "Failed to create PHILO ";
    assert ErrorText(layout, c, id) == subject + d + "\n";
    Messages.Regroup(ERROR_PREFIX, subject, d, "\n");
    Messages.Split(ERROR_PREFIX + subject, d + "\n");
    AtoiOfDecimal(id, "\n");
    DecimalEndsWithDigit(id);
    Messages.NextToLast(ERROR_PREFIX, subject + d);
    Messages.NoHint(ERROR_PREFIX + (subject + d + "\n") + []);
  }

  /** For the two names the header does not declare, the hint appears
      exactly when the layout places them before CREATE_THD_FAILED. */
  lemma UndeclaredErrorsHint(layout: seq<BonusError>, e: BonusError, id: int)
    requires ValidLayout(layout) && (e == BOpenSemFailed || e == BForkFailed)
    ensures Messages.EndsWith(ShowError(layout, BonusCode(layout, e), id).1, HELP_HINT)
      <==> BonusCode(layout, e) < BonusCode(layout, BCreateThdFailed)
  {
    var c := BonusCode(layout, e);
    if c < BonusCode(layout, BCreateThdFailed) {
      HintBefore(layout, c, id);
    } else {
      var text := if e == BOpenSemFailed then "Failed to open SEMAPHORE\n" else "Failed to FORK child!\n";
      assert ErrorText(layout, c, id) == text;
      NoHintFrom(layout, c, id);
      Messages.NextToLastOf(ERROR_PREFIX, text);
      Messages.NoHint(ERROR_PREFIX + text + []);
    }
  }

  /** Below CREATE_THD_FAILED the report closes with the hint. */
  lemma HintBefore(layout: seq<BonusError>, c: int, id: int)
    requires ValidLayout(layout) && 0 <= c < BonusCode(layout, BCreateThdFailed)
    ensures Messages.EndsWith(ShowError(layout, c, id).1, HELP_HINT)
  {
    Messages.EndsWithSuffix(ERROR_PREFIX + ErrorText(layout, c, id), HELP_HINT);
  }

  /** From CREATE_THD_FAILED on the report is the prefix and the message
      branch, nothing after. */
  lemma NoHintFrom(layout: seq<BonusError>, c: int, id: int)
    requires ValidLayout(layout) && BonusCode(layout, BCreateThdFailed) <= c < BONUS_ERROR_TOTAL
    ensures ShowError(layout, c, id).1 == ERROR_PREFIX + ErrorText(layout, c, id) + []
  {
  }

  /** CREATE_MUT_FAILED and DESTROY_MUT_FAILED print the bare prefix. */
  lemma MutexErrorsPrintPrefixOnly(layout: seq<BonusError>, id: int)
    requires ValidLayout(layout)
    ensures ShowError(layout, BonusCode(layout, BCreateMutFailed), id) == (0, ERROR_PREFIX)
    ensures ShowError(layout, BonusCode(layout, BDestroyMutFailed), id) == (0, ERROR_PREFIX)
  {
    MutexReport(layout, BCreateMutFailed, id);
    MutexReport(layout, BDestroyMutFailed, id);
  }

  /** A mutex error has no message branch and comes after
      CREATE_THD_FAILED, so no hint either. */
  lemma MutexReport(layout: seq<BonusError>, e: BonusError, id: int)
    requires ValidLayout(layout) && (e == BCreateMutFailed || e == BDestroyMutFailed)
    ensures ShowError(layout, BonusCode(layout, e), id) == (0, ERROR_PREFIX)
  {
    BonusCodeOrder(layout, BCreateThdFailed, e);
    assert ErrorText(layout, BonusCode(layout, e), id) == [];
    assert ERROR_PREFIX + [] + [] == ERROR_PREFIX;
  }

  /** The phrase after the two number columns. */
  function Phrase(state: State): string
  {
    if state == Fork then "has taken a fork\n"
    else if state == Eat then "is eating\n"
    else if state == Sleep then "is sleeping\n"
    else if state == Think then "is thinking\n"
    else if state == Died then "died\n"
    else []
  }

  /** pl_declare_state: nothing without a philosopher or once the simulation
      has ended (DIED included); otherwise the elapsed time in a field of
      width 8, the 1-based number in a field of width 3, and the phrase.
      `simState` is the simulation state the call reads. */
  function DeclareState(who: Option<int>, state: State, now: int, start: int, simState: State): (line: string)
    ensures line == [] <==> who.None? || simState == End
  {
    if who.None? || simState == End then []
    else Messages.Columns(now - start, 8, who.value + 1, 3, Phrase(state))
  }

  /** The two number columns read back as the elapsed time and the 1-based
      number. */
  lemma DeclareReadsBack(id: int, state: State, now: int, start: int, simState: State)
    requires simState != End
    ensures |PadLeft(DecimalText(now - start), 8)| + 1 <= |DeclareState(Some(id), state, now, start, simState)|
    ensures AtoiValue(DeclareState(Some(id), state, now, start, simState)) == now - start
    ensures AtoiValue(DeclareState(Some(id), state, now, start, simState)[|PadLeft(DecimalText(now - start), 8)| + 1..]) == id + 1
  {
    var time := PadLeft(DecimalText(now - start), 8);
    var rest := PadLeft(DecimalText(id + 1), 3) + (" " + Phrase(state));
    assert DeclareState(Some(id), state, now, start, simState) == time + (" " + rest);
    Messages.AfterSeparator(time, rest);
    AtoiOfPadded(now - start, 8, " " + rest);
    AtoiOfPadded(id + 1, 3, " " + Phrase(state));
  }

  /** While the elapsed time has at most eight digits and the number at most
      three, the phrase starts at column 13; the states without a phrase
      leave only the two columns. */
  lemma DeclareColumns(id: int, state: State, now: int, start: int, simState: State)
    requires simState != End
    requires 0 <= now - start < Pow10(8) && 0 <= id + 1 < Pow10(3)
    ensures |DeclareState(Some(id), state, now, start, simState)| >= 13
    ensures DeclareState(Some(id), state, now, start, simState)[8] == ' '
    ensures DeclareState(Some(id), state, now, start, simState)[12] == ' '
    ensures DeclareState(Some(id), state, now, start, simState)[13..] == Phrase(state)
    ensures state !in {Fork, Eat, Sleep, Think, Died} ==> |DeclareState(Some(id), state, now, start, simState)| == 13
  {
    assert DeclareState(Some(id), state, now, start, simState) == Messages.Columns(now - start, 8, id + 1, 3, Phrase(state));
    Messages.ColumnsFixed(now - start, 8, id + 1, 3, Phrase(state));
  }
}
