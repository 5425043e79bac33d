/** Argument validation and the rules record of philo_bonus/pl_parse.c. It
    differs from the thread variant in rejecting a meal target of 0, in
    reporting through the value pl_show_error returns, and in not setting
    the start time. */
module BonusParse {
  import opened Machine
  import opened CText
  import opened Types
  import opened Utils
  import BonusMessages
  import ThreadParse = Parse

  /** The error pl_check_args reports for argument `i`: non-numeric, then
      negative, then a zero meal target (the fifth argument). */
  function ArgError(i: int, arg: CString): (e: Option<BonusError>)
    ensures e == None <==> IsNumeral(arg) && AtoiInt(arg) >= 0 && !(AtoiInt(arg) == 0 && i == 4)
    ensures e.Some? ==> e.value in {BNonNumericArgs, BNegativeArgs, BInvalidOption}
  {
    if !IsNumeral(arg) then Some(BNonNumericArgs)
    else if AtoiInt(arg) < 0 then Some(BNegativeArgs)
    else if AtoiInt(arg) == 0 && i == 4 then Some(BInvalidOption)
    else None
  }

  /** Index of the first argument with an error, counting from `from`;
      `|args|` when there is none. */
  function FirstBad(args: seq<CString>, from: nat): (k: nat)
    requires from <= |args|
    ensures from <= k <= |args|
    ensures forall j :: from <= j < k ==> ArgError(j, args[j]) == None
    ensures k < |args| ==> ArgError(k, args[k]).Some?
    decreases |args| - from
  {
    if from == |args| then from
    else if ArgError(from, args[from]).Some? then from
    else FirstBad(args, from + 1)
  }

  /** The arguments pl_check_args reads are non-empty (see `Parse.Inspectable`). */
  predicate Inspectable(args: seq<CString>)
  {
    forall i :: 0 <= i < |args| && i <= FirstBad(args, 0) ==> Len(args[i]) > 0
  }

  /** What pl_parse accepts. */
  predicate Accepts(args: seq<CString>)
  {
    (|args| == 4 || |args| == 5) && FirstBad(args, 0) == |args|
  }

  /** pl_check_args: 1 when every argument passes; otherwise the value
      pl_show_error returns for the first failure (0), and its report. */
  method CheckArgs(layout: seq<BonusError>, args: seq<CString>) returns (ok: int, out: string)
    requires ValidLayout(layout) && Inspectable(args)
    ensures ok == 0 || ok == 1
    ensures ok == 1 <==> FirstBad(args, 0) == |args|
    ensures ok == 1 ==> out == []
    ensures ok == 0 ==> out == BonusMessages.ShowError(layout, BonusCode(layout, ArgError(FirstBad(args, 0), args[FirstBad(args, 0)]).value), 0).1
  {
    var i := 0;
    while i < |args|
      invariant i <= FirstBad(args, 0)
      invariant FirstBad(args, i) == FirstBad(args, 0)
    {
      var error := CheckArg(i, args[i]);
      if error.Some? {
        var shown := BonusMessages.ShowError(layout, BonusCode(layout, error.value), 0);
        return shown.0, shown.1;
      }
      i := i + 1;
    }
    return 1, [];
  }

  /** One round of pl_check_args' loop for argument `i`: ft_isdigit_str,
      then the sign of ft_atoi's value, then a zero meal target. */
  method CheckArg(i: int, arg: CString) returns (error: Option<BonusError>)
    requires Len(arg) > 0
    ensures error == ArgError(i, arg)
  {
    var digits := IsDigitStr(arg);
    if digits == 0 {
      return Some(BNonNumericArgs);
    }
    var value := Atoi(arg);
    if value < 0 {
      return Some(BNegativeArgs);
    }
    if value == 0 && i == 4 {
      return Some(BInvalidOption);
    }
    return None;
  }

  /** pl_setup_rules: the four mandatory values in order, the meal target
      or 0, RUN and no philosopher full yet; the start time is left as it
      was. Creating the shared locks can fail (`locksOk` false), which
      prints the mutex report with number -1 and is otherwise ignored. */
  method SetupRules(layout: seq<BonusError>, args: seq<CString>, rules: Rules, locksOk: bool) returns (out: string)
    requires ValidLayout(layout)
    requires |args| == 4 || |args| == 5
    modifies rules
    ensures rules.simState == Run
    ensures rules.philoTotal == AtoiInt(args[0]) && rules.timeToDie == AtoiInt(args[1])
    ensures rules.timeToEat == AtoiInt(args[2]) && rules.timeToSleep == AtoiInt(args[3])
    ensures rules.iteration == if |args| == 5 then AtoiInt(args[4]) else 0
    ensures rules.philoFull == 0 && rules.startTime == old(rules.startTime)
    ensures out == if locksOk then [] else BonusMessages.ShowError(layout, BonusCode(layout, BCreateMutFailed), -1).1
    ensures !locksOk ==> out == BonusMessages.ERROR_PREFIX
  {
    ThreadParse.ReadRules(args, rules);
    rules.philoFull := 0;
    var _, report := SharedLockReport(layout, locksOk);
    out := report;
  }

  /** What pl_lock_setup returns and prints for the shared locks: 1 and
      nothing when they could be created, otherwise what pl_show_error
      returns for CREATE_MUT_FAILED with number -1 (0) and its report, the
      bare prefix. */
  method SharedLockReport(layout: seq<BonusError>, locksOk: bool) returns (r: int, out: string)
    requires ValidLayout(layout)
    ensures r == (if locksOk then 1 else 0)
    ensures out == if locksOk then [] else BonusMessages.ShowError(layout, BonusCode(layout, BCreateMutFailed), -1).1
    ensures !locksOk ==> out == BonusMessages.ERROR_PREFIX
  {
    if locksOk {
      return 1, [];
    }
    BonusMessages.MutexErrorsPrintPrefixOnly(layout, -1);
    var shown := BonusMessages.ShowError(layout, BonusCode(layout, BCreateMutFailed), -1);
    return shown.0, shown.1;
  }

  /** pl_parse: a wrong argument count returns what pl_show_error returns
      (0); the rules are written only once every argument has passed, and
      the result is then 1 even when the shared locks could not be made. */
  method Parse(layout: seq<BonusError>, args: seq<CString>, rules: Rules, locksOk: bool) returns (ret: int, out: string)
    requires ValidLayout(layout)
    requires (|args| == 4 || |args| == 5) ==> Inspectable(args)
    modifies rules
    ensures ret == 0 || ret == 1
    ensures ret == 1 <==> Accepts(args)
    ensures !(|args| == 4 || |args| == 5) ==> out == BonusMessages.ShowError(layout, BonusCode(layout, BInvalidArgsTotal), 0).1
    ensures (|args| == 4 || |args| == 5) && ret == 0 ==>
      FirstBad(args, 0) < |args| && out == BonusMessages.ShowError(layout, BonusCode(layout, ArgError(FirstBad(args, 0), args[FirstBad(args, 0)]).value), 0).1
    ensures ret == 1 ==> out == if locksOk then [] else BonusMessages.ERROR_PREFIX
    ensures ret == 0 ==> unchanged(rules)
    ensures ret == 1 ==> rules.simState == Run && rules.philoFull == 0
    ensures ret == 1 ==> rules.philoTotal == AtoiInt(args[0]) && rules.timeToDie == AtoiInt(args[1])
    ensures ret == 1 ==> rules.timeToEat == AtoiInt(args[2]) && rules.timeToSleep == AtoiInt(args[3])
    ensures ret == 1 ==> rules.iteration == if |args| == 5 then AtoiInt(args[4]) else 0
  {
    if |args| != 4 && |args| != 5 {
      ret, out := BonusMessages.ShowError(layout, BonusCode(layout, BInvalidArgsTotal), 0).0,
                  BonusMessages.ShowError(layout, BonusCode(layout, BInvalidArgsTotal), 0).1;
      return;
    }
    var ok;
    ok, out := CheckArgs(layout, args);
    if ok == 0 {
      return 0, out;
    }
    out := SetupRules(layout, args, rules, locksOk);
    return 1, out;
  }

  /** The wrapped reading of an over-long numeral passes here too, in any
      position: "-3000000000" reads as 1294967296, neither negative nor 0. */
  lemma HugeNegativeAccepted(i: int)
    ensures ArgError(i, "-3000000000") == None
  {
    ThreadParse.HugeNegativeAccepted();
  }

  /** Accepted arguments are four or five numerals with non-negative values,
      and a fifth one is not 0. */
  lemma AcceptsExactly(args: seq<CString>)
    ensures Accepts(args) <==>
      && (|args| == 4 || |args| == 5)
      && (forall i :: 0 <= i < |args| ==> IsNumeral(args[i]) && AtoiInt(args[i]) >= 0)
      && (|args| == 5 ==> AtoiInt(args[4]) > 0)
  {
    if && (|args| == 4 || |args| == 5)
       && (forall i :: 0 <= i < |args| ==> IsNumeral(args[i]) && AtoiInt(args[i]) >= 0)
       && (|args| == 5 ==> AtoiInt(args[4]) > 0)
    {
      var k := FirstBad(args, 0);
      assert k == |args|;
    }
    if Accepts(args) && |args| == 5 {
      assert ArgError(4, args[4]) == None;
    }
  }

  /** The variants agree on every argument list except those whose fifth
      argument is 0: the thread variant accepts those, this one does not. */
  lemma DiffersFromThreadVariantOnlyOnZeroTarget(args: seq<CString>)
    ensures Accepts(args) ==> ThreadParse.Accepts(args)
    ensures ThreadParse.Accepts(args) && !Accepts(args) ==> |args| == 5 && AtoiInt(args[4]) == 0
  {
    AcceptsExactly(args);
    ThreadParse.AcceptsExactly(args);
  }
}
