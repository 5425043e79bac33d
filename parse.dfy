/** Argument validation and the rules record of philo/pl_parse.c. The
    arguments are the program's arguments without its name, one C string
    each. */
module Parse {
  import opened Machine
  import opened CText
  import opened Types
  import opened Utils
  import Messages

  /** The error pl_check_args reports for one argument: non-numeric is
      checked before negative. */
  function ArgError(arg: CString): (e: Option<PhiloError>)
    ensures e == None <==> IsNumeral(arg) && AtoiInt(arg) >= 0
    ensures e.Some? ==> e.value == NonNumericArgs || e.value == NegativeArgs
  {
    if !IsNumeral(arg) then Some(NonNumericArgs)
    else if AtoiInt(arg) < 0 then Some(NegativeArgs)
    else None
  }

  /** Index of the first argument with an error, `|args|` when there is
      none. */
  function FirstBad(args: seq<CString>): (k: nat)
    ensures k <= |args|
    ensures forall j :: 0 <= j < k ==> ArgError(args[j]) == None
    ensures k < |args| ==> ArgError(args[k]).Some?
  {
    if args == [] then 0
    else if ArgError(args[0]).Some? then 0
    else 1 + FirstBad(args[1..])
  }

  /** The arguments pl_check_args reads are non-empty: the source's
      ft_isdigit_str reads an uninitialised variable on "". Arguments after
      the first bad one are never read. */
  predicate Inspectable(args: seq<CString>)
  {
    forall i :: 0 <= i < |args| && i <= FirstBad(args) ==> Len(args[i]) > 0
  }

  /** What pl_parse accepts. */
  predicate Accepts(args: seq<CString>)
  {
    (|args| == 4 || |args| == 5) && FirstBad(args) == |args|
  }

  /** pl_check_args: 1 when every argument is a numeral with a non-negative
      value; otherwise 0, and the report of the first bad argument. */
  method CheckArgs(args: seq<CString>) returns (ok: int, out: string)
    requires Inspectable(args)
    ensures ok == 0 || ok == 1
    ensures ok == 1 <==> FirstBad(args) == |args|
    ensures ok == 1 ==> out == []
    ensures ok == 0 ==> out == Messages.ShowError(PhiloErrorCode(ArgError(args[FirstBad(args)]).value), 0)
  {
    var i := 0;
    while i < |args|
      invariant i <= FirstBad(args)
    {
      var error := CheckArg(args[i]);
      FirstBadStep(args, i);
      if error.Some? {
        return 0, Messages.ShowError(PhiloErrorCode(error.value), 0);
      }
      i := i + 1;
    }
    return 1, [];
  }

  /** Scanning on from a position no later than the first bad argument: the
      argument there is either that bad argument or a good one before it. */
  lemma FirstBadStep(args: seq<CString>, i: int)
    requires 0 <= i < |args| && i <= FirstBad(args)
    ensures ArgError(args[i]).Some? ==> FirstBad(args) == i
    ensures ArgError(args[i]).None? ==> i + 1 <= FirstBad(args)
  {
  }

  /** One round of pl_check_args' loop: ft_isdigit_str first, then the sign
      of ft_atoi's value. */
  method CheckArg(arg: CString) returns (error: Option<PhiloError>)
    requires Len(arg) > 0
    ensures error == ArgError(arg)
  {
    var digits := IsDigitStr(arg);
    if digits == 0 {
      return Some(NonNumericArgs);
    }
    var value := Atoi(arg);
    if value < 0 {
      return Some(NegativeArgs);
    }
    return None;
  }

  /** pl_setup_rules: the four mandatory values in order, the meal target
      when there is a fifth argument (0 otherwise), the start time, RUN and
      no philosopher full yet. */
  method SetupRules(args: seq<CString>, rules: Rules, now: int)
    requires |args| == 4 || |args| == 5
    modifies rules
    ensures rules.simState == Run
    ensures rules.philoTotal == AtoiInt(args[0]) && rules.timeToDie == AtoiInt(args[1])
    ensures rules.timeToEat == AtoiInt(args[2]) && rules.timeToSleep == AtoiInt(args[3])
    ensures rules.iteration == if |args| == 5 then AtoiInt(args[4]) else 0
    ensures rules.startTime == now && rules.philoFull == 0
  {
    ReadRules(args, rules);
    rules.startTime := now;
    rules.philoFull := 0;
  }

  /** The opening of pl_setup_rules, the same in both variants: RUN, then
      the arguments in order, the meal target being 0 without a fifth one.
      The start time and the counter of full philosophers are untouched. */
  method ReadRules(args: seq<CString>, rules: Rules)
    requires |args| == 4 || |args| == 5
    modifies rules`simState, rules`philoTotal, rules`timeToDie, rules`timeToEat, rules`timeToSleep, rules`iteration
    ensures rules.simState == Run
    ensures rules.philoTotal == AtoiInt(args[0]) && rules.timeToDie == AtoiInt(args[1])
    ensures rules.timeToEat == AtoiInt(args[2]) && rules.timeToSleep == AtoiInt(args[3])
    ensures rules.iteration == if |args| == 5 then AtoiInt(args[4]) else 0
  {
    rules.simState := Run;
    var total := Atoi(args[0]);
    var die := Atoi(args[1]);
    var eat := Atoi(args[2]);
    var sleep := Atoi(args[3]);
    var target := 0;
    if |args| == 5 {
      target := Atoi(args[4]);
    }
    rules.philoTotal, rules.timeToDie, rules.timeToEat, rules.timeToSleep := total, die, eat, sleep;
    rules.iteration := target;
  }

  /** pl_parse: the argument count is checked before any argument; the rules
      are written only once every argument has passed. `now` stands for the
      clock reading that becomes the start time. */
  method Parse(args: seq<CString>, rules: Rules, now: int) returns (ret: int, out: string)
    requires (|args| == 4 || |args| == 5) ==> Inspectable(args)
    modifies rules
    ensures ret == 0 || ret == 1
    ensures ret == 1 <==> Accepts(args)
    ensures !(|args| == 4 || |args| == 5) ==> out == Messages.ShowError(PhiloErrorCode(InvalidArgsTotal), 0)
    ensures (|args| == 4 || |args| == 5) && ret == 0 ==>
      FirstBad(args) < |args| && out == Messages.ShowError(PhiloErrorCode(ArgError(args[FirstBad(args)]).value), 0)
    ensures ret == 0 ==> unchanged(rules)
    ensures ret == 1 ==> out == [] && rules.simState == Run && rules.philoFull == 0 && rules.startTime == now
    ensures ret == 1 ==> rules.philoTotal == AtoiInt(args[0]) && rules.timeToDie == AtoiInt(args[1])
    ensures ret == 1 ==> rules.timeToEat == AtoiInt(args[2]) && rules.timeToSleep == AtoiInt(args[3])
    ensures ret == 1 ==> rules.iteration == if |args| == 5 then AtoiInt(args[4]) else 0
  {
    if |args| != 4 && |args| != 5 {
      return 0, Messages.ShowError(PhiloErrorCode(InvalidArgsTotal), 0);
    }
    var ok;
    ok, out := CheckArgs(args);
    if ok == 0 {
      return 0, out;
    }
    SetupRules(args, rules, now);
    return 1, out;
  }

  /** Accepted arguments are exactly four or five numerals with
      non-negative values. */
  lemma AcceptsExactly(args: seq<CString>)
    ensures Accepts(args) <==>
      (|args| == 4 || |args| == 5) && forall i :: 0 <= i < |args| ==> IsNumeral(args[i]) && AtoiInt(args[i]) >= 0
  {
    if (|args| == 4 || |args| == 5) && forall i :: 0 <= i < |args| ==> IsNumeral(args[i]) && AtoiInt(args[i]) >= 0 {
      var k := FirstBad(args);
      assert k == |args|;
    }
  }

  /** Every accepted value is the plain decimal value of its argument: the
      text after an optional sign is all digits, and its value fits an int. */
  lemma AcceptedValues(args: seq<CString>, i: int)
    requires Accepts(args) && 0 <= i < |args|
    ensures var t := Text(args[i]);
      var b := if IsSign(t[0]) then 1 else 0;
      0 <= AtoiInt(args[i]) && (Value(t[b..]) <= INT32_MAX ==> AtoiInt(args[i]) == (if t[0] == '-' then -1 else 1) * Value(t[b..]))
  {
    assert ArgError(args[i]) == None;
    AtoiOfNumeral(args[i]);
    var t := Text(args[i]);
    ValueNonNegative(t[if IsSign(t[0]) then 1 else 0..]);
  }

  /** "-0" passes: it is a numeral whose value is 0. */
  lemma MinusZeroAccepted()
    ensures ArgError("-0") == None
  {
    var t := "-0";
    assert Text(t) == t by {
      TextOfTerminated(t, []);
    }
    assert t[1..] == "0";
    assert IsNumeral(t);
    AtoiOfNumeral(t);
  }

  /** A numeral too large for an `int` is read modulo 2^32 by the model's
      wrapping machine, so its sign can flip and it can pass:
      "-3000000000" reads as 1294967296. */
  lemma HugeNegativeAccepted()
    ensures AtoiInt("-3000000000") == 1294967296
    ensures ArgError("-3000000000") == None
  {
    HugeNegativeValue("-3000000000");
    WrapCongruent(-3000000000, 1294967296, -1);
  }

  /** "-3000000000" is a numeral whose mathematical value is -3000000000. */
  lemma HugeNegativeValue(t: CString)
    requires t == "-3000000000"
    ensures IsNumeral(t) && AtoiValue(t) == -3000000000
  {
    assert Text(t) == t by {
      TextOfTerminated(t, []);
    }
    var d := t[1..];
    assert d == "3000000000" && t[0] == '-' && IsSign(t[0]);
    assert AllDigits(d);
    AtoiOfNumeral(t);
    ThreeBillion(d);
  }

  lemma ThreeBillion(d: seq<char>)
    requires d == "3000000000"
    ensures Value(d) == 3000000000
  {
    assert d[..1][..0] == [];
    assert Value(d[..1]) == 3;
    assert d[..2][..1] == d[..1];
    assert Value(d[..2]) == 30;
    assert d[..3][..2] == d[..2];
    assert Value(d[..3]) == 300;
    assert d[..4][..3] == d[..3];
    assert Value(d[..4]) == 3000;
    assert d[..5][..4] == d[..4];
    assert Value(d[..5]) == 30000;
    assert d[..6][..5] == d[..5];
    assert Value(d[..6]) == 300000;
    assert d[..7][..6] == d[..6];
    assert Value(d[..7]) == 3000000;
    assert d[..8][..7] == d[..7];
    assert Value(d[..8]) == 30000000;
    assert d[..9][..8] == d[..8];
    assert Value(d[..9]) == 300000000;
    assert d[..10][..9] == d[..9];
    assert Value(d[..10]) == 3000000000;
    assert d[..10] == d;
  }

  /** Zero is accepted in every position, the meal target included. */
  lemma ZerosAccepted()
    ensures Accepts(["0", "0", "0", "0", "0"])
  {
    var z := "0";
    assert Text(z) == z by {
      TextOfTerminated(z, []);
    }
    assert IsNumeral(z);
    AtoiOfNumeral(z);
    var args := [z, z, z, z, z];
    assert forall i :: 0 <= i < 5 ==> args[i] == z;
  }
}
