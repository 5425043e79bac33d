/** The enums and records of philo/philo.h and philo_bonus/philo_bonus.h.
    Both variants share one state type; the thread variant's `t_state` simply
    lacks `HALT`. The structs become classes because the monitor and the
    setup code update their fields in place. Mutexes, semaphores and the
    thread handle are not part of this model. */
module Types {
  import opened Machine

  /** `t_state`: a philosopher's action, its fullness, or the simulation's
      state. `Halt` exists only in the process variant. */
  datatype State = Fork | Eat | Sleep | Think | Died | NotFull | Full | Halt | Run | End

  /** The thread variant's `t_state`, which has no `HALT`. */
  type PhiloState = s: State | s != Halt witness Fork

  /** The numeric values the `full` field holds: `NOTFULL` and `FULL` stand
      at positions 5 and 6 of `t_state` in both variants. */
  const NOTFULL: int := 5
  const FULL: int := 6

  /** Position of a state in the thread variant's `t_state`. */
  function PhiloStateCode(s: PhiloState): (c: int)
    ensures 0 <= c < 9
  {
    match s
    case Fork => 0
    case Eat => 1
    case Sleep => 2
    case Think => 3
    case Died => 4
    case NotFull => 5
    case Full => 6
    case Run => 7
    case End => 8
  }

  /** Position of a state in the process variant's `t_state`. */
  function BonusStateCode(s: State): (c: int)
    ensures 0 <= c < 10
  {
    match s
    case Fork => 0
    case Eat => 1
    case Sleep => 2
    case Think => 3
    case Died => 4
    case NotFull => 5
    case Full => 6
    case Halt => 7
    case Run => 8
    case End => 9
  }

  /** The two enums agree up to `FULL`, which is why `NOTFULL` and `FULL`
      have one value each; from `RUN` on the process variant is one higher. */
  lemma StateCodesAgree(s: PhiloState)
    ensures PhiloStateCode(s) <= 6 ==> BonusStateCode(s) == PhiloStateCode(s)
    ensures PhiloStateCode(s) > 6 ==> BonusStateCode(s) == PhiloStateCode(s) + 1
    ensures PhiloStateCode(s) == NOTFULL <==> s == NotFull
    ensures PhiloStateCode(s) == FULL <==> s == Full
  {
  }

  /** The thread variant's `t_error`, without its `ERROR_TOTAL` sentinel. */
  datatype PhiloError =
    | InvalidArgsTotal
    | NonNumericArgs
    | NegativeArgs
    | CreateThdFailed
    | CreateMutFailed
    | DestroyMutFailed

  /** `ERROR_TOTAL` of the thread variant. */
  const PHILO_ERROR_TOTAL: int := 6

  function PhiloErrorCode(e: PhiloError): (c: int)
    ensures 0 <= c < PHILO_ERROR_TOTAL
  {
    match e
    case InvalidArgsTotal => 0
    case NonNumericArgs => 1
    case NegativeArgs => 2
    case CreateThdFailed => 3
    case CreateMutFailed => 4
    case DestroyMutFailed => 5
  }

  /** The enumerator with a given value, if there is one. */
  function PhiloErrorOf(c: int): (e: Option<PhiloError>)
    ensures e.Some? <==> 0 <= c < PHILO_ERROR_TOTAL
    ensures e.Some? ==> PhiloErrorCode(e.value) == c
  {
    if c == 0 then Some(InvalidArgsTotal)
    else if c == 1 then Some(NonNumericArgs)
    else if c == 2 then Some(NegativeArgs)
    else if c == 3 then Some(CreateThdFailed)
    else if c == 4 then Some(CreateMutFailed)
    else if c == 5 then Some(DestroyMutFailed)
    else None
  }

  /** Every enumerator has its own value. */
  lemma PhiloErrorCodeInjective(e: PhiloError)
    ensures PhiloErrorOf(PhiloErrorCode(e)) == Some(e)
  {
  }

  /** The process variant's error names: the seven enumerators its header
      declares, plus `OpenSemFailed` and `ForkFailed`, which its code uses
      without the header declaring them. */
  datatype BonusError =
    | BInvalidArgsTotal
    | BNonNumericArgs
    | BNegativeArgs
    | BInvalidOption
    | BCreateThdFailed
    | BCreateMutFailed
    | BDestroyMutFailed
    | BOpenSemFailed
    | BForkFailed

  /** Rank of a declared name in the header's enum, -1 for the two names the
      header does not declare. */
  function HeaderRank(e: BonusError): int
  {
    match e
    case BInvalidArgsTotal => 0
    case BNonNumericArgs => 1
    case BNegativeArgs => 2
    case BInvalidOption => 3
    case BCreateThdFailed => 4
    case BCreateMutFailed => 5
    case BDestroyMutFailed => 6
    case BOpenSemFailed => -1
    case BForkFailed => -1
  }

  /** A possible enum the process variant was compiled with: nine slots (the
      value of a name is its slot) holding every name, the declared ones in
      the header's order. `ERROR_TOTAL` follows them. */
  predicate ValidLayout(layout: seq<BonusError>)
  {
    && |layout| == 9
    && (forall e: BonusError :: e in layout)
    && (forall i, j :: 0 <= i < j < |layout| && HeaderRank(layout[i]) >= 0 && HeaderRank(layout[j]) >= 0
          ==> HeaderRank(layout[i]) < HeaderRank(layout[j]))
  }

  /** The layout that appends the two undeclared names after the declared
      ones. */
  const AppendedLayout: seq<BonusError> := [
    BInvalidArgsTotal, BNonNumericArgs, BNegativeArgs, BInvalidOption,
    BCreateThdFailed, BCreateMutFailed, BDestroyMutFailed,
    BOpenSemFailed, BForkFailed]

  /** Appending the undeclared names is one of the possible enums, so the
      layout-dependent contracts of the process variant can all be met. */
  lemma AppendedLayoutValid()
    ensures ValidLayout(AppendedLayout)
  {
    forall e: BonusError ensures e in AppendedLayout {
      match e
      case BInvalidArgsTotal => assert AppendedLayout[0] == e;
      case BNonNumericArgs => assert AppendedLayout[1] == e;
      case BNegativeArgs => assert AppendedLayout[2] == e;
      case BInvalidOption => assert AppendedLayout[3] == e;
      case BCreateThdFailed => assert AppendedLayout[4] == e;
      case BCreateMutFailed => assert AppendedLayout[5] == e;
      case BDestroyMutFailed => assert AppendedLayout[6] == e;
      case BOpenSemFailed => assert AppendedLayout[7] == e;
      case BForkFailed => assert AppendedLayout[8] == e;
    }
    forall i | 0 <= i < |AppendedLayout|
      ensures HeaderRank(AppendedLayout[i]) == if i < 7 then i else -1
    {
    }
  }

  /** The value of a name under a layout: its first slot. */
  function BonusCode(layout: seq<BonusError>, e: BonusError): (c: int)
    requires e in layout
    ensures 0 <= c < |layout| && layout[c] == e
    ensures forall k :: 0 <= k < c ==> layout[k] != e
  {
    if layout[0] == e then 0 else 1 + BonusCode(layout[1..], e)
  }

  /** Under a valid layout every name has its own value, and the declared
      names keep the header's relative order. */
  lemma BonusCodeOrder(layout: seq<BonusError>, e1: BonusError, e2: BonusError)
    requires ValidLayout(layout)
    requires 0 <= HeaderRank(e1) < HeaderRank(e2)
    ensures BonusCode(layout, e1) < BonusCode(layout, e2)
  {
  }

  /** `ERROR_TOTAL` of the process variant: one past the last name. */
  const BONUS_ERROR_TOTAL: int := 9

  /** `t_rules`: the simulation parameters and shared counters. `main` never
      initialises the struct, so a fresh one holds whatever it is given. */
  class Rules {
    var simState: State
    var startTime: int
    var philoTotal: int
    var timeToDie: int
    var timeToEat: int
    var timeToSleep: int
    var iteration: int
    var philoFull: int

    constructor (simState: State, startTime: int, philoTotal: int, timeToDie: int,
                 timeToEat: int, timeToSleep: int, iteration: int, philoFull: int)
      ensures this.simState == simState && this.startTime == startTime
      ensures this.philoTotal == philoTotal && this.timeToDie == timeToDie
      ensures this.timeToEat == timeToEat && this.timeToSleep == timeToSleep
      ensures this.iteration == iteration && this.philoFull == philoFull
    {
      this.simState := simState;
      this.startTime := startTime;
      this.philoTotal := philoTotal;
      this.timeToDie := timeToDie;
      this.timeToEat := timeToEat;
      this.timeToSleep := timeToSleep;
      this.iteration := iteration;
      this.philoFull := philoFull;
    }
  }

  /** `t_philo`: one philosopher. The fork addresses are kept as indices into
      the fork array; `full` holds `NOTFULL` or `FULL` once initialised. */
  class Philosopher {
    var id: int
    var mealCount: int
    var full: int
    var lastAte: int
    var leftFork: int
    var rightFork: int
    var rules: Rules

    constructor (rules: Rules)
      ensures this.rules == rules
    {
      this.rules := rules;
    }
  }
}
