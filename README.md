# Dining philosophers: the sequential core, modelled in Dafny

The repository simulates the dining-philosophers problem in C, in two
variants:

- `philo/` runs one thread per philosopher, with a mutex per fork.
- `philo_bonus/` runs one process per philosopher, with semaphores.

Both variants share the same machinery around the concurrency:

- reading the command line (`ft_atoi`, `ft_isdigit_str`, `pl_check_args`,
  `pl_setup_rules`, `pl_parse`);
- turning numbers into text (`ft_strlen`, `ft_itoa`, `ft_strjoin`);
- seating philosophers between forks (`pl_philo_init`);
- the monitor's decisions (`pl_check_dead`, `pl_full_tracker`, `pl_monitor`);
- rendering log and error lines (`pl_declare_state`, `pl_show_error`).

This project models that machinery and proves what it does.

Modules, one concern each:

- `Machine`: C's 32-bit `int`, truncating division and an `Option` type.
  Signed overflow is undefined behaviour in C; the model assumes the
  two's-complement wrap-around that common compilers produce.
- `CText`: C strings as character sequences. Everything after the first NUL
  is ignored. The module also holds specification functions for the numeric
  text helpers and the lemmas about them: white space skipping, the single
  sign, stopping at the first non-digit, decimal rendering and the round
  trip.
- `Utils`: the loops of `ft_atoi`, `ft_isdigit_str`, `ft_strlen`,
  `ft_itoa` and `ft_strjoin` as methods. `ft_itoa` and `ft_strjoin` fill
  fresh `array<char>` buffers index by index, as the C code does. Each
  method is proved against a `CText` function.
- `Types`: the enums and the two records.
  - `t_state` is one datatype. The thread variant's version is the subset
    without `HALT`.
  - The process variant's `t_error` is a layout parameter (see below).
  - `t_rules` and `t_philo` are classes whose fields the code updates in
    place.
- `Messages`, `BonusMessages`: `pl_show_error` and `pl_declare_state` of
  each variant, as functions returning the text they print. Colour escapes
  are not included.
- `Parse`, `BonusParse`: argument validation and the filling of the rules
  record in each variant.
- `Seats`: fork assignment in `pl_philo_init` and the ring it forms.
- `Monitor`, `BonusMonitor`: the fullness tracker, the starvation check
  and the monitor loop of each variant. Locks are removed and clock
  readings are parameters.

The process variant's code uses two error names, `OPEN_SEM_FAILED` and
`FORK_FAILED`, that its header's enum does not declare. Their values are
therefore unknown. The model takes the enum as a parameter `layout`:

- it has nine slots holding every name;
- the seven declared names keep the header's order;
- the properties that hold under every such layout are proved for all of
  them (`Types.ValidLayout`).

The thread variant's `full` field is set to `NOTFULL` when a philosopher is
initialised, but its tracker tests it against 0. Because of this mismatch,
no philosopher is ever counted as full (see Findings). Both versions of the
tracker are modelled. The rest of the model uses the corrected one, which is
the process variant's logic.

## Model

| member | source | states |
|---|---|---|
| CText.Len | philo_bonus/pl_utils.c:75-86 | the length is the position of the first NUL, or the whole buffer when there is none |
| CText.SkipSpaces | philo/pl_utils.c:28-29 | the scan stops at the first character that is neither ' ' nor 9 to 13, and everything before it is white space |
| CText.AtoiSkipsSpaces | philo/pl_utils.c:28-29 | leading white space does not change what `ft_atoi` reads |
| CText.AtoiSigned | philo/pl_utils.c:30-35 | one '+' or '-' is consumed and '-' negates the digits that follow; a second sign stops the scan |
| CText.AtoiStopsAtNonDigit | philo/pl_utils.c:36-41 | the digits are read up to the first non-digit, whatever follows |
| CText.AtoiNoDigits | philo/pl_utils.c:36-41 | with no digit after the white space and sign the result is 0 |
| CText.AtoiOfFittingDigits | philo/pl_utils.c:36-39 | an all-digit string whose value fits an int reads as that value |
| CText.AtoiOfNumeral | philo/pl_utils.c:21-42 | an accepted numeral reads as its sign times the value of its digits |
| CText.DecimalLength | philo_bonus/pl_utils.c:98-108 | the rendering has one character per decimal digit, plus one for '-' or for the single '0' |
| CText.DecimalIsNumeral | philo_bonus/pl_utils.c:91-117 | the rendering contains no NUL and passes `ft_isdigit_str` |
| CText.DecimalEndsWithDigit | philo_bonus/pl_utils.c:109-115 | the rendering ends with a digit |
| CText.AtoiOfDecimal | philo_bonus/pl_utils.c:21-42 | the rendering of any integer reads back as that integer when a non-digit follows it |
| CText.AtoiOfPadded | philo_bonus/pl_msg.c:69 | a right-aligned field holding a number reads back as that number |
| CText.DigitsFit | philo/pl_msg.c:46 | a number below 10^k takes at most k digits, so it fits a field of width k |
| Utils.Atoi | philo/pl_utils.c:21-42 | the loop returns the 32-bit wrapped value of the sign times the digits after the white space |
| Utils.SkipWhite | philo/pl_utils.c:28-29 | the white-space loop stops at the index `SkipSpaces` names: the first character that is neither ' ' nor 9 to 13 |
| Utils.ReadDigits | philo/pl_utils.c:36-39 | the digit loop stops at the first non-digit and leaves the 32-bit wrapped value of the digits it passed |
| Utils.IsDigitStr | philo/pl_utils.c:51-70 | returns 1 exactly for an optional single sign followed by one or more digits and nothing else, so a bare sign is rejected; requires a non-empty string because the source reads `sign` uninitialised on "" |
| Utils.StrLen | philo_bonus/pl_utils.c:75-86 | the count is the number of characters before the first NUL |
| Utils.Itoa | philo_bonus/pl_utils.c:91-117 | the buffer is the decimal rendering of `n` and a NUL: "0" for 0, '-' and the digits of the magnitude for a negative `n`, INT_MIN included; its length is the digit count plus one when `n <= 0` |
| Utils.CountChars | philo_bonus/pl_utils.c:98-100 | the counting loop, dividing with C's truncation, arrives at one character per decimal digit plus one for '-' or for the single '0' |
| Utils.WriteDigits | philo_bonus/pl_utils.c:111-115 | the backward loop leaves the digits of the magnitude, most significant first, ending at the given index, and changes no other cell |
| Utils.ItoaRoundTrip | philo_bonus/pl_utils.c:21-42 | `ft_atoi(ft_itoa(n)) == n` for every int |
| Utils.StrJoin | philo_bonus/pl_utils.c:122-141 | a NULL argument gives NULL; otherwise the result is the first text followed by the second and a NUL, of length len(s1) + len(s2) |
| Utils.CopyText | philo_bonus/pl_utils.c:130-139 | one copy loop puts the source text at the write index, moves the index past it and changes nothing else |
| Types.StateCodesAgree | philo_bonus/philo_bonus.h:51-63 | the two `t_state` enums agree up to FULL, and HALT shifts RUN and END up by one in the process variant |
| Types.PhiloErrorCodeInjective | philo/philo.h:64-73 | each error name of the thread variant has its own value in 0..5 |
| Types.PhiloErrorOf | philo/philo.h:64-73 | a value names an error exactly when it is within 0..ERROR_TOTAL-1 |
| Types.BonusCode | philo_bonus/philo_bonus.h:100-110 | under a layout, a name's value is the slot that holds it |
| Types.BonusCodeOrder | philo_bonus/philo_bonus.h:100-110 | under every valid layout the declared names keep the header's relative order |
| Types.AppendedLayoutValid | philo_bonus/philo_bonus.h:100-110 | appending the two undeclared names after the declared ones gives a valid layout |
| Types.Rules.constructor | philo/philo.h:88-98 | a rules record holds the eight values it is given |
| Types.Philosopher.constructor | philo/philo.h:116-128 | a philosopher record refers to the shared rules |
| Messages.ShowError | philo/pl_msg.c:15-34 | an out-of-range value prints nothing; every in-range value prints something, starting with "[ERROR]: " |
| Messages.HintExactlyForArgumentErrors | philo/pl_msg.c:32-33 | the help hint closes the report exactly for the three argument errors |
| Messages.NoHint | philo/pl_msg.c:32-33 | a text whose next-to-last character is not '.' does not end with the help hint |
| Messages.ResourceErrorNamesPhilosopher | philo/pl_msg.c:25-30 | the thread and mutex reports print their fixed text followed by a number that reads back as the given id |
| Messages.DeclareState | philo/pl_msg.c:41-42 | a NULL philosopher produces no line and any other produces one |
| Messages.DeclareReadsBack | philo/pl_msg.c:46 | the first field reads back as the elapsed time `now - start`, the second as `id + 1` |
| Messages.PhraseTable | philo/pl_msg.c:47-60 | FORK gets "has taken a fork", EAT/SLEEP/THINK get "is" padded to four characters and the verb, DIED gets "died" right-aligned in 8, and any other state gets only the padded "is" |
| Messages.DeclareColumns | philo/pl_msg.c:46 | when the elapsed time fits 6 digits and the id 3, separators sit at columns 6 and 10 and the phrase starts at column 11 |
| Messages.ColumnsFixed | philo/pl_msg.c:46 | numbers that fit their field widths give fixed separator columns |
| Messages.ColumnsReadBack | philo/pl_msg.c:46 | both fields of a line read back as their numbers, whatever the widths |
| BonusMessages.ShowError | philo_bonus/pl_msg.c:24-46 | an out-of-range value returns 1 and prints nothing; an in-range one returns 0 and prints the "[ERROR]: " prefix first |
| BonusMessages.ArgumentErrorsGetHint | philo_bonus/pl_msg.c:43-44 | the four declared argument errors get the help hint under every layout |
| BonusMessages.HintBefore | philo_bonus/pl_msg.c:43-44 | every value below CREATE_THD_FAILED gets the help hint at the end of its report |
| BonusMessages.ThreadErrorHasNoHint | philo_bonus/pl_msg.c:37-38 | CREATE_THD_FAILED prints the id, which reads back, and no hint |
| BonusMessages.UndeclaredErrorsHint | philo_bonus/pl_msg.c:39-44 | OPEN_SEM_FAILED and FORK_FAILED get the hint exactly when the layout places them below CREATE_THD_FAILED |
| BonusMessages.MutexErrorsPrintPrefixOnly | philo_bonus/pl_msg.c:28-42 | CREATE_MUT_FAILED and DESTROY_MUT_FAILED have no branch and print only the prefix, returning 0 |
| BonusMessages.DeclareState | philo_bonus/pl_msg.c:64-65 | nothing is printed for a NULL philosopher or once the simulation state is END, DIED included |
| BonusMessages.DeclareReadsBack | philo_bonus/pl_msg.c:69 | the fields read back as the elapsed time and `id + 1` |
| BonusMessages.DeclareColumns | philo_bonus/pl_msg.c:69-79 | for widths 8 and 3 the phrase starts at column 13, and states with no phrase print only the two fields |
| Parse.ArgError | philo/pl_parse.c:38-48 | an argument fails exactly when it is not a numeral or reads as negative, and non-numeric is reported first |
| Parse.FirstBad | philo/pl_parse.c:36-49 | every argument before the returned index passes and the one at it fails |
| Parse.CheckArgs | philo/pl_parse.c:30-51 | the loop returns 1 exactly when every argument passes; otherwise 0 and the report for the first failing argument |
| Parse.CheckArg | philo/pl_parse.c:38-48 | one round of the loop reports non-numeric before negative, and nothing for a numeral that reads as non-negative |
| Parse.SetupRules | philo/pl_parse.c:67-80 | the first four arguments become count and times in order, the fifth or 0 becomes the meal target, the start time is the clock reading, the state is RUN and no philosopher is full |
| Parse.ReadRules | philo/pl_parse.c:69-77 | RUN, then the four arguments in order, then the fifth or 0; the start time and the full count are not touched |
| Parse.Parse | philo/pl_parse.c:96-107 | a count other than 4 or 5 reports INVALID_ARGS_TOTAL before any argument is read; with 4 or 5 arguments a rejection prints the report of the first failing argument; the result is 1 exactly for accepted arguments; the rules change only then |
| Parse.AcceptsExactly | philo/pl_parse.c:36-50 | accepted argument lists are exactly four or five numerals with non-negative values |
| Parse.AcceptedValues | philo/pl_parse.c:43-48 | every accepted value is non-negative and equals its signed decimal value when that fits an int |
| Parse.MinusZeroAccepted | philo/pl_parse.c:43-48 | "-0" passes, because it reads as 0 |
| Parse.HugeNegativeAccepted | philo/pl_utils.c:36-39 | under the wrapping model, "-3000000000" reads as 1294967296 and passes the argument check |
| Parse.ZerosAccepted | philo/pl_parse.c:36-50 | zero is accepted in every position, including the count and the meal target |
| BonusParse.ArgError | philo_bonus/pl_parse.c:82-88 | non-numeric, then negative, then a zero fifth argument is reported |
| BonusParse.FirstBad | philo_bonus/pl_parse.c:80-89 | every argument before the returned index passes and the one at it fails |
| BonusParse.CheckArgs | philo_bonus/pl_parse.c:74-91 | returns 1 exactly when all pass; otherwise what `pl_show_error` returns for the first failure, which is 0, and its report |
| BonusParse.CheckArg | philo_bonus/pl_parse.c:82-88 | one round reports non-numeric, then negative, then a zero fifth argument, and nothing otherwise |
| BonusParse.SetupRules | philo_bonus/pl_parse.c:102-116 | the same fields as the thread variant but the start time is untouched; a failed shared-lock setup prints the mutex report with -1 |
| BonusParse.SharedLockReport | philo_bonus/pl_parse.c:40-50 | 1 and no output when the shared locks are created; otherwise 0 and the bare "[ERROR]: " prefix of CREATE_MUT_FAILED |
| BonusParse.Parse | philo_bonus/pl_parse.c:132-140 | a wrong count gives 0 and INVALID_ARGS_TOTAL; with 4 or 5 arguments a rejection prints the report of the first failing argument; the result is 1 exactly for accepted arguments, even when the lock setup failed, and then the output is empty or, on a failed lock setup, the bare error prefix; rejected arguments leave the rules untouched |
| BonusParse.HugeNegativeAccepted | philo_bonus/pl_parse.c:82-88 | under the wrapping model, "-3000000000" passes all three checks in every position |
| BonusParse.AcceptsExactly | philo_bonus/pl_parse.c:80-89 | accepted lists are four or five non-negative numerals whose fifth, if present, is above 0 |
| BonusParse.DiffersFromThreadVariantOnlyOnZeroTarget | philo_bonus/pl_parse.c:87-88 | the process variant accepts a subset of the thread variant's lists; the only difference is a fifth argument of 0 |
| Seats.ForksOnTable | philo/pl_philo.c:38-45 | both fork indices lie in [0, n), and the right one is (id - 1 + n) mod n |
| Seats.TwoForksWhenTwoSeats | philo/pl_philo.c:38-45 | the two forks of a seat coincide exactly when there is one philosopher |
| Seats.NeighboursShare | philo/pl_philo.c:38-45 | a seat's left fork is the next seat's right fork |
| Seats.EachForkSharedByTwo | philo/pl_philo.c:38-45 | with two or more seats, every fork is used by exactly two seats: its own and the next one |
| Seats.PhiloInit | philo/pl_philo.c:32-47 | sets the id, 0 meals, NOTFULL, the last meal time, the left fork and the rules; sets the right fork and returns 1 only when lock setup succeeds, otherwise returns 0 with the right fork untouched |
| Monitor.FullCountMark | philo_bonus/pl_monitor.c:42-46 | marking one more philosopher FULL raises the count by exactly one |
| Monitor.FullCountAll | philo_bonus/pl_monitor.c:47 | the count reaches the number of philosophers exactly when all of them are FULL |
| Monitor.FullTracker | philo/pl_monitor.c:20-42 | the corrected tracker: with no target, 0 and no change; a NOTFULL philosopher that has eaten enough becomes FULL and is counted once; 1 exactly when the count equals the total, which under the tally invariant means every philosopher is FULL; the shared state is never written |
| Monitor.FullTrackerAsWritten | philo/pl_monitor.c:20-42 | the tracker as written counts only a philosopher whose `full` is 0, so one that is NOTFULL is never counted |
| Monitor.FullnessScenario | philo/pl_monitor.c:26-29 | one philosopher, target of one meal, after its meal: as written the result is 0, corrected it is 1 |
| Monitor.StarvationPersists | philo/pl_monitor.c:56 | once starved, a philosopher is still starved at every later clock reading |
| Monitor.CheckDead | philo/pl_monitor.c:48-63 | returns 0 when the last meal is 0; otherwise 1 and the DIED line exactly when `now - last_ate >= time_to_die`; changes nothing |
| Monitor.MonitorLoop | philo/pl_monitor.c:86-100 | each round checks death first and then fullness, and the loop stops at the first check that reports 1; all earlier rounds saw no starvation; the tally invariant is kept |
| BonusMonitor.FullTracker | philo_bonus/pl_monitor.c:34-58 | with no target, 0 and no change; counts a NOTFULL philosopher once; when the count reaches the total, the state becomes END and the result is 1; otherwise the state is untouched |
| BonusMonitor.BoundariesDiffer | philo_bonus/pl_monitor.c:82 | the strict `>` test implies the thread variant's `>=` test, and the two differ exactly when `now - last_ate == time_to_die` |
| BonusMonitor.CheckDead | philo_bonus/pl_monitor.c:74-94 | a philosopher is starved exactly when `now - last_ate > time_to_die`; DIED is then rendered under the state before END is set, and the result is 1; otherwise 0 and nothing changes |
| BonusMonitor.Round | philo_bonus/pl_monitor.c:120 | the starvation check runs first and the tracker only when it reports 0; a death leaves END and the DIED line, otherwise the tracker's result, and the tally invariant is kept |
| BonusMonitor.MonitorLoop | philo_bonus/pl_monitor.c:111-125 | the monitor stops in its first round exactly when the state was already END; otherwise death is checked before fullness, and the loop leaves as soon as the tracker finds everyone full (a loop that ran out of clock readings never ended a round with everyone full); END is the only state ever written, and only when leaving on death or all-full |

## Left out

- Threads, processes, mutexes and semaphores are not modelled. This covers `pl_spawn_philo`, `pl_simulation_init`, `pl_begin_simulation`, `pl_prepare_forks`, all of philo_bonus/pl_philo.c, philo_bonus/pl_semaphore.c and `pl_lock_setup`. Whether lock setup succeeded is a boolean parameter (`lockOk`, `locksOk`). The semaphore names in philo_bonus/pl_semaphore.c are built with `ft_strjoin` and `ft_itoa`, which are modelled.
- The worker routines (`pl_routine`, `pl_eat`, `pl_sleep`, `pl_fork_action`) are not modelled. The monitor therefore never sees `last_ate` or `meal_count` change during a loop. The `pl_fork_action(philo, RETURN)` calls in the process variant's tracker and death check are omitted.
- The lock-wrapped getters of both `pl_monitor_utils.c` files are plain field reads.
- The clock is not modelled. `pl_get_time` becomes the parameters `now`/`clock`. `pl_declare_state` reads the clock again; the model uses the reading of the check that called it. `pl_usleep` and the `usleep` calls in philo/pl_msg.c:45 and philo_bonus/pl_monitor.c:122 are omitted.
- Monitor.MonitorLoop: the source loops forever. The model stops when the sequence of clock readings runs out, and reports that as a separate reason.
- BonusMonitor.MonitorLoop: `exit(EXIT_SUCCESS)` is modelled as returning from the loop.
- Colour escapes and `printf` as a call are not modelled. Each function returns the text it would print.
- Utils.Atoi, Utils.ItoaRoundTrip: signed overflow in `num * 10 + (str[i] - '0')` (philo/pl_utils.c:36-39) is undefined behaviour in C. The model wraps modulo 2^32 instead. Two results hold only under that assumption: the round trip for INT_MIN, whose accumulation passes through 2147483648, and the reading of over-long numerals such as "-3000000000" as 1294967296, which both argument checks then accept (Parse.HugeNegativeAccepted, BonusParse.HugeNegativeAccepted).
- `malloc` failure in `ft_itoa` and `ft_strjoin` (a NULL return) is not modelled. The model always allocates.
- Utils.IsDigitStr: the empty string is excluded by a precondition, because the source reads an uninitialised `sign` there.
- Messages.DeclareState, BonusMessages.DeclareState: `id + 1` and `now - start` are unbounded integers. Overflow of `int` or `time_t` is not modelled.
- `main` in both `pl_main.c` files is not modelled. The sequence of philosophers in a simulation is not modelled either: `Monitor.Tallied` takes the table of `full` fields as a ghost argument.

## Findings

| source | as written | input that shows it | evidently intended | confidence | as-written member | corrected member |
|---|---|---|---|---|---|---|
| philo/pl_monitor.c:26-29 | the tracker counts a philosopher only when `full == 0` and then sets it to 1, but philo/pl_philo.c:36 initialises `full` to NOTFULL (5), so `philo_full` never grows and the all-full exit never fires | one philosopher, meal target 1, `meal_count` 1 after `pl_philo_init`: the result is 0 | test `full == NOTFULL` and set `FULL`, as philo_bonus/pl_monitor.c:42-45 does | high; not executed | Monitor.FullTrackerAsWritten, Monitor.FullnessScenario | Monitor.FullTracker |
