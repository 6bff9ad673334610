/**
 The clocks under which the allowance holds, exactly. `admit` stores the reading
 through a cast to a signed column. A reading just past that column's range still
 lies in a window the column can hold, so the debit commits and prunes, but the last
 charge time it stores wraps below zero and moves nothing. A clock that then returns
 to an earlier day finds its window pruned and empty.
 */
module AllowanceClock {
  import opened Basics
  import opened Allowance
  import opened AllowanceLedger
  import opened AllowanceRuns
  import opened AllowanceTheorems

  /** Its window is pruned by a debit in the last window. */
  predicate Early(now: nat) {
    WindowStart(now) < Horizon(LAST_WINDOW)
  }

  /** No harmful reading, or none early enough for a harmful one to prune. */
  ghost predicate Safe(clock: iset<nat>) {
    (forall now :: now in clock ==> Harmless(now)) || (forall now :: now in clock ==> !Early(now))
  }

  // ----- A clock that never reads early: nothing is ever pruned -----

  ghost predicate Unpruned(s: System) {
    && (s.store.Db? ==> s.store.accounting.attempts == Receipts(s.history))
    && (forall i :: 0 <= i < |s.history| ==> Horizon(LAST_WINDOW) <= s.history[i].receipt.window)
    && Ranked(s.history)
  }

  lemma {:induction false} RetainsAll(rs: seq<Receipt>, horizon: nat)
    requires forall i :: 0 <= i < |rs| ==> horizon <= rs[i].window
    ensures Retained(rs, horizon) == rs
  {
    if rs != [] {
      RetainsAll(rs[..|rs| - 1], horizon);
    }
  }

  lemma LastWindowIsLast(window: nat, now: nat)
    requires window == WindowStart(now) <= I64_MAX
    ensures window <= LAST_WINDOW && Horizon(window) <= Horizon(LAST_WINDOW) && Horizon(window) <= window
  {}

  /** A debit that is not refused prunes nothing and finds its whole window counted. */
  lemma DebitPrunesNothing(guard: Guard, accounting: Accounting, history: seq<Charge>, origin: Origin, now: nat,
                           id: AttemptId, charge: Charge)
    requires accounting.attempts == Receipts(history) && TotalsMatchReceipts(accounting)
    requires forall i :: 0 <= i < |history| ==> Horizon(LAST_WINDOW) <= history[i].receipt.window
    requires Refuses(guard, Db(accounting), origin, Some(now), id).None? && !Early(now)
    requires charge.receipt == ReceiptFor(guard, origin, now, id)
    ensures var after := Write(accounting, charge.receipt);
            after.attempts == Receipts(history + [charge])
    ensures Debits(history + [charge], origin, WindowStart(now)) <= guard.maxAttempts
  {
    LastWindowIsLast(WindowStart(now), now);
    assert Receipts(history + [charge]) == Receipts(history) + [charge.receipt];
    RetainsAll(Receipts(history) + [charge.receipt], Horizon(WindowStart(now)));
    DebitsExtend(history, charge, origin, WindowStart(now));
  }

  lemma CommitDebitStaysUnpruned(s: System, pid: Pid, now: Option<nat>, id: AttemptId, granted: bool)
    requires Controlled(s) && Booked(s) && Unpruned(s) && At(s, pid).AdmitLocked?
    requires now.Some? ==> !Early(now.value)
    ensures Unpruned(CommitDebitStep(s, pid, At(s, pid).guard, At(s, pid).origin, now, id, granted))
  {
    var guard, origin := At(s, pid).guard, At(s, pid).origin;
    assert s.lock == Some(pid);
    if Refuses(guard, s.store, origin, now, id).None? {
      var charge := Charge(ReceiptFor(guard, origin, now.value, id), guard.maxAttempts, granted);
      DebitPrunesNothing(guard, s.store.accounting, s.history, origin, now.value, id, charge);
      DebitStaysRanked(s.history, charge);
    }
  }

  lemma CommitGenerationStaysUnpruned(s: System, pid: Pid)
    requires Controlled(s) && Booked(s) && Unpruned(s) && At(s, pid).IntentOut?
    ensures Unpruned(CommitGenerationStep(s, pid, At(s, pid).plan, At(s, pid).found))
  {}

  lemma PublishIntentStaysUnpruned(s: System, pid: Pid)
    requires Controlled(s) && Booked(s) && Unpruned(s) && At(s, pid).Planned?
    ensures Unpruned(PublishIntentStep(s, pid, At(s, pid).plan, At(s, pid).found))
  {}

  lemma StepStaysUnpruned(s: System, action: Action, clock: iset<nat>)
    requires Controlled(s) && Booked(s) && Unpruned(s)
    requires ReadsFrom(action, clock) && forall now :: now in clock ==> !Early(now)
    ensures Unpruned(Step(s, action))
  {
    match action {
      case CommitDebit(p, now, id, granted) =>
        if At(s, p).AdmitLocked? { CommitDebitStaysUnpruned(s, p, now, id, granted); }
      case CommitGeneration(p) => if At(s, p).IntentOut? { CommitGenerationStaysUnpruned(s, p); }
      case PublishIntent(p) => if At(s, p).Planned? { PublishIntentStaysUnpruned(s, p); }
      case PublishReady(p) => if At(s, p).AccountingDone? { assert s.lock == Some(p); }
      case _ => QuietStep(s, action);
    }
  }

  lemma {:induction false} LateRunsAreUnpruned(actions: seq<Action>, clock: iset<nat>)
    requires ReadingsFrom(actions, clock) && forall now :: now in clock ==> !Early(now)
    ensures Unpruned(Run(actions))
  {
    if actions != [] {
      var init, last := actions[..|actions| - 1], actions[|actions| - 1];
      LateRunsAreUnpruned(init, clock);
      EveryRunIsControlled(init);
      EveryRunIsBooked(init);
      assert ReadsFrom(last, clock);
      StepStaysUnpruned(Run(init), last, clock);
    }
  }

  // ----- A harmful reading after an early one: runs that break the allowance -----

  /** First activation with a limit of one. */
  function Activation(): seq<Action> {
    [LockForSetup(0, 1), PublishIntent(0), CommitGeneration(0), PublishReady(0)]
  }

  function Attempt(origin: Origin, now: nat, id: AttemptId): seq<Action> {
    [Start(1), ReadUnlocked(1, origin), LockForAdmission(1), CommitDebit(1, Some(now), id, true)]
  }

  /** The other origin of round `k`. */
  function Other(k: nat): (origin: Origin)
    ensures |origin| == k + 1
  {
    seq(k + 1, i => 'p')
  }

  /** In each round one origin is debited at the early time, and a new one at the harmful time. */
  function Rounds(early: nat, harmful: nat, k: nat): seq<Action> {
    if k == 0 then Activation()
    else Rounds(early, harmful, k - 1) + Attempt("o", early, 2 * k) + Attempt(Other(k), harmful, 2 * k + 1)
  }

  lemma RunFour(actions: seq<Action>, a: Action, b: Action, c: Action, d: Action)
    ensures Run(actions + [a, b, c, d]) == Step(Step(Step(Step(Run(actions), a), b), c), d)
  {
    var one, two, three := actions + [a], actions + [a, b], actions + [a, b, c];
    var four := actions + [a, b, c, d];
    assert four[..|four| - 1] == three && three[..|three| - 1] == two && two[..|two| - 1] == one;
    assert one[..|one| - 1] == actions;
    assert Run(four) == Step(Run(three), d);
    assert Run(three) == Step(Run(two), c);
    assert Run(two) == Step(Run(one), b);
  }

  const READY: Guard := Guard(Ready, 1, 1)

  /** At rest under the ready guard of limit one. */
  ghost predicate AtRest(s: System, accounting: Accounting) {
    s.guard == Some(READY) && s.store == Db(accounting) && s.lock.None? && At(s, 1).Idle?
  }

  /** The accounting before the first attempt. */
  const NEW: Accounting := Accounting(1, 0, map[], [])

  const PLAN: Plan := Plan(READY, false, false)
  const PLANNED: System := System(None, Empty, false, Some(0), map[0 := Planned(PLAN, 0)], [], [])

  lemma PlansFirst()
    ensures Step(INITIAL, LockForSetup(0, 1)) == PLANNED
  {}

  lemma CompletesFrom(s: System)
    requires s.lock == Some(0) && At(s, 0) == Planned(PLAN, 0) && s.store == Empty && At(s, 1).Idle?
    ensures var s' := Step(Step(Step(s, PublishIntent(0)), CommitGeneration(0)), PublishReady(0));
            AtRest(s', NEW) && s'.history == s.history
  {}

  lemma Activates()
    ensures AtRest(Run(Activation()), NEW) && Run(Activation()).history == []
  {
    assert Activation() == [] + Activation();
    RunFour([], LockForSetup(0, 1), PublishIntent(0), CommitGeneration(0), PublishReady(0));
    PlansFirst();
    CompletesFrom(PLANNED);
  }

  lemma AttemptDebits(actions: seq<Action>, accounting: Accounting, origin: Origin, now: nat, id: AttemptId)
    requires AtRest(Run(actions), accounting)
    requires Refuses(READY, Db(accounting), origin, Some(now), id).None?
    ensures var r := ReceiptFor(READY, origin, now, id);
            var s := Run(actions + Attempt(origin, now, id));
            AtRest(s, Write(accounting, r)) && s.history == Run(actions).history + [Charge(r, 1, true)]
  {
    RunFour(actions, Start(1), ReadUnlocked(1, origin), LockForAdmission(1), CommitDebit(1, Some(now), id, true));
  }

  lemma TwoAttemptsDebit(actions: seq<Action>, accounting: Accounting, r0: Receipt, t0: nat, r1: Receipt, t1: nat)
    requires AtRest(Run(actions), accounting)
    requires r0 == ReceiptFor(READY, r0.origin, t0, r0.id) && r1 == ReceiptFor(READY, r1.origin, t1, r1.id)
    requires Refuses(READY, Db(accounting), r0.origin, Some(t0), r0.id).None?
    requires Refuses(READY, Db(Write(accounting, r0)), r1.origin, Some(t1), r1.id).None?
    ensures var s := Run(actions + Attempt(r0.origin, t0, r0.id) + Attempt(r1.origin, t1, r1.id));
            && AtRest(s, Write(Write(accounting, r0), r1))
            && s.history == Run(actions).history + [Charge(r0, 1, true)] + [Charge(r1, 1, true)]
  {
    AttemptDebits(actions, accounting, r0.origin, t0, r0.id);
    AttemptDebits(actions + Attempt(r0.origin, t0, r0.id), Write(accounting, r0), r1.origin, t1, r1.id);
  }

  /** Every row is a harmful debit of the first `k` rounds, in the last window. */
  predicate Swept(accounting: Accounting, early: nat, k: nat) {
    && accounting.generation == 1 && 0 <= accounting.lastCharge <= early
    && (forall key :: key in accounting.charges ==> key.1 == LAST_WINDOW && |key.0| <= k + 1)
    && (forall r :: r in accounting.attempts ==> r.id < 2 * k + 2)
  }

  /** An origin and window with no row and a new id are admitted. */
  lemma NewRowIsAdmitted(accounting: Accounting, origin: Origin, now: nat, id: AttemptId)
    requires TotalsMatchReceipts(accounting) && accounting.generation == 1
    requires 0 <= accounting.lastCharge <= now && WindowStart(now) <= I64_MAX
    requires (origin, WindowStart(now)) !in accounting.charges && forall r :: r in accounting.attempts ==> r.id != id
    ensures Refuses(READY, Db(accounting), origin, Some(now), id).None?
  {}

  /** After a round's early debit the row of its harmful one is still new. */
  lemma FirstOfRound(accounting: Accounting, early: nat, k: nat, r0: Receipt)
    requires k > 0 && Swept(accounting, early, k - 1) && TotalsMatchReceipts(accounting)
    requires Horizon(r0.window) <= r0.window < Horizon(LAST_WINDOW) && r0.chargedAt == early && r0.id == 2 * k
    ensures var middle := Write(accounting, r0);
            && middle.generation == 1 && middle.lastCharge == early && TotalsMatchReceipts(middle)
            && (Other(k), LAST_WINDOW) !in middle.charges
            && forall r :: r in middle.attempts ==> r.id != 2 * k + 1
  {
    WriteKeepsTotals(accounting, r0);
    forall r | r in Write(accounting, r0).attempts ensures r.id != 2 * k + 1 {
      RetainedMembers(accounting.attempts + [r0], Horizon(r0.window), r);
    }
  }

  /** A round's harmful debit prunes its early one and leaves the last charge time at the early reading. */
  lemma RoundSweeps(accounting: Accounting, early: nat, k: nat, r0: Receipt, r1: Receipt)
    requires k > 0 && Swept(accounting, early, k - 1)
    requires r0.window < Horizon(LAST_WINDOW) && r0.chargedAt == early && r0.id == 2 * k
    requires r1.window == LAST_WINDOW && r1.chargedAt < 0 && r1.id == 2 * k + 1 && |r1.origin| == k + 1
    ensures Swept(Write(Write(accounting, r0), r1), early, k)
  {}

  /** The debits of the one origin, by its early window and by the hour from the early time. */
  ghost predicate Counts(history: seq<Charge>, early: nat, k: nat) {
    Debits(history, "o", WindowStart(early)) == k && DebitsInHour(history, "o", early) == k
  }

  lemma RoundCounts(history: seq<Charge>, early: nat, k: nat, first: Charge, second: Charge)
    requires Counts(history, early, k)
    requires Charges(first.receipt, "o", WindowStart(early)) && first.receipt.chargedAt == early
    requires second.receipt.origin != "o"
    ensures Counts(history + [first] + [second], early, k + 1)
  {
    var one := history + [first];
    DebitsExtend(history, first, "o", WindowStart(early));
    DebitsExtend(one, second, "o", WindowStart(early));
    assert one[..|one| - 1] == history && (one + [second])[..|one|] == one;
  }

  lemma EarlyWindow(early: nat)
    requires Early(early)
    ensures Horizon(WindowStart(early)) <= WindowStart(early) <= early <= I64_MAX && WindowStart(early) < LAST_WINDOW
  {}

  /** The second attempt of a round is admitted, and leaves the accounting swept again. */
  lemma SecondIsAdmitted(accounting: Accounting, middle: Accounting, early: nat, harmful: nat, k: nat, r0: Receipt)
    requires !Harmless(harmful) && Early(early) && k > 0
    requires Swept(accounting, early, k - 1) && TotalsMatchReceipts(accounting)
    requires r0 == ReceiptFor(READY, "o", early, 2 * k) && middle == Write(accounting, r0)
    ensures Refuses(READY, Db(middle), Other(k), Some(harmful), 2 * k + 1).None?
  {
    HarmfulWindow(harmful);
    EarlyWindow(early);
    FirstOfRound(accounting, early, k, r0);
    NewRowIsAdmitted(middle, Other(k), harmful, 2 * k + 1);
  }

  /** One round from rest. */
  lemma OneRound(actions: seq<Action>, accounting: Accounting, early: nat, harmful: nat, k: nat)
    returns (after: Accounting)
    requires !Harmless(harmful) && Early(early) && k > 0
    requires AtRest(Run(actions), accounting) && Swept(accounting, early, k - 1)
    requires Counts(Run(actions).history, early, k - 1)
    ensures var s := Run(actions + Attempt("o", early, 2 * k) + Attempt(Other(k), harmful, 2 * k + 1));
            AtRest(s, after) && Swept(after, early, k) && Counts(s.history, early, k)
  {
    var r0, r1 := ReceiptFor(READY, "o", early, 2 * k), ReceiptFor(READY, Other(k), harmful, 2 * k + 1);
    EveryRunIsBooked(actions);
    EarlyWindow(early);
    HarmfulWindow(harmful);
    NewRowIsAdmitted(accounting, "o", early, 2 * k);
    SecondIsAdmitted(accounting, Write(accounting, r0), early, harmful, k, r0);
    RoundSweeps(accounting, early, k, r0, r1);
    TwoAttemptsDebit(actions, accounting, r0, early, r1, harmful);
    RoundCounts(Run(actions).history, early, k - 1, Charge(r0, 1, true), Charge(r1, 1, true));
    after := Write(Write(accounting, r0), r1);
  }

  /** For every count, a run with a limit of one that debits the early window that often. */
  lemma {:induction false} RoundsRepeat(early: nat, harmful: nat, k: nat) returns (accounting: Accounting)
    requires !Harmless(harmful) && Early(early)
    ensures var s := Run(Rounds(early, harmful, k));
            AtRest(s, accounting) && Swept(accounting, early, k) && Counts(s.history, early, k)
  {
    if k == 0 {
      Activates();
      accounting := NEW;
    } else {
      var before := RoundsRepeat(early, harmful, k - 1);
      accounting := OneRound(Rounds(early, harmful, k - 1), before, early, harmful, k);
    }
  }

  /**
   There is no bound at all: with a limit of one, any harmful reading lets any early
   window be debited any number of times.
   */
  lemma HarmfulReadingBreaksTheAllowance(early: nat, harmful: nat, k: nat)
    requires !Harmless(harmful) && Early(early)
    ensures var s := Run(Rounds(early, harmful, k));
            && s.guard == Some(READY) && READY.maxAttempts == 1
            && Debits(s.history, "o", WindowStart(early)) == k
  {
    var accounting := RoundsRepeat(early, harmful, k);
  }

  /** One millisecond past the column is enough. */
  lemma ReadingPastTheColumnBreaksTheAllowance()
    ensures Debits(Run(Rounds(0, I64_MAX + 1, 2)).history, "o", 0) == 2
  {
    HarmfulReadingBreaksTheAllowance(0, I64_MAX + 1, 2);
  }

  // ----- The exact conditions -----

  /** The breaking runs read only the two times, under one limit. */
  lemma {:induction false} RoundsRead(early: nat, harmful: nat, k: nat, clock: iset<nat>)
    requires early in clock && harmful in clock
    ensures ReadingsFrom(Rounds(early, harmful, k), clock) && LimitsAre(Rounds(early, harmful, k), 1)
  {
    if k > 0 {
      RoundsRead(early, harmful, k - 1, clock);
    }
  }

  lemma SafeClockKeepsAllowance(clock: iset<nat>, actions: seq<Action>)
    requires Safe(clock) && ReadingsFrom(actions, clock)
    ensures AllowanceHolds(Run(actions).history)
  {
    if forall now :: now in clock ==> Harmless(now) {
      forall i | 0 <= i < |actions| ensures ReadsFrom(actions[i], HARMLESS) {
        assert ReadsFrom(actions[i], clock);
      }
      AllowanceIsNeverExceeded(actions);
    } else {
      LateRunsAreUnpruned(actions, clock);
      RankedWithinAllowance(Run(actions).history);
    }
  }

  /**
   Whatever times the clock can read, the allowance holds in every run that reads
   only those if and only if none of them is harmful or none is early.
   */
  lemma AllowanceHoldsExactlyUnderSafeClocks(clock: iset<nat>)
    ensures (forall actions :: ReadingsFrom(actions, clock) ==> AllowanceHolds(Run(actions).history)) <==> Safe(clock)
  {
    if Safe(clock) {
      forall actions | ReadingsFrom(actions, clock) ensures AllowanceHolds(Run(actions).history) {
        SafeClockKeepsAllowance(clock, actions);
      }
    } else {
      var early :| early in clock && Early(early);
      var harmful :| harmful in clock && !Harmless(harmful);
      var actions := Rounds(early, harmful, 2);
      RoundsRead(early, harmful, 2, clock);
      HarmfulReadingBreaksTheAllowance(early, harmful, 2);
      EveryRunKeepsLimit(actions, 1);
      assert !WithinAllowance(Run(actions).history, "o", WindowStart(early));
    }
  }

  /** Under one limit, no hour of any origin holds more than twice that limit. */
  ghost predicate HoursHold(actions: seq<Action>) {
    forall limit: nat, origin, from: nat ::
      LimitsAre(actions, limit) ==> DebitsInHour(Run(actions).history, origin, from) <= 2 * limit
  }

  /**
   Under one limit N, any hour whatever, aligned or not, holds at most 2N debits of an
   origin, in every run that reads only times in `clock`, under the same exact condition.
   */
  lemma AnyHourHoldsTwiceTheLimit(clock: iset<nat>)
    ensures (forall actions :: ReadingsFrom(actions, clock) ==> HoursHold(actions)) <==> Safe(clock)
  {
    if Safe(clock) {
      forall actions | ReadingsFrom(actions, clock) ensures HoursHold(actions) {
        SafeClockKeepsAllowance(clock, actions);
        forall limit: nat, origin, from: nat | LimitsAre(actions, limit)
          ensures DebitsInHour(Run(actions).history, origin, from) <= 2 * limit
        {
          AllowanceBoundsAnyHour(actions, limit, origin, from);
        }
      }
    } else {
      var early :| early in clock && Early(early);
      var harmful :| harmful in clock && !Harmless(harmful);
      RoundsRead(early, harmful, 3, clock);
      var accounting := RoundsRepeat(early, harmful, 3);
      assert !HoursHold(Rounds(early, harmful, 3));
    }
  }

  /**
   Charge times lie in their windows and never fall in commit order, in every run that
   reads only times in `clock`, if and only if no time in it is harmful.
   */
  lemma ChargeTimesAreTrueExactly(clock: iset<nat>)
    ensures (forall actions :: ReadingsFrom(actions, clock) ==> Timed(Run(actions).history))
            <==> forall now :: now in clock ==> Harmless(now)
  {
    if forall now :: now in clock ==> Harmless(now) {
      forall actions | ReadingsFrom(actions, clock) ensures Timed(Run(actions).history) {
        forall i | 0 <= i < |actions| ensures ReadsFrom(actions[i], HARMLESS) {
          assert ReadsFrom(actions[i], clock);
        }
        EveryRunIsLedgered(actions);
      }
    } else {
      var harmful :| harmful in clock && !Harmless(harmful);
      HarmfulWindow(harmful);
      Activates();
      EveryRunIsBooked(Activation());
      NewRowIsAdmitted(NEW, "o", harmful, 0);
      AttemptDebits(Activation(), NEW, "o", harmful, 0);
      var actions := Activation() + Attempt("o", harmful, 0);
      assert !InItsWindow(Run(actions).history[0].receipt);
      assert ReadingsFrom(actions, clock);
    }
  }
}
