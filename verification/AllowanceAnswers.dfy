/**
 What callers are told, on every state a run can reach: when setup succeeds and where
 it ends, and which of its answers an admission gives. Counts are of the unpruned
 history, and numbers are those of the documentation.
 */
module AllowanceAnswers {
  import opened Basics
  import opened Allowance
  import opened AllowanceLedger
  import opened AllowanceRuns
  import opened AllowanceTheorems

  // ----- Setup -----

  /** The limit is in range, the accounting is there or never was, and a new generation has room. */
  predicate SetupPossible(guard: Option<Guard>, store: Store, maxAttempts: nat) {
    && 1 <= maxAttempts <= 10_000
    && if guard.None? then true
       else if !store.Db? then
         guard.value.phase.Intent? && guard.value.generation == 1 && guard.value.maxAttempts == maxAttempts
       else guard.value.maxAttempts == maxAttempts || guard.value.generation < 9_223_372_036_854_775_807
  }

  /** First 1; then the same while the limit is, and one more when it changes. */
  function GenerationAfter(guard: Option<Guard>, maxAttempts: nat): nat {
    if guard.None? then 1
    else if guard.value.maxAttempts == maxAttempts then guard.value.generation
    else guard.value.generation + 1
  }

  /** The accounting at another generation, every charge and receipt as it was; new if there was none. */
  predicate SameCharges(before: Store, after: Store, generation: nat) {
    && after.Db? && after.accounting.generation == generation
    && if before.Db? then
         && after.accounting.charges == before.accounting.charges
         && after.accounting.attempts == before.accounting.attempts
         && after.accounting.lastCharge == before.accounting.lastCharge
       else
         after.accounting.charges == map[] && after.accounting.attempts == [] && after.accounting.lastCharge == 0
  }

  /** What is planned on a reachable guard and accounting, where there is a plan. */
  lemma PlanIsDecided(guard: Option<Guard>, store: Store, maxAttempts: nat)
    requires GenerationsAgree(guard, store) && SetupPossible(guard, store, maxAttempts)
    ensures var plan := PlanSetup(guard, GenerationOf(store), maxAttempts);
            var target := Guard(Ready, GenerationAfter(guard, maxAttempts), maxAttempts);
            && plan.Ok? && plan.value.target == target
            && (plan.value.noChange <==> guard == Some(target))
            && (plan.value.resumesIntent <==>
                  guard.Some? && guard.value.phase.Intent? && guard.value.maxAttempts == maxAttempts)
  {}

  lemma PossibleSetup(guard: Option<Guard>, store: Store, maxAttempts: nat)
    requires GenerationsAgree(guard, store) && SetupPossible(guard, store, maxAttempts)
    ensures var e := Setup(guard, store, maxAttempts, None);
            var target := Guard(Ready, GenerationAfter(guard, maxAttempts), maxAttempts);
            && e.guard == Some(target) && SameCharges(store, e.store, target.generation)
            && e.result == PlanSetup(guard, GenerationOf(store), maxAttempts)
  {
    PlanIsDecided(guard, store, maxAttempts);
  }

  lemma ImpossibleSetup(guard: Option<Guard>, store: Store, maxAttempts: nat, interrupt: Option<SetupStep>)
    requires GenerationsAgree(guard, store) && !SetupPossible(guard, store, maxAttempts)
    ensures var e := Setup(guard, store, maxAttempts, interrupt);
            && e.result == Err(if 1 <= maxAttempts <= 10_000 then State else InvalidRequest)
            && e.guard == guard && (e.store == store || (!store.Db? && !e.store.Db?))
  {}

  lemma InterruptedSetup(guard: Option<Guard>, store: Store, maxAttempts: nat)
    requires GenerationsAgree(guard, store) && SetupPossible(guard, store, maxAttempts)
    requires guard != Some(Guard(Ready, GenerationAfter(guard, maxAttempts), maxAttempts))
    ensures var generation := GenerationAfter(guard, maxAttempts);
            var first := Setup(guard, store, maxAttempts, Some(IntentPublished));
            var second := Setup(guard, store, maxAttempts, Some(AccountingReady));
            && first.guard == second.guard == Some(Guard(Intent, generation, maxAttempts))
            && first.store == (if store.Db? then store else Empty)
            && SameCharges(store, second.store, generation)
            && first.result.Ok? && second.result.Ok?
  {
    PlanIsDecided(guard, store, maxAttempts);
  }

  /**
   On every reachable state, setup with any limit, uninterrupted: it succeeds exactly
   where it is possible, ends ready with that limit at the generation above, and keeps
   every charge. Where it fails the guard is untouched and no accounting changes.
   */
  lemma SetupIsDecided(actions: seq<Action>, maxAttempts: nat)
    ensures var s := Run(actions);
            var e, target := Setup(s.guard, s.store, maxAttempts, None),
                             Guard(Ready, GenerationAfter(s.guard, maxAttempts), maxAttempts);
            if SetupPossible(s.guard, s.store, maxAttempts) then
              && e.guard == Some(target) && SameCharges(s.store, e.store, target.generation)
              && e.result.Ok? && e.result.value.target == target
              && (e.result.value.noChange <==> s.guard == Some(target))
              && (e.result.value.resumesIntent <==>
                    s.guard.Some? && s.guard.value.phase.Intent? && s.guard.value.maxAttempts == maxAttempts)
            else
              && e.result == Err(if 1 <= maxAttempts <= 10_000 then State else InvalidRequest)
              && e.guard == s.guard && (e.store == s.store || (!s.store.Db? && !e.store.Db?))
  {
    EveryRunIsControlled(actions);
    var s := Run(actions);
    if SetupPossible(s.guard, s.store, maxAttempts) {
      PlanIsDecided(s.guard, s.store, maxAttempts);
      PossibleSetup(s.guard, s.store, maxAttempts);
    } else {
      ImpossibleSetup(s.guard, s.store, maxAttempts, None);
    }
  }

  /** Stopped after its first step setup has published the intent alone; after its second, the accounting too. */
  lemma InterruptedSetupIsDecided(actions: seq<Action>, maxAttempts: nat)
    requires var s := Run(actions); SetupPossible(s.guard, s.store, maxAttempts)
    requires var s := Run(actions); s.guard != Some(Guard(Ready, GenerationAfter(s.guard, maxAttempts), maxAttempts))
    ensures var s := Run(actions);
            var generation := GenerationAfter(s.guard, maxAttempts);
            var first := Setup(s.guard, s.store, maxAttempts, Some(IntentPublished));
            var second := Setup(s.guard, s.store, maxAttempts, Some(AccountingReady));
            && first.guard == second.guard == Some(Guard(Intent, generation, maxAttempts))
            && first.store == (if s.store.Db? then s.store else Empty)
            && SameCharges(s.store, second.store, generation)
            && first.result.Ok? && second.result.Ok?
  {
    EveryRunIsControlled(actions);
    InterruptedSetup(Run(actions).guard, Run(actions).store, maxAttempts);
  }

  /**
   Whenever the accounting is lost past the first intent, nothing is debited and no
   setup succeeds: lost history is never replaced by a fresh allowance.
   */
  lemma LostAccountingStaysLost(actions: seq<Action>, left: Store, maxAttempts: nat, origin: Origin, now: Option<nat>,
                                id: AttemptId, deadline: Deadline)
    requires !left.Db? && Run(actions).guard.Some?
    requires Run(actions).guard.value.phase.Ready? || Run(actions).guard.value.generation > 1
    ensures var s := Run(actions + [Lose(left)]);
            && s.guard == Run(actions).guard && s.store == left && s.lost
            && Setup(s.guard, s.store, maxAttempts, None).result.Err?
            && AdmitOn(s.guard, s.store, origin, true, now, id, deadline) == AdmitEffect(left, Err(State))
  {
    assert (actions + [Lose(left)])[..|actions|] == actions;
    EveryRunIsControlled(actions);
    assert Run(actions + [Lose(left)]) == Run(actions).(store := left, lost := true);
    NothingWorksWithout(Run(actions).guard.value, left, maxAttempts, origin, now, id, deadline);
  }

  lemma NothingWorksWithout(guard: Guard, left: Store, maxAttempts: nat, origin: Origin, now: Option<nat>,
                            id: AttemptId, deadline: Deadline)
    requires !left.Db? && (guard.phase.Ready? || guard.generation > 1)
    ensures Setup(Some(guard), left, maxAttempts, None).result.Err?
    ensures AdmitOn(Some(guard), left, origin, true, now, id, deadline) == AdmitEffect(left, Err(State))
  {}

  /**
   On any guard and accounting at all, restored or altered ones included: when there is
   a plan, and what it targets.
   */
  lemma PlanOnAnyStores(guard: Option<Guard>, found: nat, maxAttempts: nat)
    ensures var plan := PlanSetup(guard, found, maxAttempts);
            var same := guard.Some? && guard.value.maxAttempts == maxAttempts;
            var keeps := same && (guard.value.phase.Intent? || guard.value.generation == found);
            var latest := if guard.Some? && guard.value.generation > found then guard.value.generation else found;
            && (plan.Ok? <==>
                  && 1 <= maxAttempts <= 10_000 && found <= 9_223_372_036_854_775_807
                  && (guard.Some? ==> 1 <= guard.value.generation <= 9_223_372_036_854_775_807)
                  && (guard.Some? && found == 0 ==> same && guard.value.phase.Intent? && guard.value.generation == 1)
                  && (keeps || latest < 9_223_372_036_854_775_807))
            && (plan.Ok? ==>
                  && plan.value.target == Guard(Ready, if keeps then latest else latest + 1, maxAttempts)
                  && (plan.value.noChange <==> keeps && guard.value.phase.Ready?)
                  && (plan.value.resumesIntent <==> keeps && guard.value.phase.Intent?))
  {}

  // ----- Windows and totals, in numbers -----

  /** The fixed hour a reading lies in. */
  predicate InHour(now: nat, start: nat) {
    start % 3_600_000 == 0 && start <= now < start + 3_600_000
  }

  lemma WindowsAreHours(now: nat, start: nat)
    ensures InHour(now, start) <==> start == WindowStart(now)
    ensures InHour(now, start) ==> WindowEnd(now) == start + 3_600_000
  {
    if InHour(now, start) {
      assert now - now % 3_600_000 == start;
    }
  }

  /** The checked total is the stored one, where window and total fit their types and the receipts agree. */
  lemma TotalIsVerifiedExactly(accounting: Accounting, origin: Origin, window: nat, total: nat)
    ensures VerifiedCharged(accounting, origin, window) == Ok(total) <==>
            && window <= 9_223_372_036_854_775_807 && total <= 4_294_967_295
            && total == CountReceipts(accounting.attempts, origin, window)
            && total == if (origin, window) in accounting.charges then accounting.charges[(origin, window)] else 0
  {}

  // ----- Admission -----

  /** No row of the attempts table has this id. */
  predicate NewId(store: Store, id: AttemptId) {
    store.Db? ==> forall r :: r in store.accounting.attempts ==> r.id != id
  }

  /** A ready guard over its accounting, and a clock that has not gone back and whose hour the column holds. */
  predicate InService(s: System, now: Option<nat>) {
    && s.guard.Some? && s.guard.value.phase.Ready? && s.store.Db?
    && now.Some? && LastTime(s.history) <= now.value
    && WindowStart(now.value) <= 9_223_372_036_854_775_807
  }

  /** The debits ever committed for this origin in the hour of this reading. */
  function Spent(s: System, origin: Origin, now: nat): nat {
    Debits(s.history, origin, WindowStart(now))
  }

  /** The debit the caller is handed. */
  predicate TellsTheDebit(s: System, origin: Origin, now: nat, id: AttemptId, d: Debit)
    requires s.guard.Some?
  {
    && d.id == id && d.generation == s.guard.value.generation && d.maxAttempts == s.guard.value.maxAttempts
    && InHour(now, d.window) && d.charged == Spent(s, origin, now) + 1
  }

  /** The charge that an admission at this reading commits. */
  function ChargeAt(guard: Guard, origin: Origin, now: nat, id: AttemptId, granted: bool): Charge {
    Charge(Receipt(id, origin, WindowStart(now), guard.generation, now), guard.maxAttempts, granted)
  }

  /** The debit is in the accounting, and the caller is told unless the deadline passed after the commit. */
  ghost predicate CommitsTheDebit(s: System, origin: Origin, now: nat, id: AttemptId, deadline: Deadline,
                                  e: AdmitEffect)
    requires s.guard.Some? && s.store.Db?
  {
    && e.store.Db? && e.store.accounting.generation == s.store.accounting.generation
    && InStep(e.store.accounting, s.history + [ChargeAt(s.guard.value, origin, now, id, !deadline.ExpiresAfterCommit?)])
    && TotalsMatchReceipts(e.store.accounting)
    && if deadline.ExpiresAfterCommit? then e.result == Err(State)
       else e.result.Ok? && e.result.value.Debited? && TellsTheDebit(s, origin, now, id, e.result.value.debit)
  }

  /** What the locked check answers on a reachable state, from the history alone. */
  lemma RefusalIsDecided(s: System, origin: Origin, now: Option<nat>, id: AttemptId)
    requires Controlled(s) && Booked(s) && Ledgered(s) && s.guard.Some?
    ensures Refuses(s.guard.value, s.store, origin, now, id) ==
            if !InService(s, now) then Some(State)
            else if Spent(s, origin, now.value) >= s.guard.value.maxAttempts then
              Some(Exhausted(s.guard.value.maxAttempts, WindowStart(now.value) + 3_600_000))
            else if !NewId(s.store, id) then Some(State)
            else None
  {
    if InService(s, now) {
      var window := WindowStart(now.value);
      NothingPrunedIsReachable(s.store.accounting, s.history, origin, now.value);
      SpentIsSmall(s, origin, window);
      assert VerifiedCharged(s.store.accounting, origin, window) == Ok(Spent(s, origin, now.value));
      assert ReadableMeta(s.store) && s.store.accounting.generation == s.guard.value.generation;
    } else {
      assert s.guard.value.phase.Ready? && s.store.Db? && now.Some? && s.store.accounting.lastCharge <= now.value ==>
        VerifiedCharged(s.store.accounting, origin, WindowStart(now.value)).Err?;
    }
  }

  /** No window ever holds more debits than a limit can be. */
  lemma SpentIsSmall(s: System, origin: Origin, window: nat)
    requires Booked(s) && Ledgered(s)
    ensures Debits(s.history, origin, window) <= 10_000
  {
    RankedWithinAllowance(s.history);
    assert WithinAllowance(s.history, origin, window);
  }

  lemma DebitIsCommitted(s: System, origin: Origin, now: nat, id: AttemptId, deadline: Deadline)
    requires Controlled(s) && Booked(s) && Ledgered(s) && InService(s, Some(now)) && Harmless(now)
    requires Refuses(s.guard.value, s.store, origin, Some(now), id).None? && !deadline.ExpiresBeforeCommit?
    ensures CommitsTheDebit(s, origin, now, id, deadline,
                            AdmitOn(s.guard, s.store, origin, true, Some(now), id, deadline))
  {
    var charge := ChargeAt(s.guard.value, origin, now, id, !deadline.ExpiresAfterCommit?);
    assert charge.receipt == ReceiptFor(s.guard.value, origin, now, id);
    WriteStaysInStep(s.store.accounting, s.history, charge);
    WindowsFollowClock(now, now);
    WriteKeepsTotals(s.store.accounting, charge.receipt);
    NothingPrunedIsReachable(s.store.accounting, s.history, origin, now);
    WindowsAreHours(now, WindowStart(now));
  }

  /**
   The answer of every admission on every reachable state, with the clock harmless:
   unguarded exactly where no guard is in force; refused where persistence is off, the
   deadline has passed, the allowance is not in service or the attempt is not new;
   exhausted exactly where the hour's debits have reached the limit, naming the hour's
   end; and otherwise one debit. Only a debit changes the store.
   */
  lemma AdmissionIsDecided(actions: seq<Action>, origin: Origin, persistent: bool, now: Option<nat>, id: AttemptId,
                           deadline: Deadline)
    requires ReadingsFrom(actions, HARMLESS) && (now.Some? ==> Harmless(now.value))
    ensures var s := Run(actions);
            var e := AdmitOn(s.guard, s.store, origin, persistent, now, id, deadline);
            if s.guard.None? then e == AdmitEffect(s.store, Ok(Unguarded))
            else if !persistent || deadline.ExpiresBeforeCommit? || !InService(s, now) then
              e == AdmitEffect(s.store, Err(State))
            else if Spent(s, origin, now.value) >= s.guard.value.maxAttempts then
              e == AdmitEffect(s.store, Err(Exhausted(s.guard.value.maxAttempts, WindowStart(now.value) + 3_600_000)))
            else if !NewId(s.store, id) then e == AdmitEffect(s.store, Err(State))
            else CommitsTheDebit(s, origin, now.value, id, deadline, e)
  {
    var s := Run(actions);
    EveryRunIsControlled(actions);
    EveryRunIsBooked(actions);
    EveryRunIsLedgered(actions);
    if s.guard.Some? && persistent && !deadline.ExpiresBeforeCommit? {
      RefusalIsDecided(s, origin, now, id);
      if Refuses(s.guard.value, s.store, origin, now, id).None? {
        DebitIsCommitted(s, origin, now.value, id, deadline);
      }
    }
  }

  /** On any stores at all, altered ones included: what it takes not to be refused. */
  lemma AdmissionOnAnyStores(guard: Guard, store: Store, origin: Origin, now: Option<nat>, id: AttemptId)
    ensures Refuses(guard, store, origin, now, id).None? <==>
            && guard.phase.Ready? && store.Db? && now.Some?
            && 1 <= store.accounting.generation == guard.generation <= 9_223_372_036_854_775_807
            && 0 <= store.accounting.lastCharge <= now.value
            && VerifiedCharged(store.accounting, origin, WindowStart(now.value)).Ok?
            && CountReceipts(store.accounting.attempts, origin, WindowStart(now.value)) < guard.maxAttempts
            && NewId(store, id)
  {}

  // ----- Inspection -----

  /** On any stores at all: the faults a ready guard's inspection names. */
  lemma InspectionOnAnyStores(guard: Guard, accounting: Accounting, origin: Origin, now: nat)
    requires guard.phase.Ready?
    ensures var health := Inspect(Some(guard), Db(accounting), origin, now).health;
            var sound := && 1 <= accounting.generation <= 9_223_372_036_854_775_807 && 0 <= accounting.lastCharge
                         && VerifiedCharged(accounting, origin, WindowStart(now)).Ok?;
            && (health.Invalid? <==> !sound)
            && (health.GenerationMismatch? <==> sound && accounting.generation != guard.generation)
            && (health.ClockBehindCharges? <==>
                  sound && accounting.generation == guard.generation && now < accounting.lastCharge)
  {}

  /** What inspection reports: the health from the stores, and the hour's count and remainder where all is well. */
  predicate Reports(s: System, origin: Origin, now: nat, report: Inspection) {
    && report.guard == s.guard
    && report.health ==
         (if s.guard.None? then Disabled
          else if s.store.Db? && WindowStart(now) > 9_223_372_036_854_775_807 then Invalid
          else if s.guard.value.phase.Intent? then SetupIncomplete
          else if !s.store.Db? then AccountingMissing
          else if now < LastTime(s.history) then ClockBehindCharges
          else Healthy)
    && (report.health.Healthy? ==>
          && report.charged == Some(Spent(s, origin, now))
          && Remaining(report) == Some(if Spent(s, origin, now) >= s.guard.value.maxAttempts then 0
                                       else s.guard.value.maxAttempts - Spent(s, origin, now)))
  }

  lemma InspectionReports(s: System, origin: Origin, now: nat)
    requires Controlled(s) && Booked(s) && Ledgered(s)
    ensures Reports(s, origin, now, Inspect(s.guard, s.store, origin, now))
  {
    if s.store.Db? {
      StoredTotalIsSmall(s, origin, WindowStart(now));
      if LastTime(s.history) <= now {
        NothingPrunedIsReachable(s.store.accounting, s.history, origin, now);
      }
    }
  }

  /** On every reachable state inspection reports the truth about the history. */
  lemma InspectionIsDecided(actions: seq<Action>, origin: Origin, now: nat)
    requires ReadingsFrom(actions, HARMLESS)
    ensures var s := Run(actions); Reports(s, origin, now, Inspect(s.guard, s.store, origin, now))
  {
    EveryRunIsControlled(actions);
    EveryRunIsBooked(actions);
    EveryRunIsLedgered(actions);
    InspectionReports(Run(actions), origin, now);
  }

  lemma StoredTotalIsSmall(s: System, origin: Origin, window: nat)
    requires s.store.Db? && Booked(s) && Ledgered(s)
    ensures Charged(s.store.accounting, origin, window) <= 10_000
    ensures Charged(s.store.accounting, origin, window) == CountReceipts(s.store.accounting.attempts, origin, window)
  {
    SpentIsSmall(s, origin, window);
    RetainedCount(Receipts(s.history), Horizon(WindowStart(s.store.accounting.lastCharge)), origin, window);
  }
}
