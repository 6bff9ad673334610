/** What holds in every run of the allowance. */
module AllowanceTheorems {
  import opened Basics
  import opened Allowance
  import opened AllowanceLedger
  import opened AllowanceRuns

  /** An action that reads the clock, if it does, at a time in `clock`. */
  ghost predicate ReadsFrom(action: Action, clock: iset<nat>) {
    action.CommitDebit? && action.now.Some? ==> action.now.value in clock
  }

  /** Every reading an admission takes under the lock, debited or refused, is in `clock`. */
  ghost predicate ReadingsFrom(actions: seq<Action>, clock: iset<nat>) {
    forall i :: 0 <= i < |actions| ==> ReadsFrom(actions[i], clock)
  }

  ghost const HARMLESS: iset<nat> := iset now: nat | Harmless(now)

  // ----- The setup protocol at every point a process can stop -----

  /**
   At every point of every run: one process at most is past the lock; a ready
   guard's generation is the accounting's, an intent's is never behind it, no guard
   means no accounting; and without a loss a guard over uninitialized accounting is
   the first intent.
   */
  lemma {:induction false} EveryRunIsControlled(actions: seq<Action>)
    ensures Controlled(Run(actions))
  {
    if actions == [] {
      assert forall p: Pid :: At(INITIAL, p) == Idle;
    } else {
      EveryRunIsControlled(actions[..|actions| - 1]);
      StepStaysControlled(Run(actions[..|actions| - 1]), actions[|actions| - 1]);
    }
  }

  /**
   Wherever a run leaves an intent, one uninterrupted retry with the intent's own
   limit makes it ready at its own generation and changes no charge, receipt or last
   charge time; only accounting lost past the first generation stops it.
   */
  lemma InterruptedSetupResumes(actions: seq<Action>)
    requires var s := Run(actions); s.guard.Some? && s.guard.value.phase.Intent?
    ensures var s := Run(actions);
            var e := Setup(s.guard, s.store, s.guard.value.maxAttempts, None);
            if s.store.Db? || s.guard.value.generation == 1 then
              && e.result.Ok?
              && e.guard == Some(s.guard.value.(phase := Ready))
              && e.store.Db? && e.store.accounting.generation == s.guard.value.generation
              && (s.store.Db? ==> e.store.accounting == s.store.accounting.(generation := s.guard.value.generation))
            else
              s.lost && e.result.Err? && e.guard == s.guard && !e.store.Db?
  {
    EveryRunIsControlled(actions);
    var s := Run(actions);
    if s.store.Db? || s.guard.value.generation == 1 {
      RetryCompletesTheIntent(s.guard.value, s.store);
    }
  }

  // ----- The books, whatever the clock -----

  /** No later debit's window begins more than a day after this one's. */
  predicate KeptAt(receipts: seq<Receipt>, i: nat)
    requires i < |receipts|
  {
    forall j :: i <= j < |receipts| ==> Horizon(receipts[j].window) <= receipts[i].window
  }

  ghost predicate Kept(receipts: seq<Receipt>, r: Receipt) {
    exists i :: 0 <= i < |receipts| && receipts[i] == r && KeptAt(receipts, i)
  }

  /** A time that was stored as it was read lies in the receipt's window. */
  predicate StoredInItsWindow(receipt: Receipt) {
    receipt.chargedAt >= 0 ==> InItsWindow(receipt)
  }

  predicate InItsWindow(receipt: Receipt) {
    receipt.chargedAt >= 0 && receipt.window == WindowStart(receipt.chargedAt)
  }

  /** What the accounting is of the unpruned history. */
  ghost predicate Booked(s: System) {
    && (s.guard.None? || (s.guard.value.phase.Intent? && s.guard.value.generation == 1) ==> s.history == [])
    && (s.store.Db? ==> && TotalsMatchReceipts(s.store.accounting)
                        && forall r :: r in s.store.accounting.attempts <==> Kept(Receipts(s.history), r))
    && (forall i :: 0 <= i < |s.history| ==> StoredInItsWindow(s.history[i].receipt))
    && (forall i :: 0 <= i < |s.history| ==> ValidLimit(s.history[i].limit))
  }

  lemma {:induction false} RetainedMembers(rs: seq<Receipt>, horizon: nat, r: Receipt)
    ensures r in Retained(rs, horizon) <==> r in rs && r.window >= horizon
  {
    if rs != [] {
      RetainedMembers(rs[..|rs| - 1], horizon, r);
      assert rs == rs[..|rs| - 1] + [rs[|rs| - 1]];
    }
  }

  /** One more receipt is kept, and takes the earlier ones that its own window is too far from. */
  lemma KeptWithNew(receipts: seq<Receipt>, receipt: Receipt, r: Receipt)
    requires Horizon(receipt.window) <= receipt.window
    ensures Kept(receipts + [receipt], r) <==>
            r == receipt || (Kept(receipts, r) && Horizon(receipt.window) <= r.window)
  {
    var more := receipts + [receipt];
    if Kept(more, r) {
      var i :| 0 <= i < |more| && more[i] == r && KeptAt(more, i);
      if i < |receipts| {
        assert Horizon(more[|receipts|].window) <= more[i].window;
        assert forall j :: i <= j < |receipts| ==> receipts[j] == more[j];
        assert KeptAt(receipts, i);
      }
    }
    if Kept(receipts, r) && Horizon(receipt.window) <= r.window {
      var i :| 0 <= i < |receipts| && receipts[i] == r && KeptAt(receipts, i);
      assert more[i] == r && KeptAt(more, i);
    }
    assert more[|receipts|] == receipt && KeptAt(more, |receipts|);
  }

  lemma WriteStaysBooked(accounting: Accounting, history: seq<Charge>, charge: Charge)
    requires TotalsMatchReceipts(accounting)
    requires forall r :: r in accounting.attempts <==> Kept(Receipts(history), r)
    requires Horizon(charge.receipt.window) <= charge.receipt.window
    ensures var after := Write(accounting, charge.receipt);
            && TotalsMatchReceipts(after)
            && forall r :: r in after.attempts <==> Kept(Receipts(history + [charge]), r)
  {
    var receipt := charge.receipt;
    WriteKeepsTotals(accounting, receipt);
    assert Receipts(history + [charge]) == Receipts(history) + [receipt];
    forall r ensures r in Write(accounting, receipt).attempts <==> Kept(Receipts(history + [charge]), r) {
      RetainedMembers(accounting.attempts + [receipt], Horizon(receipt.window), r);
      KeptWithNew(Receipts(history), receipt, r);
    }
  }

  lemma CommitDebitStaysBooked(s: System, pid: Pid, now: Option<nat>, id: AttemptId, granted: bool)
    requires Controlled(s) && Booked(s) && At(s, pid).AdmitLocked?
    ensures Booked(CommitDebitStep(s, pid, At(s, pid).guard, At(s, pid).origin, now, id, granted))
  {
    var guard, origin := At(s, pid).guard, At(s, pid).origin;
    assert s.lock == Some(pid);
    if Refuses(guard, s.store, origin, now, id).None? {
      var charge := Charge(ReceiptFor(guard, origin, now.value, id), guard.maxAttempts, granted);
      WindowsFollowClock(now.value, now.value);
      WriteStaysBooked(s.store.accounting, s.history, charge);
      assert StoredInItsWindow(charge.receipt);
    }
  }

  lemma CommitGenerationStaysBooked(s: System, pid: Pid)
    requires Controlled(s) && Booked(s) && At(s, pid).IntentOut?
    ensures Booked(CommitGenerationStep(s, pid, At(s, pid).plan, At(s, pid).found))
  {}

  lemma PublishIntentStaysBooked(s: System, pid: Pid)
    requires Controlled(s) && Booked(s) && At(s, pid).Planned?
    ensures Booked(PublishIntentStep(s, pid, At(s, pid).plan, At(s, pid).found))
  {}

  /** The other actions neither debit nor publish; they leave the accounting as it is or gone. */
  lemma QuietStep(s: System, action: Action)
    requires !action.CommitDebit? && !action.CommitGeneration? && !action.PublishIntent? && !action.PublishReady?
    ensures var s' := Step(s, action);
            s'.history == s.history && s'.guard == s.guard && (s'.store == s.store || !s'.store.Db?)
  {}

  lemma StepStaysBooked(s: System, action: Action)
    requires Controlled(s) && Booked(s)
    ensures Booked(Step(s, action))
  {
    match action {
      case CommitDebit(p, now, id, granted) =>
        if At(s, p).AdmitLocked? { CommitDebitStaysBooked(s, p, now, id, granted); }
      case CommitGeneration(p) => if At(s, p).IntentOut? { CommitGenerationStaysBooked(s, p); }
      case PublishIntent(p) => if At(s, p).Planned? { PublishIntentStaysBooked(s, p); }
      case PublishReady(p) => if At(s, p).AccountingDone? { assert s.lock == Some(p); }
      case _ => QuietStep(s, action);
    }
  }

  /**
   In every run, on any clock: each window's total is the number of its receipts, a
   receipt is kept exactly until a debit a day later prunes it, and no debit precedes
   the first ready guard.
   */
  lemma {:induction false} EveryRunIsBooked(actions: seq<Action>)
    ensures Booked(Run(actions))
  {
    if actions != [] {
      var init := actions[..|actions| - 1];
      EveryRunIsBooked(init);
      EveryRunIsControlled(init);
      StepStaysBooked(Run(init), actions[|actions| - 1]);
    }
  }

  /** No reachable accounting has a total that disagrees with its receipts. */
  lemma ReachableTotalsMatchReceipts(actions: seq<Action>, origin: Origin, window: nat)
    requires Run(actions).store.Db?
    ensures var accounting := Run(actions).store.accounting;
            Charged(accounting, origin, window) == CountReceipts(accounting.attempts, origin, window)
  {
    EveryRunIsBooked(actions);
  }

  // ----- The ledger over every run -----

  /** Each debit found its own window within its own limit, itself included. */
  ghost predicate Ranked(history: seq<Charge>) {
    forall i :: 0 <= i < |history| ==> WithinLimit(history, i)
  }

  ghost predicate WithinLimit(history: seq<Charge>, i: nat)
    requires i < |history|
  {
    Debits(history[..i + 1], history[i].receipt.origin, history[i].receipt.window) <= history[i].limit
  }

  /** Charge times never fall in commit order, and each window is the one its time lies in. */
  ghost predicate Timed(history: seq<Charge>) {
    && (forall i, j :: 0 <= i < j < |history| ==> history[i].receipt.chargedAt <= history[j].receipt.chargedAt)
    && (forall i :: 0 <= i < |history| ==> InItsWindow(history[i].receipt))
  }

  ghost predicate Ledgered(s: System) {
    && (s.store.Db? ==> InStep(s.store.accounting, s.history))
    && Ranked(s.history)
    && Timed(s.history)
  }

  lemma DebitStaysRanked(history: seq<Charge>, charge: Charge)
    requires Ranked(history)
    requires Debits(history + [charge], charge.receipt.origin, charge.receipt.window) <= charge.limit
    ensures Ranked(history + [charge])
  {
    var after := history + [charge];
    forall i | 0 <= i < |after| ensures WithinLimit(after, i) {
      if i < |history| {
        assert after[..i + 1] == history[..i + 1];
        assert WithinLimit(history, i);
      } else {
        assert after[..i + 1] == after;
      }
    }
  }

  lemma DebitStaysTimed(history: seq<Charge>, charge: Charge)
    requires Timed(history) && InItsWindow(charge.receipt)
    requires forall i :: 0 <= i < |history| ==> history[i].receipt.chargedAt <= charge.receipt.chargedAt
    ensures Timed(history + [charge])
  {}

  lemma CommitDebitStaysLedgered(s: System, pid: Pid, now: Option<nat>, id: AttemptId, granted: bool)
    requires Controlled(s) && Booked(s) && Ledgered(s) && At(s, pid).AdmitLocked?
    requires now.Some? ==> Harmless(now.value)
    ensures Ledgered(CommitDebitStep(s, pid, At(s, pid).guard, At(s, pid).origin, now, id, granted))
  {
    var guard, origin := At(s, pid).guard, At(s, pid).origin;
    assert s.lock == Some(pid);
    if Refuses(guard, s.store, origin, now, id).None? {
      var charge := Charge(ReceiptFor(guard, origin, now.value, id), guard.maxAttempts, granted);
      WriteStaysInStep(s.store.accounting, s.history, charge);
      DebitStaysWithinLimit(guard, s.store, origin, now.value, id, s.history, charge);
      DebitStaysRanked(s.history, charge);
      DebitStaysTimed(s.history, charge);
      assert s.guard == Some(guard) && guard.phase.Ready?;
    }
  }

  lemma CommitGenerationStaysLedgered(s: System, pid: Pid)
    requires Controlled(s) && Booked(s) && Ledgered(s) && At(s, pid).IntentOut?
    ensures Ledgered(CommitGenerationStep(s, pid, At(s, pid).plan, At(s, pid).found))
  {}

  lemma PublishIntentStaysLedgered(s: System, pid: Pid)
    requires Controlled(s) && Booked(s) && Ledgered(s) && At(s, pid).Planned?
    ensures Ledgered(PublishIntentStep(s, pid, At(s, pid).plan, At(s, pid).found))
  {}

  lemma StepStaysLedgered(s: System, action: Action)
    requires Controlled(s) && Booked(s) && Ledgered(s) && ReadsFrom(action, HARMLESS)
    ensures Ledgered(Step(s, action))
  {
    match action {
      case CommitDebit(p, now, id, granted) =>
        if At(s, p).AdmitLocked? { CommitDebitStaysLedgered(s, p, now, id, granted); }
      case CommitGeneration(p) => if At(s, p).IntentOut? { CommitGenerationStaysLedgered(s, p); }
      case PublishIntent(p) => if At(s, p).Planned? { PublishIntentStaysLedgered(s, p); }
      case PublishReady(p) => if At(s, p).AccountingDone? { assert s.lock == Some(p); }
      case _ => QuietStep(s, action);
    }
  }

  lemma {:induction false} EveryRunIsLedgered(actions: seq<Action>)
    requires ReadingsFrom(actions, HARMLESS)
    ensures Ledgered(Run(actions))
  {
    if actions != [] {
      var init, last := actions[..|actions| - 1], actions[|actions| - 1];
      EveryRunIsLedgered(init);
      EveryRunIsControlled(init);
      EveryRunIsBooked(init);
      assert ReadsFrom(last, HARMLESS);
      StepStaysLedgered(Run(init), last);
    }
  }

  // ----- The allowance itself -----

  /** The last debit of a window, if it has any. */
  lemma {:induction false} LastDebit(history: seq<Charge>, origin: Origin, window: nat) returns (i: nat)
    requires Debits(history, origin, window) > 0
    ensures i < |history| && Charges(history[i].receipt, origin, window)
    ensures Debits(history[..i + 1], origin, window) == Debits(history, origin, window)
    decreases |history|
  {
    i := |history| - 1;
    var init, last := history[..i], history[i];
    assert history == init + [last];
    DebitsExtend(init, last, origin, window);
    if !Charges(last.receipt, origin, window) {
      i := LastDebit(init, origin, window);
      assert init[..i + 1] == history[..i + 1];
    } else {
      assert history[..i + 1] == history;
    }
  }

  /** The debits of this origin and window are at most a limit one of them was checked against. */
  ghost predicate WithinAllowance(history: seq<Charge>, origin: Origin, window: nat) {
    var debits := Debits(history, origin, window);
    debits > 0 ==> exists i :: 0 <= i < |history|
                     && Charges(history[i].receipt, origin, window) && debits <= history[i].limit
  }

  ghost predicate AllowanceHolds(history: seq<Charge>) {
    forall origin, window: nat :: WithinAllowance(history, origin, window)
  }

  lemma RankedWithinAllowance(history: seq<Charge>)
    requires Ranked(history)
    ensures AllowanceHolds(history)
  {
    forall origin, window: nat ensures WithinAllowance(history, origin, window) {
      if Debits(history, origin, window) > 0 {
        var i := LastDebit(history, origin, window);
        assert WithinLimit(history, i);
      }
    }
  }

  /**
   In every run, with crashes, withheld debits, pruning and losses, the debits ever
   committed for an origin and window number at most the limit that one of them was
   checked against. `AllowanceClock` has the exact condition on the clock.
   */
  lemma AllowanceIsNeverExceeded(actions: seq<Action>)
    requires ReadingsFrom(actions, HARMLESS)
    ensures AllowanceHolds(Run(actions).history)
  {
    EveryRunIsLedgered(actions);
    RankedWithinAllowance(Run(actions).history);
  }

  /**
   In every run the attempts table holds exactly the receipts that no later debit's
   window is more than a day past; on harmless readings, those of windows that began at
   most a day before the window of the last charge.
   */
  lemma ReceiptsAreKeptForADay(actions: seq<Action>, receipt: Receipt)
    requires Run(actions).store.Db?
    ensures var s := Run(actions);
            && (receipt in s.store.accounting.attempts <==> Kept(Receipts(s.history), receipt))
            && (ReadingsFrom(actions, HARMLESS) ==>
                  && s.store.accounting.lastCharge >= 0
                  && (receipt in s.store.accounting.attempts <==>
                      && receipt in Receipts(s.history)
                      && receipt.window + 24 * 3_600_000 >= WindowStart(s.store.accounting.lastCharge)))
  {
    EveryRunIsBooked(actions);
    if ReadingsFrom(actions, HARMLESS) {
      EveryRunIsLedgered(actions);
      var s := Run(actions);
      RetainedMembers(Receipts(s.history), Horizon(WindowStart(s.store.accounting.lastCharge)), receipt);
    }
  }

  // ----- Any hour, not only the fixed windows -----

  predicate LimitsAre(actions: seq<Action>, limit: nat) {
    forall i :: 0 <= i < |actions| && actions[i].LockForSetup? ==> actions[i].maxAttempts == limit
  }

  /** The limit a process carries, read from a guard or chosen by its setup. */
  function Carries(proc: Proc): Option<nat> {
    match proc
    case AdmitLocked(guard, _) => Some(guard.maxAttempts)
    case Planned(plan, _) => Some(plan.target.maxAttempts)
    case IntentOut(plan, _) => Some(plan.target.maxAttempts)
    case AccountingDone(plan) => Some(plan.target.maxAttempts)
    case _ => None
  }

  ghost predicate OneLimit(s: System, limit: nat) {
    && (s.guard.Some? ==> s.guard.value.maxAttempts == limit)
    && (forall p: Pid :: Carries(At(s, p)).Some? ==> Carries(At(s, p)).value == limit)
    && (forall i :: 0 <= i < |s.history| ==> s.history[i].limit == limit)
  }

  lemma SetupLockKeepsLimit(s: System, pid: Pid, limit: nat)
    requires OneLimit(s, limit)
    ensures var s' := LockForSetupStep(s, pid, limit);
            s'.guard == s.guard && s'.history == s.history
            && (Carries(At(s', pid)).Some? ==> Carries(At(s', pid)).value == limit)
  {}

  /** The stepping process itself, the guard and the history after the step. */
  lemma OwnStepKeepsLimit(s: System, action: Action, limit: nat)
    requires OneLimit(s, limit) && (action.LockForSetup? ==> action.maxAttempts == limit)
    ensures var s' := Step(s, action);
            && (s'.guard.Some? ==> s'.guard.value.maxAttempts == limit)
            && (!action.Lose? && Carries(At(s', action.pid)).Some? ==> Carries(At(s', action.pid)).value == limit)
            && (forall i :: 0 <= i < |s'.history| ==> s'.history[i].limit == limit)
  {
    if !action.Lose? {
      assert Carries(At(s, action.pid)).Some? ==> Carries(At(s, action.pid)).value == limit;
    }
    if action.LockForSetup? {
      SetupLockKeepsLimit(s, action.pid, limit);
    }
  }

  lemma StepKeepsLimit(s: System, action: Action, limit: nat)
    requires OneLimit(s, limit) && (action.LockForSetup? ==> action.maxAttempts == limit)
    ensures OneLimit(Step(s, action), limit)
  {
    var s' := Step(s, action);
    OwnStepKeepsLimit(s, action, limit);
    forall p: Pid | Carries(At(s', p)).Some? ensures Carries(At(s', p)).value == limit {
      if action.Lose? || action.pid != p {
        StepMovesOnlyItsProcess(s, action, p);
      }
    }
  }

  lemma {:induction false} EveryRunKeepsLimit(actions: seq<Action>, limit: nat)
    requires LimitsAre(actions, limit)
    ensures OneLimit(Run(actions), limit)
  {
    if actions != [] {
      EveryRunKeepsLimit(actions[..|actions| - 1], limit);
      StepKeepsLimit(Run(actions[..|actions| - 1]), actions[|actions| - 1], limit);
    }
  }

  /** The debits of one origin charged in [from, from + one hour). */
  function DebitsInHour(history: seq<Charge>, origin: Origin, from: nat): nat {
    if history == [] then 0
    else
      var r := history[|history| - 1].receipt;
      DebitsInHour(history[..|history| - 1], origin, from)
      + if r.origin == origin && from <= r.chargedAt < from + 3_600_000 then 1 else 0
  }

  lemma HourMeetsTwoWindows(at: nat, from: nat)
    requires from <= at < from + WINDOW_MS
    ensures WindowStart(at) == WindowStart(from) || WindowStart(at) == WindowStart(from) + WINDOW_MS
  {}

  lemma {:induction false} HourIsWithinTwoWindows(history: seq<Charge>, origin: Origin, from: nat)
    requires forall i :: 0 <= i < |history| ==> StoredInItsWindow(history[i].receipt)
    ensures DebitsInHour(history, origin, from)
         <= Debits(history, origin, WindowStart(from)) + Debits(history, origin, WindowStart(from) + WINDOW_MS)
    decreases |history|
  {
    if history != [] {
      var init, last := history[..|history| - 1], history[|history| - 1];
      assert history == init + [last];
      HourIsWithinTwoWindows(init, origin, from);
      DebitsExtend(init, last, origin, WindowStart(from));
      DebitsExtend(init, last, origin, WindowStart(from) + WINDOW_MS);
      assert StoredInItsWindow(last.receipt);
      if from <= last.receipt.chargedAt < from + WINDOW_MS {
        HourMeetsTwoWindows(last.receipt.chargedAt, from);
      }
    }
  }

  /** Where the allowance holds under one limit N, no hour, aligned or not, holds more than 2N debits of an origin. */
  lemma AllowanceBoundsAnyHour(actions: seq<Action>, limit: nat, origin: Origin, from: nat)
    requires LimitsAre(actions, limit) && AllowanceHolds(Run(actions).history)
    ensures DebitsInHour(Run(actions).history, origin, from) <= 2 * limit
  {
    var history := Run(actions).history;
    EveryRunIsBooked(actions);
    EveryRunKeepsLimit(actions, limit);
    HourIsWithinTwoWindows(history, origin, from);
    assert WithinAllowance(history, origin, WindowStart(from));
    assert WithinAllowance(history, origin, WindowStart(from) + WINDOW_MS);
  }
}
