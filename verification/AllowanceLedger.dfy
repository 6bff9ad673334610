/**
 The pruned accounting against the unpruned history of debits. A debit at a
 reading the signed column can hold keeps the two in step; one past it may lose
 the fence against older windows.
 */
module AllowanceLedger {
  import opened Basics
  import opened Allowance

  /** One committed debit: its receipt, the limit it was checked against, and whether the caller was told. */
  datatype Charge = Charge(receipt: Receipt, limit: nat, granted: bool)

  function Receipts(history: seq<Charge>): (r: seq<Receipt>)
    ensures |r| == |history|
    ensures forall i :: 0 <= i < |r| ==> r[i] == history[i].receipt
  {
    seq(|history|, i requires 0 <= i < |history| => history[i].receipt)
  }

  /** The debits ever committed for an origin and window. */
  function Debits(history: seq<Charge>, origin: Origin, window: nat): nat {
    CountReceipts(Receipts(history), origin, window)
  }

  lemma DebitsExtend(history: seq<Charge>, charge: Charge, origin: Origin, window: nat)
    ensures Debits(history + [charge], origin, window)
         == Debits(history, origin, window) + if Charges(charge.receipt, origin, window) then 1 else 0
  {
    var rs := Receipts(history + [charge]);
    assert rs[..|rs| - 1] == Receipts(history);
  }

  // ----- Pruning -----

  lemma {:induction false} RetainedCount(rs: seq<Receipt>, horizon: nat, origin: Origin, window: nat)
    ensures CountReceipts(Retained(rs, horizon), origin, window)
         == if window >= horizon then CountReceipts(rs, origin, window) else 0
  {
    if rs != [] {
      var init, last := rs[..|rs| - 1], rs[|rs| - 1];
      RetainedCount(init, horizon, origin, window);
      var kept := Retained(init, horizon);
      assert (kept + [last])[..|kept|] == kept;
    }
  }

  lemma {:induction false} RetainedAgain(rs: seq<Receipt>, horizon: nat, later: nat)
    requires horizon <= later
    ensures Retained(Retained(rs, horizon), later) == Retained(rs, later)
  {
    if rs != [] {
      var init, last := rs[..|rs| - 1], rs[|rs| - 1];
      RetainedAgain(init, horizon, later);
      var kept := Retained(init, horizon);
      assert (kept + [last])[..|kept|] == kept;
    }
  }

  /** Pruning twice, with a row added between, prunes once. */
  lemma RetainedWithNew(rs: seq<Receipt>, receipt: Receipt, horizon: nat, later: nat)
    requires horizon <= later <= receipt.window
    ensures Retained(Retained(rs, horizon) + [receipt], later) == Retained(rs + [receipt], later)
  {
    RetainedAgain(rs, horizon, later);
    var kept := Retained(rs, horizon);
    assert (kept + [receipt])[..|kept|] == kept;
    assert (rs + [receipt])[..|rs|] == rs;
  }

  lemma WindowsFollowClock(earlier: nat, later: nat)
    requires earlier <= later
    ensures WindowStart(earlier) <= WindowStart(later) <= later < WindowEnd(later)
    ensures Horizon(WindowStart(earlier)) <= Horizon(WindowStart(later)) <= WindowStart(later)
  {}

  // ----- The accounting and the history in step -----

  /** The table holds exactly the unpruned history from the last charge's horizon on. */
  ghost predicate InStep(accounting: Accounting, history: seq<Charge>) {
    && 0 <= accounting.lastCharge <= I64_MAX
    && accounting.attempts == Retained(Receipts(history), Horizon(WindowStart(accounting.lastCharge)))
    && (forall i :: 0 <= i < |history| ==> history[i].receipt.chargedAt <= accounting.lastCharge)
    && accounting.lastCharge == LastTime(history)
  }

  /** The latest committed charge's time, as stored; zero before the first. */
  function LastTime(history: seq<Charge>): int {
    if history == [] then 0 else history[|history| - 1].receipt.chargedAt
  }

  /** For every origin and window the charge total is the number of receipts. */
  ghost predicate TotalsMatchReceipts(accounting: Accounting) {
    forall origin, window: nat ::
      Charged(accounting, origin, window) == CountReceipts(accounting.attempts, origin, window)
  }

  lemma WriteKeepsTotals(accounting: Accounting, receipt: Receipt)
    requires TotalsMatchReceipts(accounting)
    requires Horizon(receipt.window) <= receipt.window
    ensures TotalsMatchReceipts(Write(accounting, receipt))
  {
    var after := Write(accounting, receipt);
    var rs, horizon := accounting.attempts + [receipt], Horizon(receipt.window);
    assert rs[..|rs| - 1] == accounting.attempts;
    forall origin, window: nat
      ensures Charged(after, origin, window) == CountReceipts(after.attempts, origin, window)
    {
      RetainedCount(rs, horizon, origin, window);
      assert Charged(accounting, origin, window) == CountReceipts(accounting.attempts, origin, window);
    }
  }

  /**
   What the check under the lock counts is every debit ever committed for that
   window: a window that an admission can still reach has never been pruned.
   */
  lemma NothingPrunedIsReachable(accounting: Accounting, history: seq<Charge>, origin: Origin, now: nat)
    requires InStep(accounting, history) && TotalsMatchReceipts(accounting) && accounting.lastCharge <= now
    ensures Charged(accounting, origin, WindowStart(now)) == Debits(history, origin, WindowStart(now))
  {
    WindowsFollowClock(accounting.lastCharge, now);
    RetainedCount(Receipts(history), Horizon(WindowStart(accounting.lastCharge)), origin, WindowStart(now));
  }

  /** A debit at a later reading keeps the accounting in step. */
  lemma WriteStaysInStep(accounting: Accounting, history: seq<Charge>, charge: Charge)
    requires InStep(accounting, history)
    requires accounting.lastCharge <= charge.receipt.chargedAt <= I64_MAX
    requires charge.receipt.window == WindowStart(charge.receipt.chargedAt)
    ensures InStep(Write(accounting, charge.receipt), history + [charge])
  {
    var receipt, before := charge.receipt, Horizon(WindowStart(accounting.lastCharge));
    WindowsFollowClock(accounting.lastCharge, receipt.chargedAt);
    assert Receipts(history + [charge]) == Receipts(history) + [receipt];
    var after := Write(accounting, receipt);
    assert after.lastCharge == receipt.chargedAt && Horizon(WindowStart(after.lastCharge)) == Horizon(receipt.window);
    RetainedWithNew(Receipts(history), receipt, before, Horizon(receipt.window));
    assert after.attempts == Retained(Receipts(history + [charge]), Horizon(receipt.window));
  }

  /** A debit that is not refused leaves its window within the limit it was checked against. */
  lemma DebitStaysWithinLimit(guard: Guard, store: Store, origin: Origin, now: nat, id: AttemptId,
                              history: seq<Charge>, charge: Charge)
    requires store.Db? && InStep(store.accounting, history) && TotalsMatchReceipts(store.accounting)
    requires Refuses(guard, store, origin, Some(now), id).None?
    requires charge.receipt == ReceiptFor(guard, origin, now, id)
    ensures Debits(history + [charge], origin, WindowStart(now)) <= guard.maxAttempts
  {
    NothingPrunedIsReachable(store.accounting, history, origin, now);
    DebitsExtend(history, charge, origin, WindowStart(now));
  }

  // ----- Readings past the signed column -----

  /** The window that the signed maximum lies in: part of it is past the column. */
  const LAST_WINDOW: nat := WindowStart(I64_MAX)

  /** A reading the signed column can hold, or one so late that its window is refused. */
  predicate Harmless(now: nat) {
    now <= I64_MAX || WindowStart(now) > I64_MAX
  }

  /** Past the column, yet in a window the column can hold. */
  lemma HarmfulWindow(now: nat)
    requires !Harmless(now)
    ensures WindowStart(now) == LAST_WINDOW && AsI64(now) < 0
  {}

  /** Every reading this accounting still admits lies in a window that a prune at `horizon` keeps. */
  ghost predicate FencedFrom(accounting: Accounting, horizon: nat) {
    forall later: nat :: accounting.lastCharge <= later ==> horizon <= WindowStart(later)
  }

  /**
   The fence, exactly: a debit leaves no pruned window open to a later admission if
   and only if its reading is harmless, or the charge before it is recent enough
   that nothing the prune took was open anyway.
   */
  lemma FenceStandsExactly(guard: Guard, accounting: Accounting, origin: Origin, now: nat, id: AttemptId)
    requires Refuses(guard, Db(accounting), origin, Some(now), id).None?
    ensures FencedFrom(Write(accounting, ReceiptFor(guard, origin, now, id)), Horizon(WindowStart(now)))
            <==> Harmless(now) || Horizon(WindowStart(now)) <= WindowStart(accounting.lastCharge)
  {}
}
