/**
 The shared request allowance: a guard file and an accounting database with no
 transaction across the two. Setup and debit as functions of the stores' values,
 and the class whose methods update the stores step by step.
 */
module Allowance {
  import opened Basics

  const MAX_ATTEMPTS_LIMIT: nat := 10_000
  const WINDOW_MS: nat := 3_600_000
  const RETAINED_WINDOWS: nat := 24

  type Origin = string
  type AttemptId = nat

  datatype Phase = Intent | Ready

  datatype Guard = Guard(phase: Phase, generation: nat, maxAttempts: nat)

  /** One row of the attempts table. The charge time is a signed 64-bit column. */
  datatype Receipt = Receipt(id: AttemptId, origin: Origin, window: nat, generation: nat, chargedAt: int)

  datatype Accounting = Accounting(
    generation: nat,
    lastCharge: int,
    charges: map<(Origin, nat), nat>,
    attempts: seq<Receipt>)

  /** `Empty` is a database file without a schema. */
  datatype Store = Missing | Empty | Db(accounting: Accounting)

  datatype Error =
    | State
    | Exhausted(maxAttempts: nat, windowEnd: nat)
    | InvalidRequest

  // ----- Time -----

  function WindowStart(now: nat): nat {
    now - now % WINDOW_MS
  }

  function WindowEnd(now: nat): nat {
    WindowStart(now) + WINDOW_MS
  }

  /** A 64-bit reading stored through `as i64`: readings past the signed maximum wrap below zero. */
  function AsI64(now: nat): int {
    if now <= I64_MAX then now else now - (U64_MAX + 1)
  }

  /** The oldest window a debit in window `window` keeps. */
  function Horizon(window: nat): nat {
    if window < RETAINED_WINDOWS * WINDOW_MS then 0 else window - RETAINED_WINDOWS * WINDOW_MS
  }

  // ----- Setup -----

  datatype Plan = Plan(target: Guard, noChange: bool, resumesIntent: bool)

  predicate ValidLimit(maxAttempts: nat) {
    1 <= maxAttempts <= MAX_ATTEMPTS_LIMIT
  }

  /** A guard the decoder accepts. */
  predicate Decodable(guard: Guard) {
    1 <= guard.generation <= I64_MAX && ValidLimit(guard.maxAttempts)
  }

  predicate InitialIntent(guard: Guard, maxAttempts: nat) {
    guard.phase.Intent? && guard.generation == 1 && guard.maxAttempts == maxAttempts
  }

  function NextGeneration(previous: Option<Guard>, accountingGeneration: nat): Result<nat, Error> {
    var next := Max(if previous.Some? then previous.value.generation else 0, accountingGeneration) + 1;
    if next <= I64_MAX then Ok(next) else Err(State)
  }

  function PlanAt(generation: Result<nat, Error>, maxAttempts: nat): Result<Plan, Error> {
    if generation.Err? then Err(generation.error)
    else Ok(Plan(Guard(Ready, generation.value, maxAttempts), false, false))
  }

  /** `plan_setup` */
  function PlanSetup(previous: Option<Guard>, accountingGeneration: nat, maxAttempts: nat): Result<Plan, Error> {
    if !ValidLimit(maxAttempts) then Err(InvalidRequest)
    else if accountingGeneration > I64_MAX
            || (previous.Some? && (previous.value.generation == 0 || previous.value.generation > I64_MAX)) then
      Err(State)
    else if accountingGeneration == 0 && previous.Some? && !InitialIntent(previous.value, maxAttempts) then
      Err(State)
    else if previous.Some? && previous.value.maxAttempts == maxAttempts then
      var guard := previous.value;
      match guard.phase
      case Ready =>
        if accountingGeneration == guard.generation then Ok(Plan(guard, true, false))
        else PlanAt(NextGeneration(previous, accountingGeneration), maxAttempts)
      case Intent =>
        Ok(Plan(Guard(Ready, Max(guard.generation, accountingGeneration), maxAttempts), false, true))
    else PlanAt(NextGeneration(previous, accountingGeneration), maxAttempts)
  }

  /** Only a first activation, or the exact retry of its intent, may create the accounting. */
  predicate MayCreate(previous: Option<Guard>, maxAttempts: nat) {
    previous.None? || InitialIntent(previous.value, maxAttempts)
  }

  /** The generation `read_meta` finds; no schema reads as zero. */
  function GenerationOf(store: Store): nat {
    if store.Db? then store.accounting.generation else 0
  }

  /** What `read_meta` accepts of an initialized database. */
  predicate ReadableMeta(store: Store) {
    store.Db? ==> 0 < store.accounting.generation <= I64_MAX && 0 <= store.accounting.lastCharge
  }

  function OpenForSetup(store: Store, create: bool): Result<Store, Error> {
    if store.Missing? then (if create then Ok(Empty) else Err(State))
    else if !ReadableMeta(store) then Err(State)
    else Ok(store)
  }

  /** Setup step two: the accounting takes the intent's generation and keeps every charge. */
  function AdvanceAccounting(store: Store, expected: nat, generation: nat): Result<Store, Error> {
    if store.Missing? || !ReadableMeta(store) || GenerationOf(store) != expected then Err(State)
    else if store.Empty? then Ok(Db(Accounting(generation, 0, map[], [])))
    else Ok(Db(store.accounting.(generation := generation)))
  }

  datatype SetupStep = IntentPublished | AccountingReady

  datatype SetupEffect = SetupEffect(guard: Option<Guard>, store: Store, result: Result<Plan, Error>)

  /** The planned steps up to the interruption, on stores no other process touches meanwhile. */
  function SetupSteps(store: Store, plan: Plan, interrupt: Option<SetupStep>): SetupEffect {
    var intent := Some(plan.target.(phase := Intent));
    if interrupt == Some(IntentPublished) then SetupEffect(intent, store, Ok(plan))
    else
      var advanced := AdvanceAccounting(store, GenerationOf(store), plan.target.generation);
      if advanced.Err? then SetupEffect(intent, store, Err(advanced.error))
      else SetupEffect(if interrupt.Some? then intent else Some(plan.target), advanced.value, Ok(plan))
  }

  /** `apply_setup` as a whole. */
  function Setup(guard: Option<Guard>, store: Store, maxAttempts: nat, interrupt: Option<SetupStep>): SetupEffect {
    if !ValidLimit(maxAttempts) then SetupEffect(guard, store, Err(InvalidRequest))
    else
      var access := OpenForSetup(store, MayCreate(guard, maxAttempts));
      if access.Err? then SetupEffect(guard, store, Err(access.error))
      else
        var plan := PlanSetup(guard, GenerationOf(access.value), maxAttempts);
        if plan.Err? || plan.value.noChange then SetupEffect(guard, access.value, plan)
        else SetupSteps(access.value, plan.value, interrupt)
  }

  /**
   Resuming an interrupted setup with its own limit, uninterrupted, reaches ready at
   the intent's generation. Every charge, every receipt and the last charge time
   are as they were.
   */
  lemma RetryCompletesTheIntent(guard: Guard, store: Store)
    requires guard.phase.Intent? && Decodable(guard)
    requires store.Db? ==> ReadableMeta(store) && store.accounting.generation <= guard.generation
    requires !store.Db? ==> guard.generation == 1
    ensures var e := Setup(Some(guard), store, guard.maxAttempts, None);
            && e.result.Ok? && e.result.value.resumesIntent
            && e.guard == Some(guard.(phase := Ready))
            && e.store.Db? && e.store.accounting.generation == guard.generation
            && (store.Db? ==> e.store == Db(store.accounting.(generation := guard.generation)))
            && (!store.Db? ==> e.store.accounting.charges == map[] && e.store.accounting.attempts == [])
  {}

  /** Setup again with the same limit finds nothing to do and changes nothing. */
  lemma SetupIsIdempotent(guard: Option<Guard>, store: Store, maxAttempts: nat)
    requires Setup(guard, store, maxAttempts, None).result.Ok?
    ensures var e := Setup(guard, store, maxAttempts, None);
            var again := Setup(e.guard, e.store, maxAttempts, None);
            && again.result.Ok? && again.result.value.noChange
            && again.guard == e.guard && again.store == e.store
  {
    var e := Setup(guard, store, maxAttempts, None);
    assert e.guard == Some(Guard(Ready, e.store.accounting.generation, maxAttempts));
  }

  /** Refused, interrupted after any step or complete, setup changes no charge, receipt or last charge time. */
  lemma SetupKeepsEveryCharge(guard: Option<Guard>, accounting: Accounting, maxAttempts: nat,
                              interrupt: Option<SetupStep>)
    ensures var e := Setup(guard, Db(accounting), maxAttempts, interrupt);
            e.store.Db? && e.store.accounting == accounting.(generation := e.store.accounting.generation)
  {}

  // ----- Charges -----

  function Charged(accounting: Accounting, origin: Origin, window: nat): nat {
    if (origin, window) in accounting.charges then accounting.charges[(origin, window)] else 0
  }

  predicate Charges(receipt: Receipt, origin: Origin, window: nat) {
    receipt.origin == origin && receipt.window == window
  }

  function CountReceipts(attempts: seq<Receipt>, origin: Origin, window: nat): nat {
    if attempts == [] then 0
    else CountReceipts(attempts[..|attempts| - 1], origin, window)
         + if Charges(attempts[|attempts| - 1], origin, window) then 1 else 0
  }

  /** The scan with a row limit: how many matching rows it yields. */
  method ScanReceipts(attempts: seq<Receipt>, origin: Origin, window: nat, limit: nat) returns (found: nat)
    ensures found == Min(CountReceipts(attempts, origin, window), limit)
  {
    found := 0;
    var i := 0;
    while i < |attempts| && found < limit
      invariant 0 <= i <= |attempts|
      invariant found == CountReceipts(attempts[..i], origin, window) <= limit
    {
      assert attempts[..i + 1][..i] == attempts[..i];
      if Charges(attempts[i], origin, window) {
        found := found + 1;
      }
      i := i + 1;
    }
    assert attempts[..|attempts|] == attempts;
    CountGrows(attempts, i, origin, window);
  }

  lemma {:induction false} CountGrows(attempts: seq<Receipt>, i: nat, origin: Origin, window: nat)
    requires i <= |attempts|
    ensures CountReceipts(attempts[..i], origin, window) <= CountReceipts(attempts, origin, window)
    decreases |attempts|
  {
    if i == |attempts| {
      assert attempts[..i] == attempts;
    } else {
      assert attempts[..|attempts| - 1][..i] == attempts[..i];
      CountGrows(attempts[..|attempts| - 1], i, origin, window);
    }
  }

  /** The window's total, or an error where it disagrees with its receipts. */
  function VerifiedCharged(accounting: Accounting, origin: Origin, window: nat): Result<nat, Error> {
    var total := Charged(accounting, origin, window);
    if window > I64_MAX || total > U32_MAX then Err(State)
    else if CountReceipts(accounting.attempts, origin, window) != total then Err(State)
    else Ok(total)
  }

  /** One row past the total is enough to decide whether receipts and total agree. */
  method VerifyCharged(accounting: Accounting, origin: Origin, window: nat) returns (r: Result<nat, Error>)
    ensures r == VerifiedCharged(accounting, origin, window)
  {
    var total := Charged(accounting, origin, window);
    if window > I64_MAX || total > U32_MAX {
      return Err(State);
    }
    var receipts := ScanReceipts(accounting.attempts, origin, window, total + 1);
    if receipts != total {
      return Err(State);
    }
    r := Ok(total);
  }

  // ----- The debit -----

  predicate Used(attempts: seq<Receipt>, id: AttemptId) {
    exists i :: 0 <= i < |attempts| && attempts[i].id == id
  }

  /** The rows a prune at `horizon` keeps, in order. */
  function Retained(attempts: seq<Receipt>, horizon: nat): (kept: seq<Receipt>)
    ensures forall i :: 0 <= i < |kept| ==> kept[i] in attempts && kept[i].window >= horizon
  {
    if attempts == [] then []
    else
      var kept, last := Retained(attempts[..|attempts| - 1], horizon), attempts[|attempts| - 1];
      if last.window >= horizon then kept + [last] else kept
  }

  function RetainedCharges(charges: map<(Origin, nat), nat>, horizon: nat): map<(Origin, nat), nat> {
    map k | k in charges && k.1 >= horizon :: charges[k]
  }

  /** The transaction's writes: charge, receipt, last charge time, prune. */
  function Write(accounting: Accounting, receipt: Receipt): Accounting {
    var key := (receipt.origin, receipt.window);
    var charges := accounting.charges[key := Charged(accounting, receipt.origin, receipt.window) + 1];
    var horizon := Horizon(receipt.window);
    Accounting(
      accounting.generation,
      Max(accounting.lastCharge, receipt.chargedAt),
      RetainedCharges(charges, horizon),
      Retained(accounting.attempts + [receipt], horizon))
  }

  /** Why the locked part of an admission refuses, if it does. `now` is absent when the clock reads before 1970. */
  function Refuses(guard: Guard, store: Store, origin: Origin, now: Option<nat>, id: AttemptId): Option<Error> {
    if guard.phase.Intent? || !store.Db? || !ReadableMeta(store) then Some(State)
    else if store.accounting.generation != guard.generation || now.None? then Some(State)
    else if now.value < store.accounting.lastCharge then Some(State)
    else
      var used := VerifiedCharged(store.accounting, origin, WindowStart(now.value));
      if used.Err? then Some(used.error)
      else if used.value >= guard.maxAttempts then Some(Exhausted(guard.maxAttempts, WindowEnd(now.value)))
      else if Used(store.accounting.attempts, id) then Some(State)
      else None
  }

  function ReceiptFor(guard: Guard, origin: Origin, now: nat, id: AttemptId): Receipt {
    Receipt(id, origin, WindowStart(now), guard.generation, AsI64(now))
  }

  // ----- Inspection -----

  datatype Health =
    | Disabled | SetupIncomplete | GenerationMismatch | AccountingMissing | Invalid | ClockBehindCharges | Healthy

  datatype Inspection = Inspection(guard: Option<Guard>, health: Health, charged: Option<nat>)

  /** `inspect`, on a guard that decodes. */
  function Inspect(guard: Option<Guard>, store: Store, origin: Origin, now: nat): Inspection {
    var used := if store.Db? then VerifiedCharged(store.accounting, origin, WindowStart(now)) else Err(State);
    if !ReadableMeta(store) || (store.Db? && used.Err?) then
      Inspection(guard, if guard.Some? then Invalid else Disabled, None)
    else
      var charged := if store.Db? then Some(used.value) else None;
      if guard.None? then Inspection(guard, Disabled, charged)
      else
        var health :=
          if guard.value.phase.Intent? then SetupIncomplete
          else if !store.Db? then AccountingMissing
          else if store.accounting.generation != guard.value.generation then GenerationMismatch
          else if now < store.accounting.lastCharge then ClockBehindCharges
          else Healthy;
        Inspection(guard, health, charged)
  }

  function Remaining(report: Inspection): Option<nat> {
    if report.guard.None? || report.charged.None? then None
    else Some(Max(0, report.guard.value.maxAttempts - report.charged.value))
  }

  /**
   The report promises exactly what admission grants: health is good with attempts
   remaining if and only if an admission on the same stores and clock would debit.
   */
  lemma InspectionPredictsAdmission(guard: Guard, store: Store, origin: Origin, now: nat, id: AttemptId)
    requires store.Db? ==> !Used(store.accounting.attempts, id)
    ensures var report := Inspect(Some(guard), store, origin, now);
            (report.health.Healthy? && Remaining(report).Some? && Remaining(report).value > 0)
            <==> Refuses(guard, store, origin, Some(now), id).None?
  {}

  // ----- The stores as the program updates them -----

  datatype Debit = Debit(id: AttemptId, generation: nat, window: nat, charged: nat, maxAttempts: nat)

  datatype Admission = Unguarded | Debited(debit: Debit)

  /** Whether a deadline or a failed check stops an admission, and on which side of its commit. */
  datatype Deadline = Meets | ExpiresBeforeCommit | ExpiresAfterCommit

  datatype AdmitEffect = AdmitEffect(store: Store, result: Result<Admission, Error>)

  /** `admit` as a whole, on a guard that does not change meanwhile. */
  function AdmitOn(guard: Option<Guard>, store: Store, origin: Origin, persistent: bool, now: Option<nat>,
                   id: AttemptId, deadline: Deadline): AdmitEffect
  {
    if guard.None? then AdmitEffect(store, Ok(Unguarded))
    else if !persistent || deadline.ExpiresBeforeCommit? then AdmitEffect(store, Err(State))
    else
      var refusal := Refuses(guard.value, store, origin, now, id);
      if refusal.Some? then AdmitEffect(store, Err(refusal.value))
      else
        var receipt := ReceiptFor(guard.value, origin, now.value, id);
        var charged := Charged(store.accounting, origin, receipt.window) + 1;
        AdmitEffect(
          Db(Write(store.accounting, receipt)),
          if deadline.ExpiresAfterCommit? then Err(State)
          else Ok(Debited(Debit(id, guard.value.generation, receipt.window, charged, guard.value.maxAttempts))))
  }

  class Stores {
    var guard: Option<Guard>
    var store: Store

    constructor ()
      ensures guard == None && store == Missing
    {
      guard, store := None, Missing;
    }

    /** `apply_setup`, stopping after a step where `interrupt` says so, as a crash there would. */
    method ApplySetup(maxAttempts: nat, interrupt: Option<SetupStep>) returns (r: Result<Plan, Error>)
      modifies this
      ensures SetupEffect(guard, store, r) == Setup(old(guard), old(store), maxAttempts, interrupt)
    {
      if !ValidLimit(maxAttempts) {
        return Err(InvalidRequest);
      }
      var previous := guard;
      var create := previous.None? ||
        (previous.value.phase.Intent? && previous.value.generation == 1 && previous.value.maxAttempts == maxAttempts);
      if store.Missing? {
        if !create {
          return Err(State);
        }
        store := Empty;
      }
      if !ReadableMeta(store) {
        return Err(State);
      }
      var accountingGeneration := GenerationOf(store);
      r := PlanSetup(previous, accountingGeneration, maxAttempts);
      if r.Err? || r.value.noChange {
        return;
      }
      // From this publication to the last one every admission is refused.
      guard := Some(r.value.target.(phase := Intent));
      if interrupt == Some(IntentPublished) {
        return;
      }
      // Only the generation of the accounting moves.
      if store.Empty? {
        store := Db(Accounting(r.value.target.generation, 0, map[], []));
      } else {
        store := Db(store.accounting.(generation := r.value.target.generation));
      }
      if interrupt.Some? {
        assert interrupt.value.AccountingReady?;
        return;
      }
      // Admissions may debit again.
      guard := Some(r.value.target);
    }

    /**
     `admit`: grants without a guard, refuses as `Refuses` says, and otherwise
     commits one debit, kept even when the answer comes too late to be granted.
     */
    method Admit(origin: Origin, persistent: bool, now: Option<nat>, id: AttemptId, deadline: Deadline)
      returns (r: Result<Admission, Error>)
      modifies this
      ensures guard == old(guard)
      ensures AdmitEffect(store, r) == AdmitOn(old(guard), old(store), origin, persistent, now, id, deadline)
    {
      if guard.None? {
        return Ok(Unguarded);
      }
      if !persistent || deadline.ExpiresBeforeCommit? {
        return Err(State);
      }
      var g := guard.value;
      if g.phase.Intent? || !store.Db? || !ReadableMeta(store) {
        return Err(State);
      }
      var accounting := store.accounting;
      if accounting.generation != g.generation || now.None? || now.value < accounting.lastCharge {
        return Err(State);
      }
      var window := WindowStart(now.value);
      var verified := VerifyCharged(accounting, origin, window);
      if verified.Err? {
        return Err(verified.error);
      }
      if verified.value >= g.maxAttempts {
        return Err(Exhausted(g.maxAttempts, window + WINDOW_MS));
      }
      if Used(accounting.attempts, id) {
        return Err(State);
      }
      var receipt := Receipt(id, origin, window, g.generation, AsI64(now.value));
      var charges := accounting.charges[(origin, window) := Charged(accounting, origin, window) + 1];
      var attempts := accounting.attempts + [receipt];
      var lastCharge := Max(accounting.lastCharge, receipt.chargedAt);
      var horizon := Horizon(window);
      attempts := Retained(attempts, horizon);
      charges := RetainedCharges(charges, horizon);
      store := Db(Accounting(accounting.generation, lastCharge, charges, attempts));
      if deadline.ExpiresAfterCommit? {
        return Err(State);
      }
      r := Ok(Debited(Debit(id, g.generation, window, verified.value + 1, g.maxAttempts)));
    }
  }
}
