/**
 Every run of the allowance: any number of processes set up and admit, crash
 after any durable step, read arbitrary clocks, and the accounting may be lost at
 any moment. `history` keeps every debit ever committed and is never pruned.
 */
module AllowanceRuns {
  import opened Basics
  import opened Allowance
  import opened AllowanceLedger

  type Pid = nat

  /** Where a process stands. Every state from `AdmitLocked` on holds the guard lock. */
  datatype Proc =
    | Idle
    | Starting
    | ReturningUnguarded
    | WaitingForLock(origin: Origin)
    | AdmitLocked(guard: Guard, origin: Origin)
    | Planned(plan: Plan, found: nat)
    | IntentOut(plan: Plan, found: nat)
    | AccountingDone(plan: Plan)

  datatype Event =
    | Started(pid: Pid)
    | Published(guard: Guard)
    | GrantedUnguarded(pid: Pid)
    | Committed(charge: Charge)

  datatype System = System(
    guard: Option<Guard>,
    store: Store,
    lost: bool,
    lock: Option<Pid>,
    procs: map<Pid, Proc>,
    history: seq<Charge>,
    log: seq<Event>)

  datatype Action =
    | Start(pid: Pid)
    | ReadUnlocked(pid: Pid, origin: Origin)
    | ReturnUnguarded(pid: Pid)
    | LockForAdmission(pid: Pid)
    | CommitDebit(pid: Pid, now: Option<nat>, id: AttemptId, granted: bool)
    | LockForSetup(pid: Pid, maxAttempts: nat)
    | PublishIntent(pid: Pid)
    | CommitGeneration(pid: Pid)
    | PublishReady(pid: Pid)
    | Stop(pid: Pid)
    | Lose(left: Store)

  const INITIAL: System := System(None, Missing, false, None, map[], [], [])

  function At(s: System, pid: Pid): Proc {
    if pid in s.procs then s.procs[pid] else Idle
  }

  function Goto(s: System, pid: Pid, proc: Proc): System {
    s.(procs := s.procs[pid := proc])
  }

  predicate Holds(proc: Proc) {
    proc.AdmitLocked? || proc.Planned? || proc.IntentOut? || proc.AccountingDone?
  }

  /** Crash, refusal, expired deadline or failed check: the process leaves, and with it its lock. */
  function Leave(s: System, pid: Pid): System {
    Goto(s, pid, Idle).(lock := if s.lock == Some(pid) then None else s.lock)
  }

  // ----- The steps; an action that does not apply changes nothing -----

  /** The unlocked read, or the locked one, found no guard: the admission is already decided. */
  function ReadStep(s: System, pid: Pid, origin: Origin): System {
    Goto(s, pid, if s.guard.None? then ReturningUnguarded else WaitingForLock(origin))
  }

  function LockForAdmissionStep(s: System, pid: Pid, origin: Origin): System {
    if s.guard.None? then Goto(s, pid, ReturningUnguarded)
    else Goto(s, pid, AdmitLocked(s.guard.value, origin)).(lock := Some(pid))
  }

  function CommitDebitStep(s: System, pid: Pid, guard: Guard, origin: Origin, now: Option<nat>, id: AttemptId,
                           granted: bool): System
  {
    if Refuses(guard, s.store, origin, now, id).Some? then Leave(s, pid)
    else
      var receipt := ReceiptFor(guard, origin, now.value, id);
      var charge := Charge(receipt, guard.maxAttempts, granted);
      Leave(s, pid).(
        store := Db(Write(s.store.accounting, receipt)),
        history := s.history + [charge],
        log := s.log + [Committed(charge)])
  }

  function LockForSetupStep(s: System, pid: Pid, maxAttempts: nat): System {
    var access := OpenForSetup(s.store, MayCreate(s.guard, maxAttempts));
    if !ValidLimit(maxAttempts) || access.Err? then s
    else
      var found := GenerationOf(access.value);
      var plan := PlanSetup(s.guard, found, maxAttempts);
      if plan.Err? || plan.value.noChange then s.(store := access.value)
      else Goto(s, pid, Planned(plan.value, found)).(store := access.value, lock := Some(pid))
  }

  function PublishIntentStep(s: System, pid: Pid, plan: Plan, found: nat): System {
    var intent := plan.target.(phase := Intent);
    Goto(s, pid, IntentOut(plan, found)).(guard := Some(intent), log := s.log + [Published(intent)])
  }

  function CommitGenerationStep(s: System, pid: Pid, plan: Plan, found: nat): System {
    var advanced := AdvanceAccounting(s.store, found, plan.target.generation);
    if advanced.Err? then Leave(s, pid)
    else Goto(s, pid, AccountingDone(plan)).(store := advanced.value)
  }

  function PublishReadyStep(s: System, pid: Pid, plan: Plan): System {
    Leave(s, pid).(guard := Some(plan.target), log := s.log + [Published(plan.target)])
  }

  function Step(s: System, action: Action): System {
    match action
    case Start(p) =>
      if At(s, p).Idle? then Goto(s, p, Starting).(log := s.log + [Started(p)]) else s
    case ReadUnlocked(p, origin) =>
      if At(s, p).Starting? then ReadStep(s, p, origin) else s
    case ReturnUnguarded(p) =>
      if At(s, p).ReturningUnguarded? then Goto(s, p, Idle).(log := s.log + [GrantedUnguarded(p)]) else s
    case LockForAdmission(p) =>
      if At(s, p).WaitingForLock? && s.lock.None? then LockForAdmissionStep(s, p, At(s, p).origin) else s
    case CommitDebit(p, now, id, granted) =>
      if At(s, p).AdmitLocked? then CommitDebitStep(s, p, At(s, p).guard, At(s, p).origin, now, id, granted) else s
    case LockForSetup(p, maxAttempts) =>
      if At(s, p).Idle? && s.lock.None? then LockForSetupStep(s, p, maxAttempts) else s
    case PublishIntent(p) =>
      if At(s, p).Planned? then PublishIntentStep(s, p, At(s, p).plan, At(s, p).found) else s
    case CommitGeneration(p) =>
      if At(s, p).IntentOut? then CommitGenerationStep(s, p, At(s, p).plan, At(s, p).found) else s
    case PublishReady(p) =>
      if At(s, p).AccountingDone? then PublishReadyStep(s, p, At(s, p).plan) else s
    case Stop(p) => Leave(s, p)
    case Lose(left) => if left.Db? then s else s.(store := left, lost := true)
  }

  function Run(actions: seq<Action>): System {
    if actions == [] then INITIAL else Step(Run(actions[..|actions| - 1]), actions[|actions| - 1])
  }

  /** A step moves no process but its own. */
  lemma StepMovesOnlyItsProcess(s: System, action: Action, p: Pid)
    requires action.Lose? || action.pid != p
    ensures At(Step(s, action), p) == At(s, p)
  {}

  // ----- The machine's steps and the whole operations -----

  /** One process's setup steps in a row do what `apply_setup` does in one call. */
  lemma SetupStepsAreSetup(s: System, pid: Pid, maxAttempts: nat)
    requires At(s, pid).Idle? && s.lock.None?
    ensures var s' := Step(Step(Step(Step(s, LockForSetup(pid, maxAttempts)), PublishIntent(pid)),
                                CommitGeneration(pid)), PublishReady(pid));
            var e := Setup(s.guard, s.store, maxAttempts, None);
            s'.guard == e.guard && s'.store == e.store && s'.lock.None? && s'.history == s.history
  {
    var s1 := Step(s, LockForSetup(pid, maxAttempts));
    if At(s1, pid).Planned? {
      PlannedCompletes(s1, pid, At(s1, pid).plan, At(s1, pid).found);
    }
  }

  lemma PlannedCompletes(s: System, pid: Pid, plan: Plan, found: nat)
    requires At(s, pid) == Planned(plan, found) && s.lock == Some(pid)
    requires !s.store.Missing? && ReadableMeta(s.store) && GenerationOf(s.store) == found
    ensures var s' := Step(Step(Step(s, PublishIntent(pid)), CommitGeneration(pid)), PublishReady(pid));
            && s'.guard == Some(plan.target) && s'.lock.None? && s'.history == s.history
            && Ok(s'.store) == AdvanceAccounting(s.store, found, plan.target.generation)
  {}

  /**
   One process's admission steps in a row do what `admit` does in one call, and log an
   unguarded grant exactly when that is its answer. Steps that do not apply do nothing.
   */
  lemma AdmissionStepsAreAdmission(s: System, pid: Pid, origin: Origin, now: Option<nat>, id: AttemptId, granted: bool)
    requires At(s, pid).Idle? && s.lock.None?
    ensures var s' := Step(Step(Step(Step(Step(s, Start(pid)), ReadUnlocked(pid, origin)), LockForAdmission(pid)),
                                CommitDebit(pid, now, id, granted)), ReturnUnguarded(pid));
            var e := AdmitOn(s.guard, s.store, origin, true, now, id, if granted then Meets else ExpiresAfterCommit);
            && s'.guard == s.guard && s'.store == e.store && s'.lock.None? && At(s', pid).Idle?
            && (e.result == Ok(Unguarded) <==> s.guard.None?)
            && (if s.guard.None? then
                  s'.history == s.history && s'.log == s.log + [Started(pid)] + [GrantedUnguarded(pid)]
                else if Refuses(s.guard.value, s.store, origin, now, id).Some? then
                  s'.history == s.history && s'.log == s.log + [Started(pid)]
                else
                  && s'.history == s.history
                       + [Charge(ReceiptFor(s.guard.value, origin, now.value, id), s.guard.value.maxAttempts, granted)]
                  && s'.log == s.log + [Started(pid)] + [Committed(s'.history[|s.history|])])
            && (e.result.Ok? <==> s.guard.None? || (|s'.history| > |s.history| && granted))
  {
    var s1 := Step(s, Start(pid));
    assert At(s1, pid).Starting?;
    var s2 := ReadStep(s1, pid, origin);
    if s.guard.None? {
      assert At(s2, pid).ReturningUnguarded?;
    } else {
      assert At(s2, pid) == WaitingForLock(origin);
      assert At(LockForAdmissionStep(s2, pid, origin), pid) == AdmitLocked(s.guard.value, origin);
    }
  }

  // ----- Control: the lock, the guard and the generations -----

  ghost predicate LockDiscipline(s: System) {
    forall p: Pid :: Holds(At(s, p)) <==> s.lock == Some(p)
  }

  /** What the lock holder may rely on. */
  ghost predicate HolderKnows(s: System, proc: Proc) {
    match proc
    case AdmitLocked(guard, _) => s.guard == Some(guard)
    case Planned(plan, found) =>
      && PlanSetup(s.guard, found, plan.target.maxAttempts) == Ok(plan)
      && !plan.noChange
      && found <= (if s.guard.Some? then s.guard.value.generation else 0)
      && (s.store.Db? ==> found == s.store.accounting.generation)
      && (!s.store.Db? && !s.lost ==> found == 0)
    case IntentOut(plan, found) =>
      && s.guard == Some(plan.target.(phase := Intent)) && plan.target.phase.Ready?
      && found <= plan.target.generation
      && (s.store.Db? ==> found == s.store.accounting.generation)
      && (found == 0 ==> plan.target.generation == 1)
    case AccountingDone(plan) =>
      && s.guard == Some(plan.target.(phase := Intent)) && plan.target.phase.Ready?
      && (s.store.Db? ==> s.store.accounting.generation == plan.target.generation)
      && (s.store.Db? || s.lost)
    case _ => true
  }

  /** A ready guard's generation is the accounting's; an intent's is never behind it. */
  ghost predicate GenerationsAgree(guard: Option<Guard>, store: Store) {
    if guard.None? then !store.Db?
    else
      && Decodable(guard.value)
      && (store.Db? ==> 1 <= store.accounting.generation <= guard.value.generation && 0 <= store.accounting.lastCharge)
      && (store.Db? && guard.value.phase.Ready? ==> store.accounting.generation == guard.value.generation)
  }

  /** Without a loss, a guard over uninitialized accounting is the first intent. */
  ghost predicate OnlyFirstIntentIsBare(s: System) {
    s.guard.Some? && !s.store.Db? && !s.lost ==> s.guard.value.phase.Intent? && s.guard.value.generation == 1
  }

  ghost predicate Controlled(s: System) {
    && LockDiscipline(s)
    && (s.lock.Some? ==> HolderKnows(s, At(s, s.lock.value)))
    && GenerationsAgree(s.guard, s.store)
    && OnlyFirstIntentIsBare(s)
  }

  /** What a plan's generation can be, given that the accounting is not ahead of the guard. */
  lemma PlanAdvances(previous: Option<Guard>, found: nat, maxAttempts: nat)
    requires PlanSetup(previous, found, maxAttempts).Ok? && !PlanSetup(previous, found, maxAttempts).value.noChange
    requires previous.Some? ==> found <= previous.value.generation
    requires previous.None? ==> found == 0
    ensures var target := PlanSetup(previous, found, maxAttempts).value.target;
            && target.phase.Ready? && target.maxAttempts == maxAttempts && Decodable(target)
            && found <= target.generation
            && (found == 0 ==> target.generation == 1)
            && (previous.Some? ==> Before(previous.value, target))
            && (target.generation == 1 ==>
                  previous.None? || (previous.value.phase.Intent? && previous.value.generation == 1))
  {}

  /** One published guard may follow another: a new generation, or the same one completing its intent. */
  ghost predicate Before(a: Guard, b: Guard) {
    a.generation < b.generation
    || (a.generation == b.generation && a.maxAttempts == b.maxAttempts && a.phase.Intent?)
  }

  lemma UnlockedMoveStaysControlled(s: System, pid: Pid, proc: Proc, log: seq<Event>)
    requires Controlled(s) && !Holds(At(s, pid)) && !Holds(proc)
    ensures Controlled(Goto(s, pid, proc).(log := log))
  {}

  lemma LockForAdmissionStaysControlled(s: System, pid: Pid)
    requires Controlled(s) && At(s, pid).WaitingForLock? && s.lock.None?
    ensures Controlled(LockForAdmissionStep(s, pid, At(s, pid).origin))
  {}

  lemma CommitDebitStaysControlled(s: System, pid: Pid, now: Option<nat>, id: AttemptId, granted: bool)
    requires Controlled(s) && At(s, pid).AdmitLocked?
    ensures Controlled(CommitDebitStep(s, pid, At(s, pid).guard, At(s, pid).origin, now, id, granted))
  {}

  lemma LockForSetupStaysControlled(s: System, pid: Pid, maxAttempts: nat)
    requires Controlled(s) && At(s, pid).Idle? && s.lock.None?
    ensures Controlled(LockForSetupStep(s, pid, maxAttempts))
  {
    var s' := LockForSetupStep(s, pid, maxAttempts);
    assert forall p: Pid :: p != pid ==> At(s', p) == At(s, p);
  }

  lemma PublishIntentStaysControlled(s: System, pid: Pid)
    requires Controlled(s) && At(s, pid).Planned?
    ensures Controlled(PublishIntentStep(s, pid, At(s, pid).plan, At(s, pid).found))
  {}

  lemma CommitGenerationStaysControlled(s: System, pid: Pid)
    requires Controlled(s) && At(s, pid).IntentOut?
    ensures Controlled(CommitGenerationStep(s, pid, At(s, pid).plan, At(s, pid).found))
  {}

  lemma PublishReadyStaysControlled(s: System, pid: Pid)
    requires Controlled(s) && At(s, pid).AccountingDone?
    ensures Controlled(PublishReadyStep(s, pid, At(s, pid).plan))
  {}

  lemma LeaveStaysControlled(s: System, pid: Pid)
    requires Controlled(s)
    ensures Controlled(Leave(s, pid))
  {}

  lemma LossStaysControlled(s: System, left: Store)
    requires Controlled(s) && !left.Db?
    ensures Controlled(s.(store := left, lost := true))
  {}

  lemma StepStaysControlled(s: System, action: Action)
    requires Controlled(s)
    ensures Controlled(Step(s, action))
  {
    match action {
      case LockForSetup(p, maxAttempts) =>
        if At(s, p).Idle? && s.lock.None? { LockForSetupStaysControlled(s, p, maxAttempts); }
      case PublishIntent(p) => if At(s, p).Planned? { PublishIntentStaysControlled(s, p); }
      case CommitGeneration(p) => if At(s, p).IntentOut? { CommitGenerationStaysControlled(s, p); }
      case PublishReady(p) => if At(s, p).AccountingDone? { PublishReadyStaysControlled(s, p); }
      case Stop(p) => LeaveStaysControlled(s, p);
      case Lose(left) => if !left.Db? { LossStaysControlled(s, left); }
      case Start(p) =>
        if At(s, p).Idle? { UnlockedMoveStaysControlled(s, p, Starting, s.log + [Started(p)]); }
      case ReadUnlocked(p, origin) =>
        if At(s, p).Starting? { UnlockedMoveStaysControlled(s, p, At(ReadStep(s, p, origin), p), s.log); }
      case ReturnUnguarded(p) =>
        if At(s, p).ReturningUnguarded? { UnlockedMoveStaysControlled(s, p, Idle, s.log + [GrantedUnguarded(p)]); }
      case LockForAdmission(p) =>
        if At(s, p).WaitingForLock? && s.lock.None? { LockForAdmissionStaysControlled(s, p); }
      case CommitDebit(p, now, id, granted) =>
        if At(s, p).AdmitLocked? { CommitDebitStaysControlled(s, p, now, id, granted); }
    }
  }
}
