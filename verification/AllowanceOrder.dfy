/**
 The order of events in every run of the allowance: what is published, which
 guard each debit was made under, and which admissions went unguarded.
 */
module AllowanceOrder {
  import opened Basics
  import opened Allowance
  import opened AllowanceLedger
  import opened AllowanceRuns
  import opened AllowanceTheorems

  /** The guard in force after a log: the one published last. */
  function InForce(log: seq<Event>): Option<Guard> {
    if log == [] then None
    else if log[|log| - 1].Published? then Some(log[|log| - 1].guard)
    else InForce(log[..|log| - 1])
  }

  /** The guard a debit was made under. */
  function GuardOf(charge: Charge): Guard {
    Guard(Ready, charge.receipt.generation, charge.limit)
  }

  ghost predicate DebitUnderItsGuard(log: seq<Event>, k: nat)
    requires k < |log|
  {
    log[k].Committed? ==> InForce(log[..k]) == Some(GuardOf(log[k].charge))
  }

  ghost predicate DebitsUnderTheirGuards(log: seq<Event>) {
    forall k :: 0 <= k < |log| ==> DebitUnderItsGuard(log, k)
  }

  /** Generations never fall, each has one limit, and nothing of a generation follows its ready guard. */
  ghost predicate PublishedInOrder(log: seq<Event>) {
    forall i, j :: 0 <= i < j < |log| && log[i].Published? && log[j].Published? ==>
      Before(log[i].guard, log[j].guard)
  }

  /** No admission of `pid` in the log began after a publication. */
  ghost predicate NeverStartedLate(log: seq<Event>, pid: Pid) {
    forall i, j :: 0 <= i < j < |log| && log[i].Published? ==> log[j] != Started(pid)
  }

  /** An admission that went unguarded began before any publication it follows. */
  ghost predicate UnguardedBeganEarlier(log: seq<Event>) {
    forall i, j, k :: 0 <= i < j < k < |log| && log[i].Published? && log[k].GrantedUnguarded? ==>
      log[j] != Started(log[k].pid)
  }

  /** Everything published came before the guard in force, or is it. */
  ghost predicate InForceIsLatest(log: seq<Event>, guard: Option<Guard>) {
    forall i :: 0 <= i < |log| && log[i].Published? ==>
      guard.Some? && (log[i].guard == guard.value || Before(log[i].guard, guard.value))
  }

  ghost predicate Ordered(s: System) {
    && s.guard == InForce(s.log)
    && InForceIsLatest(s.log, s.guard)
    && DebitsUnderTheirGuards(s.log)
    && PublishedInOrder(s.log)
    && UnguardedBeganEarlier(s.log)
    && (forall p: Pid :: At(s, p).ReturningUnguarded? ==> NeverStartedLate(s.log, p))
  }

  // ----- Appending one event -----

  lemma PublishingStaysOrdered(log: seq<Event>, guard: Guard)
    requires InForceIsLatest(log, InForce(log)) && DebitsUnderTheirGuards(log) && PublishedInOrder(log)
    requires UnguardedBeganEarlier(log)
    requires InForce(log).Some? ==> Before(InForce(log).value, guard)
    ensures var log' := log + [Published(guard)];
            && InForce(log') == Some(guard) && InForceIsLatest(log', Some(guard))
            && DebitsUnderTheirGuards(log') && PublishedInOrder(log') && UnguardedBeganEarlier(log')
  {
    var log' := log + [Published(guard)];
    forall k | 0 <= k < |log'| ensures DebitUnderItsGuard(log', k) {
      if k < |log| {
        assert log'[..k] == log[..k];
        assert DebitUnderItsGuard(log, k);
      }
    }
  }

  lemma OtherEventsStayOrdered(log: seq<Event>, event: Event)
    requires InForceIsLatest(log, InForce(log)) && DebitsUnderTheirGuards(log) && PublishedInOrder(log)
    requires UnguardedBeganEarlier(log)
    requires !event.Published?
    requires event.Committed? ==> InForce(log) == Some(GuardOf(event.charge))
    requires event.GrantedUnguarded? ==> NeverStartedLate(log, event.pid)
    ensures var log' := log + [event];
            && InForce(log') == InForce(log) && InForceIsLatest(log', InForce(log))
            && DebitsUnderTheirGuards(log') && PublishedInOrder(log') && UnguardedBeganEarlier(log')
  {
    var log' := log + [event];
    assert log'[..|log|] == log;
    forall k | 0 <= k < |log'| ensures DebitUnderItsGuard(log', k) {
      if k < |log| {
        assert log'[..k] == log[..k];
        assert DebitUnderItsGuard(log, k);
      }
    }
  }

  // ----- Which event each step appends -----

  /** The event a step appends, if any. */
  function Appends(s: System, action: Action): Option<Event> {
    var s' := Step(s, action);
    if |s'.log| == |s.log| + 1 then Some(s'.log[|s.log|]) else None
  }

  /** What may be relied on about the event a step appends. */
  lemma AppendedEvent(s: System, action: Action)
    requires Controlled(s)
    ensures var s' := Step(s, action);
            var event := Appends(s, action);
            && s'.log == s.log + (if event.Some? then [event.value] else [])
            && (event.Some? && event.value.Published? ==>
                  s'.guard == Some(event.value.guard) && (s.guard.Some? ==> Before(s.guard.value, event.value.guard)))
            && (event.None? || !event.value.Published? ==> s'.guard == s.guard)
            && (event.Some? && event.value.Committed? ==> s.guard == Some(GuardOf(event.value.charge)))
            && (event.Some? && event.value.GrantedUnguarded? ==> At(s, event.value.pid).ReturningUnguarded?)
            && (event.Some? && event.value.Started? ==> At(s, event.value.pid).Idle?)
  {
    match action {
      case PublishIntent(p) =>
        if At(s, p).Planned? {
          assert s.lock == Some(p);
          PlanAdvances(s.guard, At(s, p).found, At(s, p).plan.target.maxAttempts);
        }
      case PublishReady(p) =>
        if At(s, p).AccountingDone? { assert s.lock == Some(p); }
      case CommitDebit(p, now, id, granted) =>
        if At(s, p).AdmitLocked? { assert s.lock == Some(p); }
      case _ =>
    }
  }

  /** A process decides to return unguarded only where no guard is in force. */
  lemma UnguardedDecision(s: System, action: Action, p: Pid)
    requires At(Step(s, action), p).ReturningUnguarded?
    ensures At(s, p).ReturningUnguarded? || s.guard.None?
  {}

  lemma {:induction false} NothingPublished(log: seq<Event>)
    requires InForce(log).None?
    ensures forall i :: 0 <= i < |log| ==> !log[i].Published?
  {
    if log != [] {
      NothingPublished(log[..|log| - 1]);
    }
  }

  lemma UnguardedStaysEarly(s: System, action: Action, p: Pid)
    requires Controlled(s) && Ordered(s) && At(Step(s, action), p).ReturningUnguarded?
    ensures NeverStartedLate(Step(s, action).log, p)
  {
    AppendedEvent(s, action);
    UnguardedDecision(s, action, p);
    if s.guard.None? {
      NothingPublished(s.log);
    } else if action == Start(p) {
      assert At(s, p).ReturningUnguarded?;
    }
  }

  lemma StepStaysOrdered(s: System, action: Action)
    requires Controlled(s) && Ordered(s)
    ensures Ordered(Step(s, action))
  {
    var s' := Step(s, action);
    AppendedEvent(s, action);
    forall p: Pid | At(s', p).ReturningUnguarded? ensures NeverStartedLate(s'.log, p) {
      UnguardedStaysEarly(s, action, p);
    }
    var event := Appends(s, action);
    if event.None? {
      assert s'.log == s.log;
    } else if event.value.Published? {
      PublishingStaysOrdered(s.log, event.value.guard);
    } else {
      OtherEventsStayOrdered(s.log, event.value);
    }
  }

  lemma {:induction false} EveryRunIsOrdered(actions: seq<Action>)
    ensures Ordered(Run(actions))
  {
    if actions == [] {
      assert forall p: Pid :: At(INITIAL, p) == Idle;
    } else {
      var init, last := actions[..|actions| - 1], actions[|actions| - 1];
      EveryRunIsOrdered(init);
      EveryRunIsControlled(init);
      StepStaysOrdered(Run(init), last);
    }
  }

  // ----- What a caller may rely on -----

  /**
   Of the guards published in any run, a later one has a larger generation, or it is
   the same generation and limit and the earlier one was still an intent.
   */
  lemma GenerationsOnlyAdvance(actions: seq<Action>, i: nat, j: nat)
    requires i < j < |Run(actions).log| && Run(actions).log[i].Published? && Run(actions).log[j].Published?
    ensures Before(Run(actions).log[i].guard, Run(actions).log[j].guard)
  {
    EveryRunIsOrdered(actions);
  }

  /**
   Every debit was made under the guard published last before it, ready, at the
   debit's own generation and limit: between an intent and its ready guard there is
   no debit, and an old limit is never used after its replacement intent.
   */
  lemma DebitsOnlyUnderTheReadyGuard(actions: seq<Action>, k: nat)
    requires k < |Run(actions).log| && Run(actions).log[k].Committed?
    ensures InForce(Run(actions).log[..k]) == Some(GuardOf(Run(actions).log[k].charge))
  {
    EveryRunIsOrdered(actions);
    assert DebitUnderItsGuard(Run(actions).log, k);
  }

  /** No admission that starts after a publication returns unguarded. */
  lemma NoUnguardedAfterPublication(actions: seq<Action>, i: nat, j: nat, k: nat, pid: Pid)
    requires i < j < k < |Run(actions).log|
    requires Run(actions).log[i].Published? && Run(actions).log[j] == Started(pid)
    ensures Run(actions).log[k] != GrantedUnguarded(pid)
  {
    EveryRunIsOrdered(actions);
  }
}
