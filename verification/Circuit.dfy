/**
 Every run of one circuit: any number of processes admit and settle in any
 order, at any clock readings, late or repeatedly. A run is a sequence of
 events; the tickets ever issued are kept, so any of them may settle at any time.
 */
module Circuit {
  import opened Basics
  import opened Breaker

  datatype Event =
    | Admission(now: nat, leaseMs: nat, token: Token)
    | Settlement(ticket: Ticket, outcome: Outcome, now: nat)

  /** The outage in progress, counted beside the row: when it began, its failed probes, its latest (re)opening. */
  datatype Outage = Outage(openedAt: nat, failedProbes: nat, reopenedAt: nat)

  /** Every token below `tokens` may have been issued; none from there on has. */
  datatype State = State(row: RowValue, issued: seq<Ticket>, tokens: nat, outage: Outage)

  const INITIAL: State := State(DEFAULT_ROW, [], 0, Outage(0, 0, 0))

  function Admit(s: State, now: nat, leaseMs: nat, token: Token): State {
    var reply := AdmitReply(s.row, now, token);
    if reply.Err? then s
    else State(AdmitRow(s.row, now, leaseMs, token), s.issued + [reply.value],
               if reply.value.probe.Some? then token + 1 else s.tokens, s.outage)
  }

  function Settle(s: State, ticket: Ticket, outcome: Outcome, now: nat): State {
    var after := SettleRow(s.row, ticket, outcome, now);
    s.(row := after,
       outage := if !outcome.Transient? then s.outage
                 else if HoldsProbe(s.row, ticket, now) then
                   Outage(s.outage.openedAt, s.outage.failedProbes + 1, now)
                 else if !s.row.open && after.open then Outage(now, 0, now)
                 else s.outage)
  }

  /** An admission draws a token never issued before; a settlement brings a ticket that was issued. */
  function Step(s: State, event: Event): State {
    match event
    case Admission(now, leaseMs, token) => if token >= s.tokens then Admit(s, now, leaseMs, token) else s
    case Settlement(ticket, outcome, now) => if ticket in s.issued then Settle(s, ticket, outcome, now) else s
  }

  function Run(events: seq<Event>): State {
    if events == [] then INITIAL else Step(Run(events[..|events| - 1]), events[|events| - 1])
  }

  // ----- The fence over every run -----

  /** Generations only grow; at the row's own generation tickets are probes exactly while the circuit is open. */
  predicate TicketsFollowRow(row: RowValue, issued: seq<Ticket>) {
    forall i :: 0 <= i < |issued| ==>
      && issued[i].generation <= row.generation
      && (issued[i].generation == row.generation ==> (issued[i].probe.Some? <==> row.open))
  }

  predicate TokensAreFresh(issued: seq<Ticket>, tokens: nat) {
    && (forall i :: 0 <= i < |issued| && issued[i].probe.Some? ==> issued[i].probe.value < tokens)
    && (forall i, j :: 0 <= i < j < |issued| && issued[i].probe.Some? ==> issued[i].probe != issued[j].probe)
  }

  /** The row's lease belongs to the most recently issued token. */
  predicate LeaseIsLatest(row: RowValue, tokens: nat) {
    row.probeToken.Some? ==> row.probeToken.value + 1 == tokens
  }

  predicate Fenced(s: State) {
    && WellFormed(s.row)
    && TicketsFollowRow(s.row, s.issued)
    && TokensAreFresh(s.issued, s.tokens)
    && LeaseIsLatest(s.row, s.tokens)
  }

  lemma AdmitKeepsFence(s: State, now: nat, leaseMs: nat, token: Token)
    requires Fenced(s) && token >= s.tokens
    ensures Fenced(Admit(s, now, leaseMs, token))
  {}

  lemma SettleKeepsFence(s: State, ticket: Ticket, outcome: Outcome, now: nat)
    requires Fenced(s)
    ensures Fenced(Settle(s, ticket, outcome, now))
  {}

  lemma {:induction false} EveryRunIsFenced(events: seq<Event>)
    ensures Fenced(Run(events))
  {
    if events != [] {
      var s := Run(events[..|events| - 1]);
      EveryRunIsFenced(events[..|events| - 1]);
      match events[|events| - 1] {
        case Admission(now, leaseMs, token) =>
          if token >= s.tokens {
            AdmitKeepsFence(s, now, leaseMs, token);
          }
        case Settlement(ticket, outcome, now) =>
          SettleKeepsFence(s, ticket, outcome, now);
      }
    }
  }

  /**
   In every run, a ticket settling on an open circuit changes anything at all,
   Retry-After included, exactly when it carries the token issued last, under the
   current generation and before its lease ends.
   */
  lemma {:induction false} OnlyTheLatestProbeSettles(events: seq<Event>, ticket: Ticket, outcome: Outcome, now: nat)
    requires Run(events).row.open && ticket in Run(events).issued
    ensures var s := Run(events);
            SettleRow(s.row, ticket, outcome, now) != s.row <==>
            (&& ticket.generation == s.row.generation
             && ticket.probe.Some? && ticket.probe.value + 1 == s.tokens
             && s.row.probeToken.Some? && now < s.row.probeExpiresMs)
  {
    EveryRunIsFenced(events);
    OpenRowChangesIffProbeHeld(Run(events).row, ticket, outcome, now);
  }

  /** Any two tickets able to change an open circuit are one and the same issue. */
  lemma {:induction false} OneHolderAtATime(events: seq<Event>, i: nat, j: nat, now: nat, now': nat)
    requires i < |Run(events).issued| && j < |Run(events).issued|
    requires HoldsProbe(Run(events).row, Run(events).issued[i], now)
    requires HoldsProbe(Run(events).row, Run(events).issued[j], now')
    ensures i == j
  {
    EveryRunIsFenced(events);
  }

  /** Every outstanding ticket of an open circuit's own generation is a probe; of a closed one's, never. */
  lemma {:induction false} OutstandingTicketsMatchTheCircuit(events: seq<Event>, i: nat)
    requires i < |Run(events).issued|
    requires Run(events).issued[i].generation == Run(events).row.generation
    ensures Run(events).issued[i].probe.Some? <==> Run(events).row.open
  {
    EveryRunIsFenced(events);
  }

  // ----- No lockout is permanent -----

  function Reading(event: Event): nat {
    event.now
  }

  predicate ReadingsUpTo(events: seq<Event>, t: nat) {
    forall i :: 0 <= i < |events| ==> Reading(events[i]) <= t
  }

  predicate LeasesUpTo(events: seq<Event>, leaseMs: nat) {
    forall i :: 0 <= i < |events| && events[i].Admission? ==> events[i].leaseMs <= leaseMs
  }

  predicate HoldsEnd(row: RowValue, t: nat, leaseMs: nat) {
    && row.retryAfterUntilMs <= t + 3_600_000
    && row.openUntilMs <= t + 300_000
    && row.probeExpiresMs <= t + leaseMs
  }

  lemma {:induction false} EveryHoldEnds(events: seq<Event>, t: nat, leaseMs: nat)
    requires ReadingsUpTo(events, t) && LeasesUpTo(events, leaseMs)
    ensures HoldsEnd(Run(events).row, t, leaseMs)
  {
    if events != [] {
      var init, last := events[..|events| - 1], events[|events| - 1];
      EveryHoldEnds(init, t, leaseMs);
      EveryRunIsFenced(init);
      assert Reading(last) <= t;
    }
  }

  /**
   With every past reading at most t and every lease at most L, an admission at
   t + max(one hour, L) or later is always granted.
   */
  lemma {:induction false} NoPermanentLockout(events: seq<Event>, t: nat, leaseMs: nat, now: nat, token: Token)
    requires ReadingsUpTo(events, t) && LeasesUpTo(events, leaseMs)
    requires now >= t + Max(3_600_000, leaseMs)
    ensures AdmitReply(Run(events).row, now, token).Ok?
  {
    EveryHoldEnds(events, t, leaseMs);
  }

  /** The time a refusal names is honest: until then nothing is granted, and by then that hold is over. */
  lemma RefusalsNameTheEndOfTheHold(row: RowValue, now: nat, untilMs: nat, t: nat, token: Token)
    requires AdmitReply(row, now, token) == Err(CoolingDown(untilMs))
    ensures now < untilMs
    ensures t < untilMs ==> AdmitReply(row, t, token).Err?
    ensures t >= untilMs ==> AdmitReply(row, t, token) != Err(CoolingDown(untilMs))
  {}

  // ----- Three consecutive failures -----

  /** A settlement that a closed circuit accepts: an issued ticket of its own generation. */
  predicate Heard(s: State, event: Event) {
    event.Settlement? && event.ticket in s.issued && !s.row.open && event.ticket.generation == s.row.generation
  }

  predicate HeardFailure(s: State, event: Event) {
    Heard(s, event) && event.outcome.Transient?
  }

  predicate HeardSuccess(s: State, event: Event) {
    Heard(s, event) && event.outcome.Success?
  }

  /** The transient failures heard in the current generation since the last success heard in it, by the events. */
  function Streak(events: seq<Event>): nat {
    if events == [] then 0
    else
      var init, last := events[..|events| - 1], events[|events| - 1];
      if Run(events).row.generation != Run(init).row.generation || HeardSuccess(Run(init), last) then 0
      else if HeardFailure(Run(init), last) then Streak(init) + 1
      else Streak(init)
  }

  /** What the row's counter counts. */
  lemma {:induction false} FailuresAreTheStreak(events: seq<Event>)
    ensures Run(events).row.failures == Streak(events)
  {
    if events != [] {
      FailuresAreTheStreak(events[..|events| - 1]);
      EveryRunIsFenced(events[..|events| - 1]);
    }
  }

  /** In every run a closed circuit opens exactly at the third consecutive transient failure it hears. */
  lemma {:induction false} OpensAtTheThirdFailure(events: seq<Event>, event: Event)
    requires !Run(events).row.open
    ensures Run(events + [event]).row.open <==> HeardFailure(Run(events), event) && Streak(events) == 2
  {
    assert (events + [event])[..|events|] == events;
    EveryRunIsFenced(events);
    FailuresAreTheStreak(events);
  }

  // ----- What the probe of an open circuit does -----

  /** A settlement an open circuit accepts: the probe issued last, its lease neither over nor given up. */
  predicate HeardProbe(s: State, event: Event) {
    && event.Settlement? && event.ticket in s.issued && s.row.open
    && event.ticket.generation == s.row.generation
    && event.ticket.probe.Some? && event.ticket.probe.value + 1 == s.tokens
    && s.row.probeToken.Some? && event.now < s.row.probeExpiresMs
  }

  /**
   In every run an open circuit closes exactly at its probe's success, at the next
   generation and with nothing left of the outage: no failures, cooldown, lease or hold.
   */
  lemma {:induction false} ClosesExactlyAtItsProbesSuccess(events: seq<Event>, event: Event)
    requires Run(events).row.open
    ensures var row, after := Run(events).row, Run(events + [event]).row;
            && (!after.open <==> HeardProbe(Run(events), event) && event.outcome.Success?)
            && (!after.open ==> after == RowValue(row.generation + 1, false, 0, 0, 0, None, 0, 0))
  {
    assert (events + [event])[..|events|] == events;
    EveryRunIsFenced(events);
  }

  /** A probe that proved nothing gives its lease up and changes nothing else; the next admission in time is a probe. */
  lemma {:induction false} NeutralProbeIsReplaced(events: seq<Event>, event: Event, now: nat, token: Token)
    requires HeardProbe(Run(events), event) && event.outcome.Neutral?
    ensures var row, after := Run(events).row, Run(events + [event]).row;
            && after == row.(probeToken := None, probeExpiresMs := 0)
            && (now >= row.openUntilMs && now >= row.retryAfterUntilMs ==>
                  AdmitReply(after, now, token) == Ok(Ticket(row.generation, Some(token))))
  {
    assert (events + [event])[..|events|] == events;
    EveryRunIsFenced(events);
  }

  /** The failed probes of the outage in progress, counted from what probes reported. */
  function FailedProbes(events: seq<Event>): nat {
    if events == [] then 0
    else
      var init, last := events[..|events| - 1], events[|events| - 1];
      if HeardFailure(Run(init), last) && Streak(init) == 2 then 0
      else if HeardProbe(Run(init), last) && last.outcome.Transient? then FailedProbes(init) + 1
      else FailedProbes(init)
  }

  lemma {:induction false} OutageCountsFailedProbes(events: seq<Event>)
    ensures Run(events).outage.failedProbes == FailedProbes(events)
  {
    if events != [] {
      var init, last := events[..|events| - 1], events[|events| - 1];
      OutageCountsFailedProbes(init);
      EveryRunIsFenced(init);
      FailuresAreTheStreak(init);
    }
  }

  // ----- The cooldown schedule of one outage -----

  function TwoTo(k: nat): (r: nat)
    ensures r >= 1
  {
    if k == 0 then 1 else 2 * TwoTo(k - 1)
  }

  /** The cooldown after `k` failed probes: doubling, capped at five minutes. */
  function Scheduled(k: nat): nat {
    Min(30_000 * TwoTo(k), 300_000)
  }

  /** The first `k` cooldowns together. */
  function Waited(k: nat): nat {
    if k == 0 then 0 else Waited(k - 1) + Scheduled(k - 1)
  }

  predicate OnSchedule(s: State) {
    s.row.open ==>
      && s.row.cooldownMs == Scheduled(s.outage.failedProbes)
      && s.row.openUntilMs == SaturatingAdd(s.outage.reopenedAt, s.row.cooldownMs)
  }

  /** After k failed probes the cooldown is exactly min(30000 * 2^k, 300000), counted from the latest failure. */
  lemma {:induction false} EveryOutageKeepsSchedule(events: seq<Event>)
    ensures OnSchedule(Run(events))
  {
    if events != [] {
      var init, last := events[..|events| - 1], events[|events| - 1];
      EveryOutageKeepsSchedule(init);
      EveryRunIsFenced(init);
      var s := Run(init);
      assert Scheduled(s.outage.failedProbes + 1) == NextCooldown(Scheduled(s.outage.failedProbes));
    }
  }

  predicate ClockNeverFalls(events: seq<Event>) {
    forall i, j :: 0 <= i < j < |events| ==> Reading(events[i]) <= Reading(events[j])
  }

  /**
   A lease exists only once the cooldown has passed, and each failed probe came no earlier than the
   schedule. A lease never outlives the 64-bit clock, so a cooldown end that
   saturated is never reached by a probe that can still settle.
   */
  predicate Paced(s: State, clock: nat) {
    && s.row.probeExpiresMs <= U64_MAX
    && (s.row.probeToken.Some? ==> s.row.openUntilMs <= clock)
    && (s.row.open ==> s.outage.openedAt + Waited(s.outage.failedProbes) <= s.outage.reopenedAt <= clock)
  }

  lemma PaceStep(s: State, event: Event, clock: nat)
    requires Fenced(s) && OnSchedule(s) && Paced(s, clock)
    requires clock <= Reading(event)
    ensures Paced(Step(s, event), Reading(event))
  {}

  lemma {:induction false} EveryOutageIsPaced(events: seq<Event>, clock: nat)
    requires ClockNeverFalls(events) && ReadingsUpTo(events, clock)
    ensures Paced(Run(events), clock)
  {
    if events != [] {
      var init, last := events[..|events| - 1], events[|events| - 1];
      forall i | 0 <= i < |init| ensures Reading(init[i]) <= Reading(last) {
        assert init[i] == events[i];
      }
      EveryOutageIsPaced(init, Reading(last));
      EveryRunIsFenced(init);
      EveryOutageKeepsSchedule(init);
      PaceStep(Run(init), last, Reading(last));
    }
  }

  /**
   Under a clock that never falls, the latest of k failed probes settled no
   earlier than the outage's opening plus its first k cooldowns.
   */
  lemma {:induction false} FailedProbesWaitTheirCooldowns(events: seq<Event>, clock: nat)
    requires ClockNeverFalls(events) && ReadingsUpTo(events, clock)
    requires Run(events).row.open
    ensures var o := Run(events).outage; o.reopenedAt >= o.openedAt + Waited(o.failedProbes)
  {
    EveryOutageIsPaced(events, clock);
  }
}
