/**
 The circuit as its documentation tells it: working, with a streak of failures, or
 broken, with failed probes and perhaps one probe on its way. The stored row is that
 story after every run, and so is every answer.
 */
module CircuitReference {
  import opened Basics
  import opened Breaker
  import opened Circuit

  datatype Probe = Probe(token: Token, until: nat)

  datatype Phase =
    | Working(streak: nat)
    | Broken(failedProbes: nat, since: nat, probe: Option<Probe>)

  datatype Story = Story(generation: nat, phase: Phase, holdUntil: nat, issued: seq<Ticket>, tokens: nat)

  const BEGINNING: Story := Story(0, Working(0), 0, [], 0)

  /** A 64-bit clock stops at its end. */
  function Clamp(t: nat): nat {
    if t <= 18_446_744_073_709_551_615 then t else 18_446_744_073_709_551_615
  }

  /** When the cooldown after so many failed probes ends: thirty seconds doubled each time, five minutes at most. */
  function CoolAt(failedProbes: nat, since: nat): nat {
    Clamp(since + Scheduled(failedProbes))
  }

  function Answer(y: Story, now: nat, token: Token): Result<Ticket, Refusal> {
    if now < y.holdUntil then Err(CoolingDown(y.holdUntil))
    else
      match y.phase
      case Working(_) => Ok(Ticket(y.generation, None))
      case Broken(k, since, probe) =>
        if now < CoolAt(k, since) then Err(CoolingDown(CoolAt(k, since)))
        else if probe.Some? && now < probe.value.until then Err(ProbeInFlight)
        else Ok(Ticket(y.generation, Some(token)))
  }

  /** Whether a ticket has a say: any of its generation while working, and while broken the probe in time. */
  predicate Speaks(y: Story, ticket: Ticket, now: nat) {
    && ticket in y.issued && ticket.generation == y.generation
    && match y.phase
       case Working(_) => true
       case Broken(_, _, probe) => probe.Some? && ticket.probe == Some(probe.value.token) && now < probe.value.until
  }

  /** A provider's own delay, one hour at most, moves the hold later and never earlier. */
  function Held(holdUntil: nat, retryAfterMs: Option<nat>, now: nat): nat {
    if retryAfterMs.None? then holdUntil
    else
      var until := Clamp(now + if retryAfterMs.value < 3_600_000 then retryAfterMs.value else 3_600_000);
      if until > holdUntil then until else holdUntil
  }

  /** The third failure in a row breaks the circuit, and so does a failed probe, for longer. */
  function Failed(phase: Phase, now: nat): Phase {
    match phase
    case Working(streak) => if streak == 2 then Broken(0, now, None) else Working(streak + 1)
    case Broken(k, _, _) => Broken(k + 1, now, None)
  }

  function Told(y: Story, outcome: Outcome, now: nat): Story {
    match outcome
    case Success =>
      y.(generation := y.generation + if y.phase.Broken? then 1 else 0, phase := Working(0), holdUntil := 0)
    case Neutral => if y.phase.Broken? then y.(phase := y.phase.(probe := None)) else y
    case Transient(retry) =>
      var phase := Failed(y.phase, now);
      y.(generation := y.generation + if phase.Broken? then 1 else 0, phase := phase,
         holdUntil := Held(y.holdUntil, retry, now))
  }

  function Next(y: Story, event: Event): Story {
    match event
    case Admission(now, leaseMs, token) =>
      var answer := Answer(y, now, token);
      if token < y.tokens || answer.Err? then y
      else if y.phase.Working? then y.(issued := y.issued + [answer.value])
      else y.(issued := y.issued + [answer.value], tokens := token + 1,
              phase := y.phase.(probe := Some(Probe(token, Clamp(now + leaseMs)))))
    case Settlement(ticket, outcome, now) => if Speaks(y, ticket, now) then Told(y, outcome, now) else y
  }

  function Tell(events: seq<Event>): Story {
    if events == [] then BEGINNING else Next(Tell(events[..|events| - 1]), events[|events| - 1])
  }

  /** The row that stores the story. */
  function RowOf(y: Story): RowValue {
    match y.phase
    case Working(streak) => RowValue(y.generation, false, streak, 0, 0, None, 0, y.holdUntil)
    case Broken(k, since, probe) =>
      RowValue(y.generation, true, 0, Scheduled(k), CoolAt(k, since),
               if probe.Some? then Some(probe.value.token) else None,
               if probe.Some? then probe.value.until else 0, y.holdUntil)
  }

  predicate Stores(s: State, y: Story) {
    && s.row == RowOf(y) && s.issued == y.issued && s.tokens == y.tokens
    && (y.phase.Working? ==> y.phase.streak <= 2)
    && (y.phase.Broken? ==> s.outage.failedProbes == y.phase.failedProbes && s.outage.reopenedAt == y.phase.since)
  }

  lemma DoubledCooldown(k: nat)
    ensures Scheduled(k + 1) == NextCooldown(Scheduled(k)) && 30_000 <= Scheduled(k) <= 300_000
  {}

  lemma AnswersAgree(y: Story, now: nat, token: Token)
    ensures AdmitReply(RowOf(y), now, token) == Answer(y, now, token)
  {}

  lemma AdmissionStores(s: State, y: Story, now: nat, leaseMs: nat, token: Token)
    requires Stores(s, y)
    ensures Stores(Step(s, Admission(now, leaseMs, token)), Next(y, Admission(now, leaseMs, token)))
  {}

  lemma SettlementStores(s: State, y: Story, ticket: Ticket, outcome: Outcome, now: nat)
    requires Stores(s, y)
    ensures Stores(Step(s, Settlement(ticket, outcome, now)), Next(y, Settlement(ticket, outcome, now)))
  {
    if y.phase.Broken? {
      DoubledCooldown(y.phase.failedProbes);
    }
  }

  /** After every run the stored row is the story's, and every admission is answered as the story answers it. */
  lemma {:induction false} EveryRunStoresItsStory(events: seq<Event>, now: nat, token: Token)
    ensures Stores(Run(events), Tell(events))
    ensures AdmitReply(Run(events).row, now, token) == Answer(Tell(events), now, token)
  {
    if events != [] {
      var init, last := events[..|events| - 1], events[|events| - 1];
      EveryRunStoresItsStory(init, now, token);
      match last {
        case Admission(t, leaseMs, issued) => AdmissionStores(Run(init), Tell(init), t, leaseMs, issued);
        case Settlement(ticket, outcome, t) => SettlementStores(Run(init), Tell(init), ticket, outcome, t);
      }
    }
    AnswersAgree(Tell(events), now, token);
  }
}
