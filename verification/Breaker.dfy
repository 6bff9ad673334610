/**
 One origin's circuit row: the transitions as functions of the row's value, and
 the class whose methods make them in place.
 */
module Breaker {
  import opened Basics

  const OPEN_AFTER_FAILURES: nat := 3
  const BASE_COOLDOWN_MS: nat := 30_000
  const MAX_COOLDOWN_MS: nat := 300_000
  const MAX_RETRY_AFTER_MS: nat := 3_600_000

  /** A probe token; every issue draws a new one. */
  type Token = nat

  datatype Ticket = Ticket(generation: nat, probe: Option<Token>)

  datatype Refusal = CoolingDown(untilMs: nat) | ProbeInFlight

  datatype Outcome = Success | Transient(retryAfterMs: Option<nat>) | Neutral

  datatype RowValue = RowValue(
    generation: nat,
    open: bool,
    failures: nat,
    cooldownMs: nat,
    openUntilMs: nat,
    probeToken: Option<Token>,
    probeExpiresMs: nat,
    retryAfterUntilMs: nat)

  const DEFAULT_ROW: RowValue := RowValue(0, false, 0, 0, 0, None, 0, 0)

  /** u64::saturating_add */
  function SaturatingAdd(a: nat, b: nat): nat {
    if a + b > U64_MAX then U64_MAX else a + b
  }

  // ----- The transitions as functions -----

  function AdmitReply(row: RowValue, now: nat, token: Token): Result<Ticket, Refusal> {
    if now < row.retryAfterUntilMs then Err(CoolingDown(row.retryAfterUntilMs))
    else if !row.open then Ok(Ticket(row.generation, None))
    else if now < row.openUntilMs then Err(CoolingDown(row.openUntilMs))
    else if row.probeToken.Some? && now < row.probeExpiresMs then Err(ProbeInFlight)
    else Ok(Ticket(row.generation, Some(token)))
  }

  /** Only a probe's admission changes the row: it takes the lease. */
  function AdmitRow(row: RowValue, now: nat, leaseMs: nat, token: Token): RowValue {
    var reply := AdmitReply(row, now, token);
    if reply.Ok? && reply.value.probe.Some?
    then row.(probeToken := Some(token), probeExpiresMs := SaturatingAdd(now, leaseMs))
    else row
  }

  function OpenRow(row: RowValue, now: nat, cooldownMs: nat): RowValue {
    RowValue(row.generation + 1, true, 0, cooldownMs, SaturatingAdd(now, cooldownMs), None, 0, row.retryAfterUntilMs)
  }

  /** This ticket holds the row's probe lease at this instant. */
  predicate HoldsProbe(row: RowValue, ticket: Ticket, now: nat) {
    && row.open
    && ticket.generation == row.generation
    && ticket.probe.Some?
    && ticket.probe == row.probeToken
    && now < row.probeExpiresMs
  }

  function PushRetryAfter(row: RowValue, retryAfterMs: Option<nat>, now: nat): RowValue {
    match retryAfterMs
    case None => row
    case Some(delay) =>
      row.(retryAfterUntilMs := Max(row.retryAfterUntilMs, SaturatingAdd(now, Min(delay, MAX_RETRY_AFTER_MS))))
  }

  function NextCooldown(cooldownMs: nat): nat {
    Min(Max(cooldownMs, BASE_COOLDOWN_MS) * 2, MAX_COOLDOWN_MS)
  }

  /** A settlement the open row accepts. */
  function SettleProbe(row: RowValue, outcome: Outcome, now: nat): RowValue {
    match outcome
    case Success => DEFAULT_ROW.(generation := row.generation + 1)
    case Transient(retry) => OpenRow(PushRetryAfter(row, retry, now), now, NextCooldown(row.cooldownMs))
    case Neutral => row.(probeToken := None, probeExpiresMs := 0)
  }

  /** A settlement of the current generation on a closed row. */
  function SettleClosed(row: RowValue, outcome: Outcome, now: nat): RowValue {
    match outcome
    case Success => row.(failures := 0, retryAfterUntilMs := 0)
    case Transient(retry) =>
      var counted := PushRetryAfter(row, retry, now).(failures := row.failures + 1);
      if counted.failures >= OPEN_AFTER_FAILURES then OpenRow(counted, now, BASE_COOLDOWN_MS) else counted
    case Neutral => row
  }

  function SettleRow(row: RowValue, ticket: Ticket, outcome: Outcome, now: nat): RowValue {
    if HoldsProbe(row, ticket, now) then SettleProbe(row, outcome, now)
    else if !row.open && ticket.generation == row.generation then SettleClosed(row, outcome, now)
    else row
  }

  // ----- The row as the program updates it -----

  class Row {
    var generation: nat
    var open: bool
    var failures: nat
    var cooldownMs: nat
    var openUntilMs: nat
    var probeToken: Option<Token>
    var probeExpiresMs: nat
    var retryAfterUntilMs: nat

    function Value(): RowValue
      reads this
    {
      RowValue(generation, open, failures, cooldownMs, openUntilMs, probeToken, probeExpiresMs, retryAfterUntilMs)
    }

    constructor (value: RowValue)
      ensures Value() == value
    {
      generation, open, failures, cooldownMs := value.generation, value.open, value.failures, value.cooldownMs;
      openUntilMs, probeToken := value.openUntilMs, value.probeToken;
      probeExpiresMs, retryAfterUntilMs := value.probeExpiresMs, value.retryAfterUntilMs;
    }

    method Admit(now: nat, leaseMs: nat, token: Token) returns (reply: Result<Ticket, Refusal>)
      modifies this
      ensures reply == AdmitReply(old(Value()), now, token)
      ensures Value() == AdmitRow(old(Value()), now, leaseMs, token)
    {
      if now < retryAfterUntilMs {
        return Err(CoolingDown(retryAfterUntilMs));
      }
      if !open {
        return Ok(Ticket(generation, None));
      }
      if now < openUntilMs {
        return Err(CoolingDown(openUntilMs));
      }
      if probeToken.Some? && now < probeExpiresMs {
        return Err(ProbeInFlight);
      }
      probeToken := Some(token);
      probeExpiresMs := SaturatingAdd(now, leaseMs);
      reply := Ok(Ticket(generation, Some(token)));
    }

    method OpenFor(now: nat, cooldown: nat)
      modifies this
      ensures Value() == OpenRow(old(Value()), now, cooldown)
    {
      generation := generation + 1;
      open := true;
      failures := 0;
      cooldownMs := cooldown;
      openUntilMs := SaturatingAdd(now, cooldown);
      probeToken := None;
      probeExpiresMs := 0;
    }

    method Settle(ticket: Ticket, outcome: Outcome, now: nat)
      modifies this
      ensures Value() == SettleRow(old(Value()), ticket, outcome, now)
    {
      if ticket.generation != generation {
        return;
      }
      var ownsProbe := open && ticket.probe.Some? && ticket.probe == probeToken;
      if open && (!ownsProbe || now >= probeExpiresMs) {
        return;
      }
      match outcome {
        case Success =>
          if ownsProbe {
            generation := generation + 1;
            open, failures, cooldownMs, openUntilMs := false, 0, 0, 0;
            probeToken, probeExpiresMs, retryAfterUntilMs := None, 0, 0;
          } else if !open {
            failures := 0;
            retryAfterUntilMs := 0;
          }
        case Transient(retry) =>
          if retry.Some? {
            var delay := Min(retry.value, MAX_RETRY_AFTER_MS);
            retryAfterUntilMs := Max(retryAfterUntilMs, SaturatingAdd(now, delay));
          }
          if ownsProbe {
            var next := Min(Max(cooldownMs, BASE_COOLDOWN_MS) * 2, MAX_COOLDOWN_MS);
            OpenFor(now, next);
          } else if !open {
            failures := failures + 1;
            if failures >= OPEN_AFTER_FAILURES {
              OpenFor(now, BASE_COOLDOWN_MS);
            }
          }
        case Neutral =>
          if ownsProbe {
            probeToken := None;
            probeExpiresMs := 0;
          }
      }
    }
  }

  // ----- What every transition keeps -----

  /**
   Closed means no cooldown and no lease; open means no failure streak and a
   cooldown within policy.
   */
  predicate WellFormed(row: RowValue) {
    if row.open
    then row.failures == 0 && BASE_COOLDOWN_MS <= row.cooldownMs <= MAX_COOLDOWN_MS
    else row.failures < OPEN_AFTER_FAILURES && row.cooldownMs == row.openUntilMs == row.probeExpiresMs == 0
         && row.probeToken == None
  }

  /** The range checks the loader makes on a stored row. */
  predicate Loadable(row: RowValue) {
    row.failures < OPEN_AFTER_FAILURES && row.cooldownMs <= MAX_COOLDOWN_MS
  }

  /** Every transition keeps a row well formed, so the loader accepts whatever one stores, whatever the ticket. */
  lemma TransitionsStayLoadable(row: RowValue, now: nat, leaseMs: nat, token: Token, ticket: Ticket, outcome: Outcome)
    requires WellFormed(row)
    ensures WellFormed(AdmitRow(row, now, leaseMs, token)) && WellFormed(SettleRow(row, ticket, outcome, now))
    ensures Loadable(row)
  {}

  /** The cooldown after a failed probe, in numbers: a stored one below the base counts as the base. */
  lemma NextCooldownInNumbers(cooldownMs: nat)
    ensures NextCooldown(cooldownMs) ==
            if cooldownMs <= 30_000 then 60_000 else if cooldownMs <= 150_000 then 2 * cooldownMs else 300_000
  {}

  /**
   The fence, exactly: a settlement changes an open row if and only if its ticket
   holds the current, unexpired probe token of the current generation.
   */
  lemma OpenRowChangesIffProbeHeld(row: RowValue, ticket: Ticket, outcome: Outcome, now: nat)
    requires row.open
    ensures SettleRow(row, ticket, outcome, now) != row <==> HoldsProbe(row, ticket, now)
  {}
}
