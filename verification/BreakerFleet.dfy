/**
 The fence across processes: any number of handles on one store that is not there
 yet, each settling only tickets it was given. The shared row of every origin goes
 through a run of `Circuit`, so what holds in every run of a circuit holds of the
 shared store, before its creation and after.
 */
module BreakerFleet {
  import opened Basics
  import opened Breaker
  import Circuit
  import opened BreakerStore

  /** `held` are the tickets each handle was given; every admission draws the next token. */
  datatype Fleet = Fleet(world: World, held: seq<set<Ticket>>, tokens: nat)

  datatype Act =
    | Ask(handle: nat, now: nat, leaseMs: nat, io: Io)
    | Tell(handle: nat, ticket: Ticket, outcome: Outcome, now: nat, io: Io)

  function ChangeOf(f: Fleet, act: Act): Change {
    match act
    case Ask(_, now, leaseMs, _) => Admitting(now, leaseMs, f.tokens)
    case Tell(_, ticket, outcome, now, _) => Settling(ticket, outcome, now)
  }

  /** A handle that exists and, to settle, holds the ticket. */
  predicate Possible(f: Fleet, act: Act) {
    act.handle < |f.world.handles| && act.handle < |f.held| && (act.Tell? ==> act.ticket in f.held[act.handle])
  }

  function Given(reply: Reply): set<Ticket> {
    if reply.Answered? && reply.reply.Ok? then {reply.reply.value} else {}
  }

  function Move(f: Fleet, act: Act): Fleet {
    if !Possible(f, act) then f
    else
      var request := Request(act.handle, ChangeOf(f, act), act.io);
      Fleet(Step(f.world, request),
            f.held[act.handle := f.held[act.handle] + Given(ReplyTo(f.world, request))],
            if act.Ask? then f.tokens + 1 else f.tokens)
  }

  function Sail(w: World, acts: seq<Act>): Fleet {
    if acts == [] then Fleet(w, seq(|w.handles|, i => {}), 0)
    else Move(Sail(w, acts[..|acts| - 1]), acts[|acts| - 1])
  }

  /** New handles before the first failure: no store, an uninitialized file, or a table without rows. */
  predicate Fresh(w: World) {
    AllNew(w.handles) && RowsOf(w.store) == map[]
  }

  /** The row every sharing handle of this origin answers from. */
  function SharedRow(w: World, origin: Origin): RowValue {
    RowIn(RowsOf(w.store), origin)
  }

  // ----- The circuit behind one origin -----

  predicate Shares(h: Handle, origin: Origin) {
    h.origin == origin && h.hasPath && !h.degraded
  }

  /**
   A sharing handle's call takes effect: its transaction commits, whether or not the
   caller is told, or no store exists and it is one that needs none.
   */
  predicate TakesEffect(store: Store, origin: Origin, change: Change, io: Io) {
    var row := RowIn(RowsOf(store), origin);
    var after := Apply(change, row);
    && !io.LookupFails?
    && (store.Table? || Creates(change) ==>
          !io.FailsBeforeCommit? && Loadable(row) && (after == row || Storable(after)))
  }

  /** What an act does to this origin's circuit. */
  function EventOf(f: Fleet, act: Act, origin: Origin): Option<Circuit.Event> {
    if Possible(f, act) && Shares(f.world.handles[act.handle], origin)
       && TakesEffect(f.world.store, origin, ChangeOf(f, act), act.io)
    then Some(match act
              case Ask(_, now, leaseMs, _) => Circuit.Admission(now, leaseMs, f.tokens)
              case Tell(_, ticket, outcome, now, _) => Circuit.Settlement(ticket, outcome, now))
    else None
  }

  function EventsOf(w: World, acts: seq<Act>, origin: Origin): seq<Circuit.Event> {
    if acts == [] then []
    else
      var init := acts[..|acts| - 1];
      var event := EventOf(Sail(w, init), acts[|acts| - 1], origin);
      EventsOf(w, init, origin) + if event.Some? then [event.value] else []
  }

  /** The fleet's shared row is the circuit's, and a sharing handle holds only tickets the circuit issued. */
  ghost predicate Linked(f: Fleet, origin: Origin, c: Circuit.State) {
    && Sound(f.world) && SharedRow(f.world, origin) == c.row
    && c.tokens <= f.tokens
    && |f.held| == |f.world.handles|
    && forall i, t :: 0 <= i < |f.held| && Shares(f.world.handles[i], origin) && t in f.held[i] ==> t in c.issued
  }

  function After(c: Circuit.State, event: Option<Circuit.Event>): Circuit.State {
    if event.Some? then Circuit.Step(c, event.value) else c
  }

  /** The row, and what the acting handle then holds. */
  lemma ActLinks(f: Fleet, act: Act, origin: Origin, c: Circuit.State)
    requires Linked(f, origin, c) && Possible(f, act)
    ensures var f' := Move(f, act);
            var c' := After(c, EventOf(f, act, origin));
            && SharedRow(f'.world, origin) == c'.row
            && (Shares(f'.world.handles[act.handle], origin) ==>
                  Shares(f.world.handles[act.handle], origin)
                  && forall t :: t in f'.held[act.handle] ==> t in c'.issued)
  {}

  lemma OnlyItsHandleMoves(f: Fleet, act: Act, i: nat)
    requires |f.held| == |f.world.handles| && i < |f.held| && i != act.handle
    ensures var f' := Move(f, act);
            |f'.held| == |f'.world.handles| == |f.held|
            && f'.held[i] == f.held[i] && f'.world.handles[i] == f.world.handles[i]
  {}

  lemma CircuitOnlyGrows(c: Circuit.State, event: Option<Circuit.Event>)
    ensures forall t :: t in c.issued ==> t in After(c, event).issued
  {}

  lemma MoveLinks(f: Fleet, act: Act, origin: Origin, c: Circuit.State)
    requires Linked(f, origin, c)
    ensures Linked(Move(f, act), origin, After(c, EventOf(f, act, origin)))
  {
    if Possible(f, act) {
      var f', c' := Move(f, act), After(c, EventOf(f, act, origin));
      ActLinks(f, act, origin, c);
      StepStaysSound(f.world, Request(act.handle, ChangeOf(f, act), act.io));
      CircuitOnlyGrows(c, EventOf(f, act, origin));
      forall i, t | 0 <= i < |f'.held| && Shares(f'.world.handles[i], origin) && t in f'.held[i]
        ensures t in c'.issued
      {
        if i != act.handle {
          OnlyItsHandleMoves(f, act, i);
        }
      }
    }
  }

  /** In every run of every new fleet, each origin's shared row is that of the circuit run its calls make. */
  lemma {:induction false} EveryFleetFollowsItsCircuits(w: World, acts: seq<Act>, origin: Origin)
    requires Fresh(w)
    ensures Linked(Sail(w, acts), origin, Circuit.Run(EventsOf(w, acts, origin)))
  {
    if acts != [] {
      var init, last := acts[..|acts| - 1], acts[|acts| - 1];
      EveryFleetFollowsItsCircuits(w, init, origin);
      var before := EventsOf(w, init, origin);
      var event := EventOf(Sail(w, init), last, origin);
      MoveLinks(Sail(w, init), last, origin, Circuit.Run(before));
      if event.Some? {
        assert (before + [event.value])[..|before|] == before;
      } else {
        assert before + [] == before;
      }
    }
  }

  /** A probe ticket is held by one handle: its token was drawn for that one admission. */
  ghost predicate ProbesAreHeldOnce(f: Fleet) {
    && (forall i, t :: 0 <= i < |f.held| && t in f.held[i] && t.probe.Some? ==> t.probe.value < f.tokens)
    && (forall i, j, t :: 0 <= i < j < |f.held| && t in f.held[i] && t in f.held[j] ==> t.probe.None?)
  }

  lemma MoveKeepsProbesApart(f: Fleet, act: Act)
    requires ProbesAreHeldOnce(f)
    ensures ProbesAreHeldOnce(Move(f, act))
  {}

  lemma {:induction false} EveryFleetKeepsProbesApart(w: World, acts: seq<Act>)
    ensures ProbesAreHeldOnce(Sail(w, acts))
  {
    if acts != [] {
      EveryFleetKeepsProbesApart(w, acts[..|acts| - 1]);
      MoveKeepsProbesApart(Sail(w, acts[..|acts| - 1]), acts[|acts| - 1]);
    }
  }

  /**
   Whatever the handles did, and however their store failed them: a ticket held by a
   handle that still shares changes an open shared row only as the probe of that row's
   generation with the token drawn last on that circuit, and no other handle holds a
   ticket that could.
   */
  lemma OneProbeAcrossTheFleet(w: World, acts: seq<Act>, origin: Origin, i: nat, j: nat, t: Ticket, u: Ticket,
                               outcome: Outcome, now: nat)
    requires Fresh(w)
    requires var f := Sail(w, acts);
             && i < |f.held| == |f.world.handles| && j < |f.held|
             && Shares(f.world.handles[i], origin) && Shares(f.world.handles[j], origin)
             && t in f.held[i] && u in f.held[j]
    requires var row := SharedRow(Sail(w, acts).world, origin);
             row.open && SettleRow(row, t, outcome, now) != row
    ensures var row := SharedRow(Sail(w, acts).world, origin);
            && t.generation == row.generation && t.probe.Some? && now < row.probeExpiresMs
            && t.probe.value + 1 == Circuit.Run(EventsOf(w, acts, origin)).tokens
            && (SettleRow(row, u, outcome, now) != row ==> i == j && u == t)
  {
    var events := EventsOf(w, acts, origin);
    EveryFleetFollowsItsCircuits(w, acts, origin);
    EveryFleetKeepsProbesApart(w, acts);
    Circuit.OnlyTheLatestProbeSettles(events, t, outcome, now);
    Circuit.OnlyTheLatestProbeSettles(events, u, outcome, now);
  }
}
