/**
 Handles over the shared breaker store. The store file is created only to record
 a failure; until then every handle answers from its own row. A handle whose
 store fails becomes process-local for good.
 */
module BreakerStore {
  import opened Basics
  import opened Breaker

  type Origin = string

  /** `Empty` is the private, uninitialized file a failed creator leaves behind. */
  datatype Store = Absent | Empty | Table(rows: map<Origin, RowValue>)

  /** How the filesystem and the database treat one call. */
  datatype Io =
    | Fine
    | LookupFails
    | FailsBeforeCommit(left: Residue)
    | FailsAfterCommit

  /** What a creator that failed before its commit left where there was no table. */
  datatype Residue = Nothing | UninitializedFile | EmptyTable

  datatype Handle = Handle(origin: Origin, hasPath: bool, degraded: bool, local: RowValue)

  /** One transition, as a closure over the row in the source. */
  datatype Change =
    | Admitting(now: nat, leaseMs: nat, token: Token)
    | Settling(ticket: Ticket, outcome: Outcome, now: nat)

  datatype Reply = Answered(reply: Result<Ticket, Refusal>) | Settled

  function Apply(change: Change, row: RowValue): RowValue {
    match change
    case Admitting(now, leaseMs, token) => AdmitRow(row, now, leaseMs, token)
    case Settling(ticket, outcome, now) => SettleRow(row, ticket, outcome, now)
  }

  function ReplyOf(change: Change, row: RowValue): Reply {
    match change
    case Admitting(now, leaseMs, token) => Answered(AdmitReply(row, now, token))
    case Settling(_, _, _) => Settled
  }

  /** The changes that make a store where there is none: settlements of a transient failure. */
  predicate Creates(change: Change) {
    change.Settling? && change.outcome.Transient?
  }

  /** A store that is not there yet holds no rows. */
  function RowsOf(store: Store): map<Origin, RowValue> {
    if store.Table? then store.rows else map[]
  }

  function RowIn(rows: map<Origin, RowValue>, origin: Origin): RowValue {
    if origin in rows then rows[origin] else DEFAULT_ROW
  }

  /** A signed 64-bit column takes the value. */
  predicate Storable(row: RowValue) {
    && row.generation <= I64_MAX && row.cooldownMs <= I64_MAX && row.openUntilMs <= I64_MAX
    && row.probeExpiresMs <= I64_MAX && row.retryAfterUntilMs <= I64_MAX
  }

  /** What one attempt at the shared store did: its new content, and the reply, or none with or without degradation. */
  datatype Shared = Shared(store: Store, reply: Option<Reply>, degraded: bool)

  /** One transaction on an existing table. */
  function Transact(rows: map<Origin, RowValue>, origin: Origin, change: Change, io: Io): Shared {
    var row := RowIn(rows, origin);
    var after := Apply(change, row);
    if io.FailsBeforeCommit? || !Loadable(row) || (after != row && !Storable(after)) then
      Shared(Table(rows), None, true)
    else
      var committed := Table(if after != row then rows[origin := after] else rows);
      if io.FailsAfterCommit? then Shared(committed, None, true)
      else Shared(committed, Some(ReplyOf(change, row)), false)
  }

  function LeftBehind(store: Store, left: Residue): Store {
    match left
    case Nothing => store
    case UninitializedFile => Empty
    case EmptyTable => Table(map[])
  }

  /** `Breaker::shared`, for a handle that has a path and is not degraded. */
  function Share(store: Store, origin: Origin, change: Change, io: Io): Shared {
    if io.LookupFails? then Shared(store, None, true)
    else if store.Table? then Transact(store.rows, origin, change, io)
    else if !Creates(change) then Shared(store, None, false)
    else if io.FailsBeforeCommit? then Shared(LeftBehind(store, io.left), None, true)
    else Transact(map[], origin, change, io)
  }

  datatype Effect = Effect(store: Store, handle: Handle, reply: Reply)

  /** One call on a handle: the shared row if it answers, the local row otherwise. */
  function Call(store: Store, handle: Handle, change: Change, io: Io): Effect {
    var shared := if handle.hasPath && !handle.degraded then Share(store, handle.origin, change, io)
                  else Shared(store, None, handle.degraded);
    if shared.reply.Some? then Effect(shared.store, handle, shared.reply.value)
    else Effect(shared.store,
                handle.(degraded := shared.degraded, local := Apply(change, handle.local)),
                ReplyOf(change, handle.local))
  }

  // ----- The handle as the program updates it -----

  class SharedFile {
    var store: Store

    constructor (initial: Store)
      ensures store == initial
    {
      store := initial;
    }
  }

  class BreakerHandle {
    const origin: Origin
    const hasPath: bool
    var degraded: bool
    const local: Row

    ghost function Value(): Handle
      reads this, local
    {
      Handle(origin, hasPath, degraded, local.Value())
    }

    constructor (origin: Origin, hasPath: bool)
      ensures Value() == Handle(origin, hasPath, false, DEFAULT_ROW) && fresh(local)
    {
      this.origin, this.hasPath, degraded := origin, hasPath, false;
      local := new Row(DEFAULT_ROW);
    }

    /** Runs one transition on the shared store; `None` sends the caller to the local row. */
    method TryShared(file: SharedFile, change: Change, io: Io) returns (reply: Option<Reply>)
      modifies this`degraded, file
      ensures old(Value()).hasPath && !old(Value()).degraded ==>
                Shared(file.store, reply, degraded) == Share(old(file.store), origin, change, io)
      ensures !old(Value()).hasPath || old(Value()).degraded ==>
                reply == None && file.store == old(file.store) && degraded == old(degraded)
    {
      if !hasPath || degraded {
        return None;
      }
      if io.LookupFails? {
        degraded := true;
        return None;
      }
      if !Creates(change) && !file.store.Table? {
        return None;
      }
      if !file.store.Table? {
        if io.FailsBeforeCommit? {
          match io.left {
            case Nothing =>
            case UninitializedFile => file.store := Empty;
            case EmptyTable => file.store := Table(map[]);
          }
          degraded := true;
          return None;
        }
        file.store := Table(map[]);
      }
      var row := RowIn(file.store.rows, origin);
      if io.FailsBeforeCommit? || !Loadable(row) {
        degraded := true;
        return None;
      }
      var after := Apply(change, row);
      if after != row {
        if !Storable(after) {
          degraded := true;
          return None;
        }
        file.store := Table(file.store.rows[origin := after]);
      }
      if io.FailsAfterCommit? {
        degraded := true;
        return None;
      }
      reply := Some(ReplyOf(change, row));
    }

    method Admit(file: SharedFile, now: nat, leaseMs: nat, token: Token, io: Io)
      returns (reply: Result<Ticket, Refusal>)
      modifies this`degraded, file, local
      ensures Effect(file.store, Value(), Answered(reply)) ==
              Call(old(file.store), old(Value()), Admitting(now, leaseMs, token), io)
    {
      var shared := TryShared(file, Admitting(now, leaseMs, token), io);
      if shared.Some? {
        return shared.value.reply;
      }
      reply := local.Admit(now, leaseMs, token);
    }

    method Settle(file: SharedFile, ticket: Ticket, outcome: Outcome, now: nat, io: Io)
      modifies this`degraded, file, local
      ensures Effect(file.store, Value(), Settled) ==
              Call(old(file.store), old(Value()), Settling(ticket, outcome, now), io)
    {
      var shared := TryShared(file, Settling(ticket, outcome, now), io);
      if shared == None {
        local.Settle(ticket, outcome, now);
      }
    }
  }

  // ----- Runs of many handles -----

  datatype World = World(store: Store, handles: seq<Handle>)

  datatype Request = Request(handle: nat, change: Change, io: Io)

  function Step(w: World, request: Request): World {
    if request.handle >= |w.handles| then w
    else
      var e := Call(w.store, w.handles[request.handle], request.change, request.io);
      World(e.store, w.handles[request.handle := e.handle])
  }

  function ReplyTo(w: World, request: Request): Reply {
    if request.handle >= |w.handles| then Settled
    else Call(w.store, w.handles[request.handle], request.change, request.io).reply
  }

  function Run(w: World, requests: seq<Request>): World {
    if requests == [] then w
    else Step(Run(w, requests[..|requests| - 1]), requests[|requests| - 1])
  }

  /** A handle as `Breaker::new` makes it. */
  predicate New(handle: Handle) {
    !handle.degraded && handle.local == DEFAULT_ROW
  }

  predicate AllNew(handles: seq<Handle>) {
    forall i :: 0 <= i < |handles| ==> New(handles[i])
  }

  /** A row that has never failed is left as it is by anything but a failure, and admits at generation zero. */
  lemma DefaultRowAbsorbs(change: Change)
    requires !Creates(change)
    ensures Apply(change, DEFAULT_ROW) == DEFAULT_ROW
  {}

  /** While a handle shares, its own row is untouched; stored rows are always ones the loader accepts. */
  predicate Sound(w: World) {
    && (forall i :: 0 <= i < |w.handles| && w.handles[i].hasPath && !w.handles[i].degraded ==>
          w.handles[i].local == DEFAULT_ROW)
    && (forall i :: 0 <= i < |w.handles| ==> WellFormed(w.handles[i].local))
    && (w.store.Table? ==> forall o :: o in w.store.rows ==> WellFormed(w.store.rows[o]))
  }

  lemma ApplyStaysWellFormed(change: Change, row: RowValue)
    requires WellFormed(row)
    ensures WellFormed(Apply(change, row))
  {}

  lemma StepStaysSound(w: World, request: Request)
    requires Sound(w)
    ensures Sound(Step(w, request))
  {
    if request.handle < |w.handles| {
      var h, change := w.handles[request.handle], request.change;
      ApplyStaysWellFormed(change, h.local);
      ApplyStaysWellFormed(change, RowIn(RowsOf(w.store), h.origin));
      if !Creates(change) {
        DefaultRowAbsorbs(change);
      }
    }
  }

  /**
   In every run: a handle that still shares has the default row of its own, and every
   local and stored row is well formed, so a load never fails its range checks.
   */
  lemma {:induction false} EveryRunIsSound(w: World, requests: seq<Request>)
    requires AllNew(w.handles) && !w.store.Table?
    ensures Sound(Run(w, requests))
  {
    if requests != [] {
      EveryRunIsSound(w, requests[..|requests| - 1]);
      StepStaysSound(Run(w, requests[..|requests| - 1]), requests[|requests| - 1]);
    }
  }

  /** A handle that degraded once is process-local in every continuation of the run. */
  lemma {:induction false} DegradationIsPermanent(w: World, earlier: seq<Request>, later: seq<Request>, i: nat)
    requires i < |Run(w, earlier).handles| && Run(w, earlier).handles[i].degraded
    ensures i < |Run(w, earlier + later).handles| && Run(w, earlier + later).handles[i].degraded
    decreases |later|
  {
    if later == [] {
      assert earlier + later == earlier;
    } else {
      var all := earlier + later;
      assert all[..|all| - 1] == earlier + later[..|later| - 1];
      DegradationIsPermanent(w, earlier, later[..|later| - 1], i);
    }
  }

  // ----- The lazily created store against one that always existed -----

  /** The same world with the table already there. */
  function Eager(w: World): World {
    World(Table(RowsOf(w.store)), w.handles)
  }

  /** Where the lazy call touches no database, no database fault can strike it. */
  function FaultsSeen(w: World, request: Request): Request {
    if !w.store.Table? && !Creates(request.change) && !request.io.LookupFails? then request.(io := Fine)
    else request
  }

  lemma StepsAgree(w: World, request: Request)
    requires Sound(w)
    ensures ReplyTo(w, request) == ReplyTo(Eager(w), FaultsSeen(w, request))
    ensures Eager(Step(w, request)) == Step(Eager(w), FaultsSeen(w, request))
  {}

  /** The requests with the faults each of them met in the lazy run from `w`. */
  function FaultsSeenInRun(w: World, requests: seq<Request>): (seen: seq<Request>)
    ensures |seen| == |requests|
  {
    if requests == [] then []
    else
      var init := requests[..|requests| - 1];
      FaultsSeenInRun(w, init) + [FaultsSeen(Run(w, init), requests[|requests| - 1])]
  }

  /**
   No run of any number of handles tells a store created at the first failure from
   one that always existed: the worlds agree throughout, and so does every reply.
   */
  lemma {:induction false} LazyStoreIsIndistinguishable(w: World, requests: seq<Request>, next: Request)
    requires AllNew(w.handles) && !w.store.Table?
    ensures var seen := FaultsSeenInRun(w, requests);
            && Run(Eager(w), seen) == Eager(Run(w, requests))
            && ReplyTo(Run(w, requests), next) ==
               ReplyTo(Run(Eager(w), seen), FaultsSeen(Run(w, requests), next))
    decreases |requests|
  {
    EveryRunIsSound(w, requests);
    StepsAgree(Run(w, requests), next);
    if requests != [] {
      var init, last := requests[..|requests| - 1], requests[|requests| - 1];
      LazyStoreIsIndistinguishable(w, init, last);
      EveryRunIsSound(w, init);
      StepsAgree(Run(w, init), last);
      var seen := FaultsSeenInRun(w, requests);
      assert seen[..|seen| - 1] == FaultsSeenInRun(w, init);
    }
  }

  // ----- One call, decided -----

  /** The call goes to the store: the handle shares, and there is a table or a failure to record. */
  predicate Reaches(store: Store, h: Handle, change: Change, io: Io) {
    && h.hasPath && !h.degraded && !io.LookupFails?
    && (store.Table? || (change.Settling? && change.outcome.Transient?))
  }

  /** No column of the row overflows the signed integers it is stored in. */
  predicate Fits(row: RowValue) {
    && row.generation <= 9_223_372_036_854_775_807 && row.cooldownMs <= 9_223_372_036_854_775_807
    && row.openUntilMs <= 9_223_372_036_854_775_807 && row.probeExpiresMs <= 9_223_372_036_854_775_807
    && row.retryAfterUntilMs <= 9_223_372_036_854_775_807
  }

  /** It commits unless a call on the store fails, the row there is out of range, or a new row does not fit. */
  predicate Committed(store: Store, h: Handle, change: Change, io: Io) {
    var row := RowIn(RowsOf(store), h.origin);
    && Reaches(store, h, change, io) && !io.FailsBeforeCommit?
    && row.failures < 3 && row.cooldownMs <= 300_000
    && (Apply(change, row) == row || Fits(Apply(change, row)))
  }

  /**
   One call, whatever fails: answered from the shared row where the transaction
   commits and says so, and otherwise from the handle's own. The handle degrades
   exactly at a failure, a committed one included, and no path or store is none.
   */
  lemma CallIsDecided(store: Store, h: Handle, change: Change, io: Io)
    ensures var e := Call(store, h, change, io);
            var shared := Committed(store, h, change, io) && !io.FailsAfterCommit?;
            && e.reply == ReplyOf(change, if shared then RowIn(RowsOf(store), h.origin) else h.local)
            && e.handle.local == (if shared then h.local else Apply(change, h.local))
            && (e.handle.degraded <==>
                  h.degraded || (h.hasPath && io.LookupFails?) || (Reaches(store, h, change, io) && !shared))
  {}

  /** What the call leaves in the store: the new row and every other as it was, or all rows as they were. */
  lemma CallStores(store: Store, h: Handle, change: Change, io: Io)
    ensures var after, row := Call(store, h, change, io).store, RowIn(RowsOf(store), h.origin);
            if Committed(store, h, change, io) then
              && after.Table? && RowIn(after.rows, h.origin) == Apply(change, row)
              && forall o :: o != h.origin ==> RowIn(after.rows, o) == RowIn(RowsOf(store), o)
            else
              && RowsOf(after) == RowsOf(store)
              && (Reaches(store, h, change, io) && !store.Table? && io.FailsBeforeCommit? ==>
                    after == LeftBehind(store, io.left))
  {}

  // ----- What the store is created for -----

  /** A transient failure settled through a handle of this origin. */
  predicate RecordsFailure(w: World, request: Request, origin: Origin) {
    && request.handle < |w.handles| && w.handles[request.handle].origin == origin
    && request.change.Settling? && request.change.outcome.Transient?
  }

  lemma {:induction false} OriginsStay(w: World, requests: seq<Request>)
    ensures |Run(w, requests).handles| == |w.handles|
    ensures forall i :: 0 <= i < |w.handles| ==> Run(w, requests).handles[i].origin == w.handles[i].origin
  {
    if requests != [] {
      OriginsStay(w, requests[..|requests| - 1]);
    }
  }

  /** One step stores a row for an origin that had none, or makes the file, only to record a failure of that origin. */
  lemma StepStoresFailures(w: World, request: Request, origin: Origin)
    ensures var w' := Step(w, request);
            && (origin in RowsOf(w'.store) && origin !in RowsOf(w.store) ==> RecordsFailure(w, request, origin))
            && (w.store.Absent? && !w'.store.Absent? ==> exists o :: RecordsFailure(w, request, o))
  {
    if request.handle < |w.handles| {
      var h := w.handles[request.handle];
      if !Creates(request.change) {
        DefaultRowAbsorbs(request.change);
      } else {
        assert RecordsFailure(w, request, h.origin);
      }
    }
  }

  /**
   A store that did not exist is made only to record a transient failure, and an
   origin has a row only after one of its own: one that never failed costs no row.
   */
  lemma {:induction false} StoreRecordsOnlyFailures(w: World, requests: seq<Request>, origin: Origin)
    requires w.store.Absent?
    ensures var after := Run(w, requests).store;
            && (origin in RowsOf(after) ==> exists k :: 0 <= k < |requests| && RecordsFailure(w, requests[k], origin))
            && (!after.Absent? ==> exists k, o :: 0 <= k < |requests| && RecordsFailure(w, requests[k], o))
  {
    if requests != [] {
      var init, last := requests[..|requests| - 1], requests[|requests| - 1];
      StoreRecordsOnlyFailures(w, init, origin);
      OriginsStay(w, init);
      StepStoresFailures(Run(w, init), last, origin);
      if origin in RowsOf(Run(w, init).store) {
        var k :| 0 <= k < |init| && RecordsFailure(w, init[k], origin);
        assert RecordsFailure(w, requests[k], origin);
      }
      if !Run(w, init).store.Absent? {
        var k, o :| 0 <= k < |init| && RecordsFailure(w, init[k], o);
        assert RecordsFailure(w, requests[k], o);
      } else if !Run(w, requests).store.Absent? {
        var o :| RecordsFailure(Run(w, init), last, o);
        assert RecordsFailure(w, requests[|requests| - 1], o);
      }
    }
  }
}
