/**
 Receipt-last publication: any number of exporters race into one directory, crash
 anywhere, and lose power together. Each writes and syncs its files privately, then
 links them in order, syncing the directory after each; a link is atomic, shares the
 staged file, and refuses a name that exists. No one else writes there.
 */
module ExportFrame {
  import opened Basics

  type Bytes = seq<nat>
  type Digest = nat
  /** One invocation of the export, with a staging directory of its own. */
  type Exporter = nat

  datatype Name = Dataset | Labels | Receipt

  const FILES: nat := 3

  /** The order the payloads are checked, staged and linked in: the receipt last. */
  function NameAt(k: nat): Name {
    if k == 0 then Dataset else if k == 1 then Labels else Receipt
  }

  datatype Payload = Payload(dataset: Bytes, labels: Bytes)

  /** A receipt records the digest of each data file. */
  datatype Record = Record(dataset: Digest, labels: Digest)

  /** What each exporter exports, and how digests and receipts are written. */
  datatype Setting = Setting(
    payloads: Exporter -> Payload,
    digest: Bytes -> Digest,
    encode: Record -> Bytes,
    decode: Bytes -> Option<Record>)

  ghost predicate ReceiptsRoundTrip(x: Setting) {
    forall r :: x.decode(x.encode(r)) == Some(r)
  }

  /** A file of an exporter's staging directory. */
  type File = (Exporter, Name)

  /** What an exporter means a file to hold. */
  function Body(x: Setting, file: File): Bytes {
    var p := x.payloads(file.0);
    match file.1
    case Dataset => p.dataset
    case Labels => p.labels
    case Receipt => x.encode(Record(x.digest(p.dataset), x.digest(p.labels)))
  }

  /** Where an exporter stands: the names found free, the file being staged, the names linked. */
  datatype Stage =
    | Checking(found: nat)
    | Staging(file: nat)
    | Linking(linked: nat)
    | SyncingLink(link: nat)
    | Finished
    | Stopped

  /**
   `staged` holds what has been written of each file so far; `visible` says which
   exporter's staged file a name links. `synced` and `durable` survive a power loss.
   */
  datatype State = State(
    visible: map<Name, Exporter>,
    durable: set<Name>,
    staged: map<File, Bytes>,
    synced: set<File>,
    stages: map<Exporter, Stage>)

  /** A write takes any number of bytes; a power loss keeps any of the rest, of any length. */
  datatype Action =
    | Advance(exporter: Exporter, bytes: nat)
    | Crash(exporter: Exporter)
    | PowerLoss(kept: set<Name>, lengths: map<File, nat>)

  const INITIAL: State := State(map[], {}, map[], {}, map[])

  function StageOf(s: State, e: Exporter): Stage {
    if e in s.stages then s.stages[e] else Checking(0)
  }

  function Move(s: State, e: Exporter, stage: Stage): State {
    s.(stages := s.stages[e := stage])
  }

  function Prefix(body: Bytes, length: nat): Bytes {
    if length < |body| then body[..length] else body
  }

  /** One system call on the file being staged: create it, write more of it, or sync it when it is all there. */
  function StageStep(x: Setting, s: State, e: Exporter, k: nat, bytes: nat): State {
    var file := (e, NameAt(k));
    if file !in s.staged then s.(staged := s.staged[file := []])
    else if s.staged[file] != Body(x, file) then
      s.(staged := s.staged[file := Prefix(Body(x, file), |s.staged[file]| + bytes)])
    else Move(s, e, Staging(k + 1)).(synced := s.synced + {file})
  }

  /** A link fails where the name exists or nothing was staged. */
  function LinkStep(s: State, e: Exporter, k: nat): State {
    if NameAt(k) in s.visible || (e, NameAt(k)) !in s.staged then Move(s, e, Stopped)
    else Move(s, e, SyncingLink(k)).(visible := s.visible[NameAt(k) := e])
  }

  /** One system call of one exporter. */
  function AdvanceStep(x: Setting, s: State, e: Exporter, bytes: nat): State {
    match StageOf(s, e)
    case Checking(k) =>
      if k >= FILES then Move(s, e, Staging(0))
      else Move(s, e, if NameAt(k) in s.visible then Stopped else Checking(k + 1))
    case Staging(k) => if k >= FILES then Move(s, e, Linking(0)) else StageStep(x, s, e, k, bytes)
    case Linking(k) => if k >= FILES then Move(s, e, Finished) else LinkStep(s, e, k)
    case SyncingLink(k) => Move(s, e, Linking(k + 1)).(durable := s.visible.Keys)
    case _ => s
  }

  /** Every process stops; a link or a staged byte that was not synced may be gone. */
  function LossStep(s: State, kept: set<Name>, lengths: map<File, nat>): State {
    s.(visible := map n | n in s.visible && (n in s.durable || n in kept) :: s.visible[n],
       staged := map f | f in s.staged ::
         if f in s.synced || f !in lengths then s.staged[f] else Prefix(s.staged[f], lengths[f]),
       stages := map e | e in s.stages :: Stopped)
  }

  function Step(x: Setting, s: State, action: Action): State {
    match action
    case Advance(e, bytes) => AdvanceStep(x, s, e, bytes)
    case Crash(e) => Move(s, e, Stopped)
    case PowerLoss(kept, lengths) => LossStep(s, kept, lengths)
  }

  function Run(x: Setting, actions: seq<Action>): State {
    if actions == [] then INITIAL else Step(x, Run(x, actions[..|actions| - 1]), actions[|actions| - 1])
  }

  /** What the two hazards do: a crash stops its exporter, a power loss all of them, with whatever was not synced. */
  lemma HazardsStrike(x: Setting, s: State, e: Exporter, file: File, name: Name)
    ensures StageOf(Step(x, s, Crash(e)), e).Stopped?
    ensures var s' := Step(x, s, PowerLoss({}, map[file := 0]));
            && (e in s.stages ==> StageOf(s', e).Stopped?)
            && (name in s'.visible <==> name in s.visible && name in s.durable)
            && (file in s.staged && file !in s.synced ==> s'.staged[file] == [])
            && (file in s.staged && file in s.synced ==> s'.staged[file] == s.staged[file])
  {}

  // ----- Every run -----

  predicate OwnedBy(s: State, name: Name, e: Exporter) {
    name in s.visible && s.visible[name] == e
  }

  predicate Settled(s: State, name: Name, e: Exporter) {
    OwnedBy(s, name, e) && name in s.durable
  }

  /** The first `files` of an exporter's files are synced. */
  predicate HasSynced(s: State, e: Exporter, files: nat) {
    && (files > 0 ==> (e, Dataset) in s.synced)
    && (files > 1 ==> (e, Labels) in s.synced)
    && (files > 2 ==> (e, Receipt) in s.synced)
  }

  /** The first `links` names are the exporter's for good. */
  predicate HasLinked(s: State, e: Exporter, links: nat) {
    && (links > 0 ==> Settled(s, Dataset, e))
    && (links > 1 ==> Settled(s, Labels, e))
    && (links > 2 ==> Settled(s, Receipt, e))
  }

  /** What an exporter at this stage has synced and owns. */
  predicate StageOwns(s: State, e: Exporter, stage: Stage) {
    match stage
    case Staging(k) => HasSynced(s, e, k)
    case Linking(k) => HasSynced(s, e, FILES) && HasLinked(s, e, k)
    case SyncingLink(k) =>
      k < FILES && HasSynced(s, e, FILES) && HasLinked(s, e, k) && OwnedBy(s, NameAt(k), e)
    case Finished => HasLinked(s, e, FILES)
    case _ => true
  }

  /** Names appear in order, all of one exporter, each durable before the next. */
  predicate InOrder(s: State) {
    && (Labels in s.visible ==> Settled(s, Dataset, s.visible[Labels]))
    && (Receipt in s.visible ==> Settled(s, Labels, s.visible[Receipt]))
    && s.durable <= s.visible.Keys
  }

  /** A synced file is whole, and only synced files are visible. */
  ghost predicate Whole(x: Setting, s: State) {
    && (forall file :: file in s.synced ==> file in s.staged && s.staged[file] == Body(x, file))
    && (forall name :: name in s.visible ==> (s.visible[name], name) in s.synced)
  }

  ghost predicate Owned(x: Setting, s: State) {
    InOrder(s) && Whole(x, s) && forall e: Exporter :: StageOwns(s, e, StageOf(s, e))
  }

  /** Without a power loss, nothing visible, durable or synced is taken back. */
  predicate Grows(s: State, s': State) {
    && (forall name :: name in s.visible ==> OwnedBy(s', name, s.visible[name]))
    && s.durable <= s'.durable && s.synced <= s'.synced
  }

  lemma AdvanceGrows(x: Setting, s: State, e: Exporter, bytes: nat)
    requires InOrder(s)
    ensures Grows(s, AdvanceStep(x, s, e, bytes))
  {}

  lemma GrownStillOwns(s: State, s': State, e: Exporter, stage: Stage)
    requires Grows(s, s') && StageOwns(s, e, stage)
    ensures StageOwns(s', e, stage)
  {}

  lemma StagingStaysOwned(x: Setting, s: State, e: Exporter, k: nat, bytes: nat)
    requires Owned(x, s) && StageOf(s, e) == Staging(k) && k < FILES
    ensures var s' := StageStep(x, s, e, k, bytes);
            InOrder(s') && Whole(x, s') && StageOwns(s', e, StageOf(s', e))
  {}

  lemma LinkingStaysOwned(x: Setting, s: State, e: Exporter, k: nat)
    requires Owned(x, s) && StageOf(s, e) == Linking(k) && k < FILES
    ensures var s' := LinkStep(s, e, k);
            InOrder(s') && Whole(x, s') && StageOwns(s', e, StageOf(s', e))
  {}

  /** What the acting exporter has and owns after its step, and what all see. */
  lemma OwnStep(x: Setting, s: State, e: Exporter, bytes: nat)
    requires Owned(x, s)
    ensures var s' := AdvanceStep(x, s, e, bytes);
            InOrder(s') && Whole(x, s') && StageOwns(s', e, StageOf(s', e))
  {
    assert StageOwns(s, e, StageOf(s, e));
    match StageOf(s, e) {
      case Staging(k) => if k < FILES { StagingStaysOwned(x, s, e, k, bytes); }
      case Linking(k) => if k < FILES { LinkingStaysOwned(x, s, e, k); }
      case _ =>
    }
  }

  lemma OthersStay(x: Setting, s: State, e: Exporter, bytes: nat, other: Exporter)
    requires e != other
    ensures StageOf(AdvanceStep(x, s, e, bytes), other) == StageOf(s, other)
  {}

  /** What one exporter has and owns, no other exporter's step takes away. */
  lemma OthersKeep(x: Setting, s: State, e: Exporter, bytes: nat, other: Exporter)
    requires Owned(x, s) && e != other
    ensures var s' := AdvanceStep(x, s, e, bytes); StageOwns(s', other, StageOf(s', other))
  {
    OthersStay(x, s, e, bytes, other);
    AdvanceGrows(x, s, e, bytes);
    GrownStillOwns(s, AdvanceStep(x, s, e, bytes), other, StageOf(s, other));
  }

  lemma LossStaysOwned(x: Setting, s: State, kept: set<Name>, lengths: map<File, nat>)
    requires Owned(x, s)
    ensures Owned(x, LossStep(s, kept, lengths))
  {}

  lemma StepStaysOwned(x: Setting, s: State, action: Action)
    requires Owned(x, s)
    ensures Owned(x, Step(x, s, action))
  {
    match action {
      case Advance(e, bytes) =>
        OwnStep(x, s, e, bytes);
        forall other: Exporter | other != e
          ensures StageOwns(Step(x, s, action), other, StageOf(Step(x, s, action), other))
        {
          OthersKeep(x, s, e, bytes, other);
        }
      case Crash(e) =>
        forall other: Exporter ensures StageOwns(Step(x, s, action), other, StageOf(Step(x, s, action), other)) {
          assert StageOwns(s, other, StageOf(s, other));
        }
      case PowerLoss(kept, lengths) => LossStaysOwned(x, s, kept, lengths);
    }
  }

  lemma {:induction false} EveryRunIsOwned(x: Setting, actions: seq<Action>)
    ensures Owned(x, Run(x, actions))
  {
    if actions != [] {
      EveryRunIsOwned(x, actions[..|actions| - 1]);
      StepStaysOwned(x, Run(x, actions[..|actions| - 1]), actions[|actions| - 1]);
    }
  }

  /** In every run all visible files are those of the exporter that linked the dataset; a receipt is never alone. */
  lemma VisibleFilesHaveOneOwner(x: Setting, actions: seq<Action>, name: Name)
    requires name in Run(x, actions).visible
    ensures var visible := Run(x, actions).visible;
            && Dataset in visible && visible[name] == visible[Dataset]
            && (name.Receipt? ==> Labels in visible)
  {
    EveryRunIsOwned(x, actions);
  }

  /** The name is this exporter's: for good, or until a power loss. */
  predicate Keeps(s: State, name: Name, e: Exporter, durable: bool) {
    OwnedBy(s, name, e) && (durable ==> name in s.durable)
  }

  lemma KeepsOneMore(x: Setting, actions: seq<Action>, action: Action, name: Name, e: Exporter, durable: bool)
    requires Keeps(Run(x, actions), name, e, durable) && (durable || !action.PowerLoss?)
    ensures Keeps(Run(x, actions + [action]), name, e, durable)
  {}

  /** A durable name stays as it is in every continuation; one not yet synced can only be lost with the power. */
  lemma {:induction false} DurableNamesStay(x: Setting, actions: seq<Action>, more: seq<Action>, name: Name,
                                            e: Exporter,
                                            durable: bool)
    requires Keeps(Run(x, actions), name, e, durable)
    requires durable || forall i :: 0 <= i < |more| ==> !more[i].PowerLoss?
    ensures Keeps(Run(x, actions + more), name, e, durable)
    decreases |more|
  {
    if more == [] {
      assert actions + more == actions;
    } else {
      var init, last := more[..|more| - 1], more[|more| - 1];
      DurableNamesStay(x, actions, init, name, e, durable);
      KeepsOneMore(x, actions + init, last, name, e, durable);
      assert actions + more == actions + init + [last];
    }
  }

  // ----- Verification -----

  /** What a name holds at this moment: whatever has been written of the file it links. */
  function ContentOf(s: State, name: Name): Option<Bytes> {
    if name in s.visible && (s.visible[name], name) in s.staged then Some(s.staged[(s.visible[name], name)]) else None
  }

  /**
   No visible file is ever partial: it holds all its exporter meant to write. So the
   data files beside a receipt have the digests that the receipt records.
   */
  lemma VisibleFilesAreWhole(x: Setting, actions: seq<Action>, name: Name)
    requires name in Run(x, actions).visible
    ensures var s := Run(x, actions);
            && ContentOf(s, name) == Some(Body(x, (s.visible[name], name)))
            && (name.Receipt? && ReceiptsRoundTrip(x) ==>
                  && ContentOf(s, Dataset).Some? && ContentOf(s, Labels).Some?
                  && x.decode(ContentOf(s, Receipt).value)
                     == Some(Record(x.digest(ContentOf(s, Dataset).value), x.digest(ContentOf(s, Labels).value))))
  {
    EveryRunIsOwned(x, actions);
  }

  predicate HasDigest(x: Setting, content: Option<Bytes>, expected: Digest) {
    content.Some? && x.digest(content.value) == expected
  }

  /** `verify_export`, whose three reads may meet three different moments of the run. */
  predicate Verifies(x: Setting, atReceipt: State, atDataset: State, atLabels: State) {
    ContentOf(atReceipt, Receipt).Some?
    && var record := x.decode(ContentOf(atReceipt, Receipt).value);
    record.Some?
    && HasDigest(x, ContentOf(atDataset, Dataset), record.value.dataset)
    && HasDigest(x, ContentOf(atLabels, Labels), record.value.labels)
  }

  /**
   Verification accepts exactly the committed exports: whatever exporters do before,
   between and after its three reads, it accepts if and only if the receipt is visible
   when it begins.
   */
  lemma VerificationAcceptsExactlyCommitted(x: Setting, before: seq<Action>, between: seq<Action>, later: seq<Action>)
    requires ReceiptsRoundTrip(x)
    ensures Verifies(x, Run(x, before), Run(x, before + between), Run(x, before + between + later))
            <==> Receipt in Run(x, before).visible
  {
    if Receipt in Run(x, before).visible {
      EveryRunIsOwned(x, before);
      var e := Run(x, before).visible[Receipt];
      DurableNamesStay(x, before, between, Dataset, e, true);
      DurableNamesStay(x, before, between, Labels, e, true);
      DurableNamesStay(x, before + between, later, Labels, e, true);
      VisibleFilesAreWhole(x, before, Receipt);
      VisibleFilesAreWhole(x, before + between, Dataset);
      VisibleFilesAreWhole(x, before + between + later, Labels);
    }
  }

  /** At most one exporter ever finishes, and what it published stays, power losses included. */
  lemma OneExporterFinishes(x: Setting, actions: seq<Action>, more: seq<Action>, e: Exporter, other: Exporter)
    requires StageOf(Run(x, actions), e).Finished?
    ensures OwnedBy(Run(x, actions + more), Receipt, e)
    ensures StageOf(Run(x, actions + more), other).Finished? ==> other == e
  {
    EveryRunIsOwned(x, actions);
    EveryRunIsOwned(x, actions + more);
    assert StageOwns(Run(x, actions), e, StageOf(Run(x, actions), e));
    DurableNamesStay(x, actions, more, Receipt, e, true);
    assert StageOwns(Run(x, actions + more), other, StageOf(Run(x, actions + more), other));
  }

  /** What an altered or missing file does: another body passes exactly if its digest is the recorded one. */
  lemma AlteredFilesAreDetected(x: Setting, actions: seq<Action>, dataset: Bytes, labels: Bytes)
    requires ReceiptsRoundTrip(x) && Receipt in Run(x, actions).visible
    ensures var s := Run(x, actions);
            var e := s.visible[Receipt];
            var altered := s.(staged := s.staged[(e, Dataset) := dataset][(e, Labels) := labels]);
            Verifies(x, altered, altered, altered) <==>
            x.digest(dataset) == x.digest(x.payloads(e).dataset) && x.digest(labels) == x.digest(x.payloads(e).labels)
    ensures var s := Run(x, actions);
            && !Verifies(x, s, s.(visible := s.visible - {Dataset}), s)
            && !Verifies(x, s, s, s.(visible := s.visible - {Labels}))
  {
    EveryRunIsOwned(x, actions);
    VisibleFilesAreWhole(x, actions, Receipt);
  }

  // ----- Existing exports are left alone -----

  /** Not past its checks, and with nothing written. */
  predicate Untouched(s: State, e: Exporter, k: nat) {
    && (StageOf(s, e).Stopped? || (StageOf(s, e).Checking? && StageOf(s, e).found <= k))
    && forall name :: (e, name) !in s.staged
  }

  lemma UntouchedStep(x: Setting, s: State, action: Action, e: Exporter, k: nat)
    requires Untouched(s, e, k) && k < FILES && NameAt(k) in s.visible && NameAt(k) in s.durable && InOrder(s)
    ensures Untouched(Step(x, s, action), e, k)
    ensures NameAt(k) in Step(x, s, action).visible && NameAt(k) in Step(x, s, action).durable
  {
    if action.Advance? {
      AdvanceGrows(x, s, action.exporter, action.bytes);
    }
  }

  /** An exporter that starts where any name already stands for good writes nothing, ever. */
  lemma {:induction false} ExistingExportStopsOthers(x: Setting, actions: seq<Action>, more: seq<Action>, e: Exporter,
                                                     k: nat)
    requires k < FILES && NameAt(k) in Run(x, actions).durable && Untouched(Run(x, actions), e, k)
    ensures Untouched(Run(x, actions + more), e, k) && NameAt(k) in Run(x, actions + more).durable
    decreases |more|
  {
    if more == [] {
      assert actions + more == actions;
    } else {
      var init, last := more[..|more| - 1], more[|more| - 1];
      ExistingExportStopsOthers(x, actions, init, e, k);
      EveryRunIsOwned(x, actions + init);
      UntouchedStep(x, Run(x, actions + init), last, e, k);
      assert (actions + more)[..|actions + more| - 1] == actions + init;
    }
  }

  // ----- A lone exporter finishes -----

  /** The calls left for one file: create it, write each byte, sync it. */
  function FileWork(x: Setting, s: State, file: File): nat {
    if file !in s.staged then |Body(x, file)| + 3
    else if s.staged[file] == Body(x, file) then 1
    else if |s.staged[file]| < |Body(x, file)| then 2 + |Body(x, file)| - |s.staged[file]|
    else 2
  }

  function StagingWork(x: Setting, s: State, e: Exporter, k: nat): nat
    decreases FILES - k
  {
    if k >= FILES then 0 else FileWork(x, s, (e, NameAt(k))) + StagingWork(x, s, e, k + 1)
  }

  /** A bound on the calls left until an exporter that nobody hinders has finished. */
  function Work(x: Setting, s: State, e: Exporter): nat {
    match StageOf(s, e)
    case Checking(k) => 9 + StagingWork(x, s, e, 0) + if k < FILES then FILES - k else 0
    case Staging(k) => 8 + StagingWork(x, s, e, k)
    case Linking(k) => if k < FILES then 2 * (FILES - k) + 1 else 1
    case SyncingLink(k) => if k < FILES then 2 * (FILES - k) else 2
    case _ => 0
  }

  /** None of the names the exporter has yet to link is taken. */
  predicate Unhindered(s: State, e: Exporter) {
    match StageOf(s, e)
    case Checking(_) => s.visible == map[]
    case Staging(_) => s.visible == map[]
    case Linking(k) => forall j: nat :: k <= j < FILES ==> NameAt(j) !in s.visible
    case SyncingLink(k) => forall j: nat :: k < j < FILES ==> NameAt(j) !in s.visible
    case Finished => true
    case Stopped => false
  }

  /** Work on one file leaves the work on the later ones as it was. */
  lemma {:induction false} LaterWorkStays(x: Setting, s: State, s': State, e: Exporter, from: nat)
    requires forall j: nat :: from <= j < FILES ==> FileWork(x, s', (e, NameAt(j))) == FileWork(x, s, (e, NameAt(j)))
    ensures StagingWork(x, s', e, from) == StagingWork(x, s, e, from)
    decreases FILES - from
  {}

  lemma StagingProgresses(x: Setting, s: State, e: Exporter, k: nat, bytes: nat)
    requires StageOf(s, e) == Staging(k) && k < FILES && bytes > 0
    ensures var s' := StageStep(x, s, e, k, bytes);
            Work(x, s', e) < Work(x, s, e) && StageOf(s', e).Staging? && s'.visible == s.visible
  {
    var s', file := StageStep(x, s, e, k, bytes), (e, NameAt(k));
    LaterWorkStays(x, s, s', e, k + 1);
    if file in s.staged && s.staged[file] != Body(x, file) {
      assert FileWork(x, s', file) < FileWork(x, s, file);
    }
  }

  lemma AdvanceProgresses(x: Setting, s: State, e: Exporter, bytes: nat)
    requires Owned(x, s) && Unhindered(s, e) && !StageOf(s, e).Finished? && bytes > 0
    ensures var s' := AdvanceStep(x, s, e, bytes); Unhindered(s', e) && Work(x, s', e) < Work(x, s, e)
  {
    assert StageOwns(s, e, StageOf(s, e));
    match StageOf(s, e) {
      case Staging(k) =>
        if k < FILES {
          StagingProgresses(x, s, e, k, bytes);
        }
      case Linking(k) =>
      case SyncingLink(k) =>
      case Checking(k) =>
        LaterWorkStays(x, s, AdvanceStep(x, s, e, bytes), e, 0);
    }
  }

  /** The exporter's own calls, the i-th writing `bytes[i]` bytes where it writes. */
  function Alone(e: Exporter, bytes: seq<nat>): (actions: seq<Action>)
    ensures |actions| == |bytes|
  {
    seq(|bytes|, i requires 0 <= i < |bytes| => Advance(e, bytes[i]))
  }

  /** Left alone for long enough, an exporter whose names are free finishes, however its writes are cut. */
  lemma {:induction false} LoneExporterFinishes(x: Setting, actions: seq<Action>, e: Exporter, bytes: seq<nat>)
    requires Unhindered(Run(x, actions), e) && |bytes| >= Work(x, Run(x, actions), e)
    requires forall i :: 0 <= i < |bytes| ==> bytes[i] > 0
    ensures StageOf(Run(x, actions + Alone(e, bytes)), e).Finished?
    decreases |bytes|
  {
    var s := Run(x, actions);
    if |bytes| == 0 {
      assert actions + Alone(e, bytes) == actions;
    } else {
      var more := actions + [Advance(e, bytes[0])];
      assert more[..|actions|] == actions;
      assert actions + Alone(e, bytes) == more + Alone(e, bytes[1..]);
      EveryRunIsOwned(x, actions);
      if !StageOf(s, e).Finished? {
        AdvanceProgresses(x, s, e, bytes[0]);
      }
      LoneExporterFinishes(x, more, e, bytes[1..]);
    }
  }
}
