/**
 On a filesystem that stays as it is, the authorized walk against ordinary
 recursive pathname resolution.
 */
module WalkRefinement {
  import opened Basics
  import opened Paths
  import opened AuthorizedRead

  ghost predicate Static(env: Environment, fs: Filesystem) {
    forall t: nat :: env(t).fs == fs
  }

  ghost predicate Faultless(env: Environment) {
    forall t: nat :: env(t).fault.None?
  }

  /** Each root's path still names the directory it was opened as, through at most `links` nested links. */
  ghost predicate Named(fs: Filesystem, strict: bool, roots: seq<Root>, links: nat) {
    forall i :: 0 <= i < |roots| ==>
      IsDir(fs, roots[i].directory)
      && Resolve(fs, strict, fs.root, Spelling(strict, roots[i].absolute), links) == Found(roots[i].directory)
  }

  /** The walk stands on real directory entries of `fs`, up from its root. */
  ghost predicate Standing(fs: Filesystem, roots: seq<Root>, w: WalkValue) {
    && Shaped(roots, w)
    && w.stack[0] == roots[w.root].directory
    && (forall i :: 0 <= i < |w.stack| ==> IsDir(fs, w.stack[i]))
    && (forall i :: 0 <= i < |w.names| ==>
          w.names[i] != "." && w.names[i] != ".." && Entry(fs, w.stack[i], w.names[i], w.stack[i + 1]))
    && w.hops <= MAX_SYMLINK_HOPS
  }

  /** The links a walk may still meet inside one another, those of a root's own path included. */
  function LinksLeft(w: WalkValue, links: nat): nat
    requires w.hops <= MAX_SYMLINK_HOPS
  {
    links + MAX_SYMLINK_HOPS - w.hops
  }

  function Meaning(fs: Filesystem, w: WalkValue, queue: seq<Name>, links: nat): Outcome
    requires |w.stack| > 0 && w.hops <= MAX_SYMLINK_HOPS
  {
    Resolve(fs, false, Top(w), queue, LinksLeft(w, links))
  }

  /** The refusals that are the walk's own: its roots, its bounds on links and names, and on a target's length. */
  predicate OwnBound(error: ReadError) {
    error.EscapesAuthorizedRoots? || error.SymlinkLoop? || error.TooManyComponents? || error.LinkTargetTooLong?
  }

  /**
   An answer and the resolution it stands for. An object is that object. Where no
   call fails of itself, every refusal has its reason: a missing name, a name that is
   no directory, an object of the wrong kind or a directory reached by no name of its
   own are what resolution says too; the rest are the walk's own bounds.
   */
  ghost predicate Agrees(fs: Filesystem, want: Want, faultless: bool, r: Result<Resolved, ReadError>,
                         meaning: Outcome) {
    match r
    case Ok(x) =>
      && meaning == Found(x.node) && x.node in fs.objects && x.kind == KindOf(fs.objects[x.node])
      && Acceptable(want, x.kind)
    case Err(NotFound) => faultless ==> meaning == Failed(NoEntry)
    case Err(NotADirectory) => faultless ==> meaning == Failed(NotDirectory)
    case Err(NotRegularFile(kind)) =>
      && meaning.Found? && meaning.node in fs.objects && kind == KindOf(fs.objects[meaning.node])
      && !Acceptable(want, kind)
    case Err(InvalidRelativePath) =>
      faultless ==> meaning == Failed(NoEntry) || (meaning.Found? && IsDir(fs, meaning.node))
    case Err(error) => faultless ==> OwnBound(error)
  }

  /** A turn of the loop keeps the meaning: its answer agrees, or what is left still means the same. */
  ghost predicate Keeps(fs: Filesystem, roots: seq<Root>, want: Want, faultless: bool, p: Progress, meaning: Outcome,
                        links: nat)
  {
    match p
    case Done(result) => Agrees(fs, want, faultless, result, meaning)
    case Going(w, queue) =>
      Standing(fs, roots, w)
      && (Meaning(fs, w, queue, links).Unfinished? || Meaning(fs, w, queue, links) == meaning)
  }

  // ----- One name -----

  lemma TryAgainst(env: Environment, fs: Filesystem, roots: seq<Root>, w: WalkValue, name: Name, last: bool)
    requires Static(env, fs) && Tree(fs) && Standing(fs, roots, w)
    ensures match Try(env, w, name, last)
            case Got(node, kind) =>
              && Entry(fs, Top(w), name, node) && node in fs.objects
              && !IsLink(fs, node) && kind == KindOf(fs.objects[node]) && (!last ==> IsDir(fs, node))
            case IsALink =>
              name in fs.objects[Top(w)].entries && IsLink(fs, fs.objects[Top(w)].entries[name])
            case Refused(errno) =>
              Faultless(env) ==>
                if name !in fs.objects[Top(w)].entries then errno == ENOENT
                else errno == ENOTDIR && !last && !IsLink(fs, fs.objects[Top(w)].entries[name])
                     && !IsDir(fs, fs.objects[Top(w)].entries[name])
  {
    assert env(w.time).fs == fs && env(w.time + 1).fs == fs;
    if name in fs.objects[Top(w)].entries {
      assert Entry(fs, Top(w), name, fs.objects[Top(w)].entries[name]);
    }
    if Faultless(env) {
      assert env(w.time).fault.None? && env(w.time + 1).fault.None?;
    }
  }

  /** A refusal to open is what resolution says of the name. */
  lemma RefusalAgrees(env: Environment, fs: Filesystem, roots: seq<Root>, existing: bool, w: WalkValue, name: Name,
                      rest: seq<Name>, want: Want, links: nat)
    requires Static(env, fs) && Tree(fs) && Standing(fs, roots, w) && name != "." && name != ".."
    requires Try(env, w, name, rest == []).Refused?
    ensures Agrees(fs, want, Faultless(env), Err(RefusalOf(w, existing, Try(env, w, name, rest == []).errno)),
                   Meaning(fs, w, [name] + rest, links))
  {
    TryAgainst(env, fs, roots, w, name, rest == []);
    assert ([name] + rest)[1..] == rest;
    if name in fs.objects[Top(w)].entries && !IsDir(fs, fs.objects[Top(w)].entries[name]) {
      assert Resolve(fs, false, fs.objects[Top(w)].entries[name], rest, LinksLeft(w, links)) == Failed(NotDirectory);
    }
  }

  /** An opened name: the answer if it is the last, one directory deeper if not. */
  lemma GotAgrees(env: Environment, fs: Filesystem, roots: seq<Root>, existing: bool, w: WalkValue, name: Name,
                  rest: seq<Name>, want: Want, links: nat)
    requires Static(env, fs) && Tree(fs) && Standing(fs, roots, w) && name != "." && name != ".."
    requires Try(env, w, name, rest == []).Got?
    ensures Keeps(fs, roots, want, Faultless(env), NameStep(env, roots, existing, w, name, rest, want),
                  Meaning(fs, w, [name] + rest, links), links)
  {}

  // ----- One link -----

  /**
   The heart of the refinement: expanding a link in front of the rest of the queue
   means what resolving it as a pathname of its own and going on from there means.
   */
  lemma LinkMeansItsExpansion(fs: Filesystem, dir: Node, name: Name, rest: seq<Name>, links: nat)
    requires LinkIn(fs, dir, name) && name != "." && name != ".." && links > 0
    ensures var target := TargetOf(fs, dir, name);
            var expanded := Resolve(fs, false, Start(fs, dir, target), Components(target) + rest, links - 1);
            !expanded.Unfinished? ==> Resolve(fs, false, dir, [name] + rest, links) == expanded
  {
    var target := TargetOf(fs, dir, name);
    var start := Start(fs, dir, target);
    assert ([name] + rest)[1..] == rest;
    if rest == [] {
      assert Components(target) + rest == Components(target);
    } else {
      ResolveAppend(fs, false, start, Components(target), rest, links - 1);
      var inner := Resolve(fs, false, start, Components(target), links - 1);
      if inner.Found? && !Resolve(fs, false, inner.node, rest, links - 1).Unfinished? {
        ResolveMonotone(fs, false, inner.node, rest, links - 1, links);
      }
    }
  }

  /** Starting again at the root that covers an absolute path means resolving the path from the top. */
  lemma ReanchoringMeansThePath(fs: Filesystem, roots: seq<Root>, index: nat, tail: seq<Name>, links: nat, more: nat)
    requires Named(fs, false, roots, links) && index < |roots| && links <= more
    ensures Resolve(fs, false, fs.root, Components(roots[index].absolute) + tail, more)
         == Resolve(fs, false, roots[index].directory, tail, more)
  {
    var prefix := Components(roots[index].absolute);
    assert Spelling(false, roots[index].absolute) == prefix;
    ResolveMonotone(fs, false, fs.root, prefix, links, more);
    if tail == [] {
      assert prefix + tail == prefix;
    } else {
      ResolveAppend(fs, false, fs.root, prefix, tail, more);
    }
  }

  /** The link a name is, where it is one. */
  function TargetOf(fs: Filesystem, dir: Node, name: Name): string
    requires LinkIn(fs, dir, name)
  {
    fs.objects[fs.objects[dir].entries[name]].target
  }

  predicate LinkIn(fs: Filesystem, dir: Node, name: Name) {
    IsDir(fs, dir) && name in fs.objects[dir].entries && IsLink(fs, fs.objects[dir].entries[name])
  }

  /** Where following leaves the walk. */
  lemma FollowLands(env: Environment, fs: Filesystem, roots: seq<Root>, w: WalkValue, name: Name)
    requires Static(env, fs) && Standing(fs, roots, w) && LinkIn(fs, Top(w), name)
    ensures match Follow(env, roots, w, name)
            case Ok(f) =>
              var target := TargetOf(fs, Top(w), name);
              var after := w.(hops := w.hops + 1, time := w.time + 1);
              && w.hops < MAX_SYMLINK_HOPS
              && if !Absolute(target) then f == Followed(after, Components(target))
                 else
                   var found := LocateIn(roots, target);
                   && found.Some?
                   && f.names == found.value.rest
                   && f.walk == after.(root := found.value.index, stack := [roots[found.value.index].directory],
                                       names := [])
            case Err(error) =>
              !error.NotRegularFile? && (Faultless(env) ==> OwnBound(error))
  {}

  lemma FollowedStands(env: Environment, fs: Filesystem, roots: seq<Root>, w: WalkValue, name: Name, links: nat)
    requires Static(env, fs) && Named(fs, false, roots, links) && Standing(fs, roots, w) && LinkIn(fs, Top(w), name)
    requires Follow(env, roots, w, name).Ok?
    ensures Standing(fs, roots, Follow(env, roots, w, name).value.walk)
  {}

  lemma FollowedMeans(env: Environment, fs: Filesystem, roots: seq<Root>, w: WalkValue, name: Name, rest: seq<Name>,
                      links: nat)
    requires Static(env, fs) && Named(fs, false, roots, links) && Standing(fs, roots, w) && LinkIn(fs, Top(w), name)
    requires name != "." && name != ".." && Follow(env, roots, w, name).Ok?
    ensures var f := Follow(env, roots, w, name).value;
            f.walk.hops == w.hops + 1 && w.hops < MAX_SYMLINK_HOPS && |f.walk.stack| > 0
            && var target := TargetOf(fs, Top(w), name);
            Meaning(fs, f.walk, f.names + rest, links)
            == Resolve(fs, false, Start(fs, Top(w), target), Components(target) + rest, LinksLeft(w, links) - 1)
  {
    FollowLands(env, fs, roots, w, name);
    var target, f := TargetOf(fs, Top(w), name), Follow(env, roots, w, name).value;
    var more := LinksLeft(w, links) - 1;
    assert LinksLeft(f.walk, links) == more;
    if Absolute(target) {
      assert Top(f.walk) == roots[LocateIn(roots, target).value.index].directory;
      LocatedMeans(fs, roots, target, rest, links, more);
    } else {
      assert Top(f.walk) == Start(fs, Top(w), target);
    }
  }

  /** The root a path lies under, the rest of the path, and whatever is still to follow. */
  lemma LocatedMeans(fs: Filesystem, roots: seq<Root>, path: string, rest: seq<Name>, links: nat, more: nat)
    requires Named(fs, false, roots, links) && LocateIn(roots, path).Some? && links <= more
    ensures var found := LocateIn(roots, path).value;
            Resolve(fs, false, fs.root, Components(path) + rest, more)
            == Resolve(fs, false, roots[found.index].directory, found.rest + rest, more)
  {
    LocatedSplits(roots, path);
    var found := LocateIn(roots, path).value;
    var prefix := Components(roots[found.index].absolute);
    assert prefix + (found.rest + rest) == Components(path) + rest;
    ReanchoringMeansThePath(fs, roots, found.index, found.rest + rest, links, more);
  }

  lemma FollowAgrees(env: Environment, fs: Filesystem, roots: seq<Root>, w: WalkValue, name: Name, rest: seq<Name>,
                     links: nat)
    requires Static(env, fs) && Named(fs, false, roots, links) && Standing(fs, roots, w) && LinkIn(fs, Top(w), name)
    requires name != "." && name != ".." && Follow(env, roots, w, name).Ok?
    ensures var f := Follow(env, roots, w, name).value;
            && Standing(fs, roots, f.walk)
            && (var expanded := Meaning(fs, f.walk, f.names + rest, links);
                !expanded.Unfinished? ==> Meaning(fs, w, [name] + rest, links) == expanded)
  {
    FollowedStands(env, fs, roots, w, name, links);
    FollowedMeans(env, fs, roots, w, name, rest, links);
    LinkMeansItsExpansion(fs, Top(w), name, rest, LinksLeft(w, links));
  }

  lemma LinkStepAgrees(env: Environment, fs: Filesystem, roots: seq<Root>, existing: bool, w: WalkValue, name: Name,
                       rest: seq<Name>, want: Want, links: nat)
    requires Static(env, fs) && Tree(fs) && Named(fs, false, roots, links) && Standing(fs, roots, w)
    requires name != "." && name != ".." && Try(env, w, name, rest == []).IsALink?
    ensures Keeps(fs, roots, want, Faultless(env), NameStep(env, roots, existing, w, name, rest, want),
                  Meaning(fs, w, [name] + rest, links), links)
  {
    TryAgainst(env, fs, roots, w, name, rest == []);
    var w' := w.(time := w.time + 2);
    ExpansionAgrees(env, fs, roots, w', name, rest, want, links);
    LinkTurn(env, roots, existing, w, name, rest, want);
    assert Meaning(fs, w, [name] + rest, links) == Meaning(fs, w', [name] + rest, links);
  }

  /** What following makes of the walk and the queue. */
  function Expansion(env: Environment, roots: seq<Root>, w: WalkValue, name: Name, rest: seq<Name>): Progress
    requires Shaped(roots, w)
  {
    match Follow(env, roots, w, name)
    case Err(error) => Done(Err(error))
    case Ok(f) => Going(f.walk, f.names + rest)
  }

  lemma LinkTurn(env: Environment, roots: seq<Root>, existing: bool, w: WalkValue, name: Name, rest: seq<Name>,
                 want: Want)
    requires Shaped(roots, w) && Try(env, w, name, rest == []).IsALink?
    ensures NameStep(env, roots, existing, w, name, rest, want)
         == Expansion(env, roots, w.(time := w.time + 2), name, rest)
  {}

  lemma ExpansionAgrees(env: Environment, fs: Filesystem, roots: seq<Root>, w: WalkValue, name: Name, rest: seq<Name>,
                        want: Want, links: nat)
    requires Static(env, fs) && Named(fs, false, roots, links) && Standing(fs, roots, w) && LinkIn(fs, Top(w), name)
    requires name != "." && name != ".."
    ensures Keeps(fs, roots, want, Faultless(env), Expansion(env, roots, w, name, rest),
                  Meaning(fs, w, [name] + rest, links), links)
  {
    FollowLands(env, fs, roots, w, name);
    if Follow(env, roots, w, name).Ok? {
      FollowAgrees(env, fs, roots, w, name, rest, links);
    }
  }

  // ----- The whole walk -----

  lemma NameStepAgrees(env: Environment, fs: Filesystem, roots: seq<Root>, existing: bool, w: WalkValue, name: Name,
                       rest: seq<Name>, want: Want, links: nat)
    requires Static(env, fs) && Tree(fs) && Named(fs, false, roots, links) && Standing(fs, roots, w)
    requires name != "." && name != ".."
    ensures Keeps(fs, roots, want, Faultless(env), NameStep(env, roots, existing, w, name, rest, want),
                  Meaning(fs, w, [name] + rest, links), links)
  {
    var tried := Try(env, w, name, rest == []);
    if tried.Refused? {
      RefusalAgrees(env, fs, roots, existing, w, name, rest, want, links);
    } else if tried.Got? {
      GotAgrees(env, fs, roots, existing, w, name, rest, want, links);
    } else {
      LinkStepAgrees(env, fs, roots, existing, w, name, rest, want, links);
    }
  }

  lemma StepAgrees(env: Environment, fs: Filesystem, roots: seq<Root>, existing: bool, w: WalkValue, queue: seq<Name>,
                   want: Want, links: nat)
    requires Static(env, fs) && Tree(fs) && Named(fs, false, roots, links) && Standing(fs, roots, w) && queue != []
    ensures Keeps(fs, roots, want, Faultless(env), WalkStep(env, roots, existing, w, queue, want),
                  Meaning(fs, w, queue, links), links)
  {
    if w.steps < MAX_RESOLUTION_STEPS {
      if queue[0] == "." || queue[0] == ".." {
        DotStepAgrees(env, fs, roots, existing, w, queue, want, links);
      } else {
        NameTurnAgrees(env, fs, roots, existing, w, queue, want, links);
      }
    } else {
      assert WalkStep(env, roots, existing, w, queue, want) == Done(Err(TooManyComponents));
    }
  }

  lemma NameTurnAgrees(env: Environment, fs: Filesystem, roots: seq<Root>, existing: bool, w: WalkValue,
                       queue: seq<Name>, want: Want, links: nat)
    requires Static(env, fs) && Tree(fs) && Named(fs, false, roots, links) && Standing(fs, roots, w)
    requires queue != [] && queue[0] != "." && queue[0] != ".." && w.steps < MAX_RESOLUTION_STEPS
    ensures Keeps(fs, roots, want, Faultless(env), WalkStep(env, roots, existing, w, queue, want),
                  Meaning(fs, w, queue, links), links)
  {
    var w' := w.(steps := w.steps + 1);
    assert queue == [queue[0]] + queue[1..];
    assert Standing(fs, roots, w') && Meaning(fs, w', queue, links) == Meaning(fs, w, queue, links);
    TurnIsNameStep(env, roots, existing, w, queue, want);
    NameStepAgrees(env, fs, roots, existing, w', queue[0], queue[1..], want, links);
  }

  lemma DotStepAgrees(env: Environment, fs: Filesystem, roots: seq<Root>, existing: bool, w: WalkValue,
                      queue: seq<Name>, want: Want, links: nat)
    requires Tree(fs) && Standing(fs, roots, w) && w.steps < MAX_RESOLUTION_STEPS
    requires queue != [] && (queue[0] == "." || queue[0] == "..")
    ensures Keeps(fs, roots, want, Faultless(env), WalkStep(env, roots, existing, w, queue, want),
                  Meaning(fs, w, queue, links), links)
  {}

  /** Whatever the walk answers, resolution of the same names from the same directory agrees. */
  lemma {:induction false} WalkAgrees(env: Environment, fs: Filesystem, roots: seq<Root>, existing: bool, w: WalkValue,
                                      queue: seq<Name>, want: Want, links: nat)
    requires Static(env, fs) && Tree(fs) && Named(fs, false, roots, links) && Standing(fs, roots, w)
    ensures Agrees(fs, want, Faultless(env), WalkFrom(env, roots, existing, w, queue, want),
                   Meaning(fs, w, queue, links))
    decreases MAX_RESOLUTION_STEPS - w.steps
  {
    if queue != [] {
      StepAgrees(env, fs, roots, existing, w, queue, want, links);
      var p := WalkStep(env, roots, existing, w, queue, want);
      if p.Going? {
        WalkAgrees(env, fs, roots, existing, p.walk, p.queue, want, links);
      }
    }
  }
}
