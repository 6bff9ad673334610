/**
 The answers of both requests, said of the objects themselves: what kind an answer
 has whatever happens to the filesystem, and, where it stays and no call fails, the
 one answer every request has.
 */
module WalkAnswers {
  import opened Basics
  import opened Paths
  import opened AuthorizedRead
  import opened WalkContainment
  import opened WalkRefinement
  import opened WalkRequests
  import opened WalkCompleteness
  import opened WalkBounds

  // ----- The kind of an answer -----

  /** At some moment of the request the node was a regular file. */
  ghost predicate WasRegular(env: Environment, node: Node) {
    exists t: nat :: node in env(t).fs.objects && env(t).fs.objects[node].Regular?
  }

  ghost predicate WasDirectory(env: Environment, node: Node) {
    exists t: nat :: node in env(t).fs.objects && env(t).fs.objects[node].Dir?
  }

  lemma OpenedKind(env: Environment, roots: seq<Root>, w: WalkValue, name: Name, want: Want, r: Resolved)
    requires Shaped(roots, w) && OpenedFromTop(env, roots, w, name, want, r)
    ensures want.WantFile? ==> r.kind.RegularFile? && WasRegular(env, r.node)
    ensures want.WantDirectory? ==> r.kind.Directory? && WasDirectory(env, r.node)
  {
    var found := env(w.time).fs.objects[r.node];
    assert want.WantFile? ==> found.Regular?;
    assert want.WantDirectory? ==> found.Dir?;
  }

  /**
   Under any changes and any faults: a request for a file returns only what was a
   regular file when it was opened, one for a directory only a directory or the root.
   */
  lemma AnswersAreOfTheirKind(env: Environment, roots: seq<Root>, index: nat, relative: string, absolute: string,
                              want: Want, existing: bool)
    ensures var r := OpenRelative(env, roots, index, relative, want);
            r.Ok? ==>
              match want
              case WantFile => r.value.kind.RegularFile? && WasRegular(env, r.value.node)
              case WantDirectory =>
                && r.value.kind.Directory?
                && (r.value == RootItself(roots[index]) || WasDirectory(env, r.value.node))
    ensures var r := OpenAbsolute(env, roots, absolute, existing);
            r.Ok? ==> r.value.kind.RegularFile? && WasRegular(env, r.value.node)
  {
    if OpenRelative(env, roots, index, relative, want).Ok? && Components(relative) != [] {
      var w, name := WalkIsContained(env, roots, false, Fresh(roots, index), Components(relative), want);
      OpenedKind(env, roots, w, name, want, OpenRelative(env, roots, index, relative, want).value);
    }
    if OpenAbsolute(env, roots, absolute, existing).Ok? {
      var found := LocateIn(roots, absolute).value;
      var w, name := WalkIsContained(env, roots, existing, Fresh(roots, found.index), found.rest, WantFile);
      OpenedKind(env, roots, w, name, WantFile, OpenAbsolute(env, roots, absolute, existing).value);
    }
  }

  // ----- Missing names behind links -----

  /** Where targets must exist, not found means that no link was followed, no valid path for nothing that one was. */
  predicate TellsOfLinks(existing: bool, r: Result<Resolved, ReadError>, hops: nat, t: Trace, found: bool) {
    && (r == Err(NotFound) && existing ==> hops + t.links == 0)
    && (r == Err(InvalidRelativePath) && !found ==> existing && hops + t.links > 0)
  }

  lemma {:induction false} WalkTellsOfLinks(env: Environment, fs: Filesystem, roots: seq<Root>, existing: bool,
                                            w: WalkValue, queue: seq<Name>, want: Want, links: nat)
    requires Static(env, fs) && Faultless(env) && Tree(fs) && Named(fs, false, roots, links) && Standing(fs, roots, w)
    ensures TellsOfLinks(existing, WalkFrom(env, roots, existing, w, queue, want), w.hops,
                         TraceOf(fs, roots, w, queue), Meaning(fs, w, queue, links).Found?)
    decreases MAX_RESOLUTION_STEPS - w.steps
  {
    if queue != [] {
      StepAgrees(env, fs, roots, existing, w, queue, want, links);
      StepCountsOn(env, fs, roots, existing, w, queue, want);
      var p := WalkStep(env, roots, existing, w, queue, want);
      if p.Going? {
        WalkAgrees(env, fs, roots, existing, p.walk, p.queue, want, links);
        WalkTellsOfLinks(env, fs, roots, existing, p.walk, p.queue, want, links);
      }
    }
  }

  /** A turn that follows a link had one to count; one that does not leaves the count as it is. */
  predicate CountsOn(fs: Filesystem, roots: seq<Root>, existing: bool, p: Progress, hops: nat, t: Trace) {
    match p
    case Done(r) => TellsOfLinks(existing, r, hops, t, false)
    case Going(w, queue) =>
      && hops <= w.hops <= MAX_SYMLINK_HOPS
      && if w.hops > hops then t.links > 0 else t.links == TraceOf(fs, roots, w, queue).links
  }

  lemma LinkCounts(fs: Filesystem, roots: seq<Root>, stack: seq<Node>, queue: seq<Name>, fuel: nat)
    requires queue != []
    requires var head := HeadOf(fs, roots, stack, queue[0], queue[1..] == []); head.Bends? || head.Breaks?
    ensures Expand(fs, roots, stack, queue, false, fuel).links > 0
  {}

  lemma LinkStepCountsOn(env: Environment, fs: Filesystem, roots: seq<Root>, existing: bool, w: WalkValue, name: Name,
                         rest: seq<Name>, want: Want)
    requires Static(env, fs) && Faultless(env) && Tree(fs) && Standing(fs, roots, w)
    requires name != "." && name != ".." && Try(env, w, name, rest == []).IsALink?
    ensures CountsOn(fs, roots, existing, NameStep(env, roots, existing, w, name, rest, want), w.hops,
                     TraceOf(fs, roots, w, [name] + rest))
  {
    var w' := w.(time := w.time + 2);
    assert ([name] + rest)[1..] == rest;
    TryAgainst(env, fs, roots, w, name, rest == []);
    LinkTurn(env, roots, existing, w, name, rest, want);
    FollowIsAnchored(env, fs, roots, w', name, rest == []);
    LinkCounts(fs, roots, w.stack, [name] + rest, MAX_SYMLINK_HOPS + 1 - w.hops);
  }

  lemma OpenStepCountsOn(env: Environment, fs: Filesystem, roots: seq<Root>, existing: bool, w: WalkValue, name: Name,
                         rest: seq<Name>, want: Want)
    requires Static(env, fs) && Faultless(env) && Tree(fs) && Standing(fs, roots, w)
    requires name != "." && name != ".." && !Try(env, w, name, rest == []).IsALink?
    ensures CountsOn(fs, roots, existing, NameStep(env, roots, existing, w, name, rest, want), w.hops,
                     TraceOf(fs, roots, w, [name] + rest))
  {
    TryAgainst(env, fs, roots, w, name, rest == []);
    assert ([name] + rest)[1..] == rest;
    var head, tried := HeadOf(fs, roots, w.stack, name, rest == []), Try(env, w, name, rest == []);
    if tried.Got? && rest != [] {
      assert head == Moves(w.stack + [tried.node]);
    } else {
      assert head == Stops(Over);
    }
  }

  lemma DotStepCountsOn(env: Environment, fs: Filesystem, roots: seq<Root>, existing: bool, w: WalkValue,
                        queue: seq<Name>, want: Want)
    requires Standing(fs, roots, w) && queue != []
    requires w.steps == MAX_RESOLUTION_STEPS || queue[0] == "." || queue[0] == ".."
    ensures CountsOn(fs, roots, existing, WalkStep(env, roots, existing, w, queue, want), w.hops,
                     TraceOf(fs, roots, w, queue))
  {}

  lemma StepCountsOn(env: Environment, fs: Filesystem, roots: seq<Root>, existing: bool, w: WalkValue,
                     queue: seq<Name>, want: Want)
    requires Static(env, fs) && Faultless(env) && Tree(fs) && Standing(fs, roots, w) && queue != []
    ensures CountsOn(fs, roots, existing, WalkStep(env, roots, existing, w, queue, want), w.hops,
                     TraceOf(fs, roots, w, queue))
  {
    if w.steps < MAX_RESOLUTION_STEPS && queue[0] != "." && queue[0] != ".." {
      var w' := w.(steps := w.steps + 1);
      assert queue == [queue[0]] + queue[1..];
      assert Standing(fs, roots, w') && TraceOf(fs, roots, w', queue) == TraceOf(fs, roots, w, queue);
      TurnIsNameStep(env, roots, existing, w, queue, want);
      if Try(env, w', queue[0], queue[1..] == []).IsALink? {
        LinkStepCountsOn(env, fs, roots, existing, w', queue[0], queue[1..], want);
      } else {
        OpenStepCountsOn(env, fs, roots, existing, w', queue[0], queue[1..], want);
      }
    } else {
      DotStepCountsOn(env, fs, roots, existing, w, queue, want);
    }
  }

  // ----- Every answer on a filesystem that stays -----

  lemma {:induction false} ResolutionEndsAtAnObject(fs: Filesystem, dir: Node, queue: seq<Name>, links: nat)
    requires Tree(fs)
    ensures var o := Resolve(fs, false, dir, queue, links);
            o.Found? ==> o.node in fs.objects && !fs.objects[o.node].Link?
    decreases links, |queue|
  {
    if IsDir(fs, dir) && queue != [] {
      var name, rest := queue[0], queue[1..];
      if name == "." {
        ResolutionEndsAtAnObject(fs, dir, rest, links);
      } else if name == ".." {
        ResolutionEndsAtAnObject(fs, fs.objects[dir].parent, rest, links);
      } else if name in fs.objects[dir].entries {
        var node := fs.objects[dir].entries[name];
        assert Entry(fs, dir, name, node);
        if !IsLink(fs, node) {
          ResolutionEndsAtAnObject(fs, node, rest, links);
        } else if links > 0 {
          var target := fs.objects[node].target;
          var inner := Resolve(fs, false, Start(fs, dir, target), Components(target), links - 1);
          ResolutionEndsAtAnObject(fs, Start(fs, dir, target), Components(target), links - 1);
          if inner.Found? {
            ResolutionEndsAtAnObject(fs, inner.node, rest, links);
          }
        }
      }
    }
  }

  predicate Returns(r: Result<Resolved, ReadError>, node: Node, kind: FileKind) {
    r.Ok? && r.value.node == node && r.value.kind == kind
  }

  /**
   The answer by what resolution says: the object if it is of the kind wanted, its
   kind if not, no valid path for a directory at no name, and the reason where nothing
   is found; a missing name behind a link is no valid path where targets must exist.
   */
  ghost predicate Decided(fs: Filesystem, want: Want, strictTargets: bool, past: bool, ends: bool, followed: bool,
                          meaning: Outcome, r: Result<Resolved, ReadError>)
  {
    if past then
      r.Err? && (r.error.EscapesAuthorizedRoots? || r.error.SymlinkLoop? || r.error.TooManyComponents?
                 || r.error.LinkTargetTooLong?)
    else
      match meaning
      case Failed(NoEntry) => r == Err(if strictTargets && followed then InvalidRelativePath else NotFound)
      case Failed(NotDirectory) => r == Err(NotADirectory)
      case Unfinished => false
      case Found(node) =>
        node in fs.objects
        && match fs.objects[node]
           case Regular =>
             if want.WantFile? then Returns(r, node, RegularFile) else r == Err(NotRegularFile(RegularFile))
           case Other => r == Err(NotRegularFile(Special))
           case Dir(_, _) =>
             if !ends then r == Err(InvalidRelativePath)
             else if want.WantDirectory? then Returns(r, node, Directory)
             else r == Err(NotRegularFile(Directory))
           case Link(_) => false
  }

  lemma WalkIsDecided(env: Environment, fs: Filesystem, roots: seq<Root>, existing: bool, w: WalkValue,
                      components: seq<Name>, want: Want, links: nat)
    requires Static(env, fs) && Faultless(env) && Tree(fs) && Named(fs, true, roots, links)
    requires w.root < |roots| && w == Fresh(roots, w.root)
    ensures var dir, t := roots[w.root].directory, TraceFrom(fs, roots, w.root, components);
            Decided(fs, want, existing, Past(0, 0, t), EndsAtName(fs, roots, dir, components, links + MAX_SYMLINK_HOPS),
                    t.links > 0, Resolve(fs, false, dir, components, links + MAX_SYMLINK_HOPS),
                    WalkFrom(env, roots, existing, w, components, want))
  {
    RootsByComponents(fs, roots, links);
    assert Standing(fs, roots, w) && LinksLeft(w, links) == links + MAX_SYMLINK_HOPS;
    ResolutionEndsAtAnObject(fs, roots[w.root].directory, components, links + MAX_SYMLINK_HOPS);
    WalkAgrees(env, fs, roots, existing, w, components, want, links);
    WalkKeepsEnd(env, fs, roots, existing, w, components, want, links);
    WalkIsBoundedExactly(env, fs, roots, existing, w, components, want, links);
    WalkTellsOfLinks(env, fs, roots, existing, w, components, want, links);
  }

  /** Every relative request that names something under a root it has, decided. */
  lemma RelativeAnswerIsDecided(env: Environment, fs: Filesystem, roots: seq<Root>, index: nat, relative: string,
                                want: Want, links: nat)
    requires Static(env, fs) && Faultless(env) && Tree(fs) && Named(fs, true, roots, links)
    requires index < |roots| && SplitComponents(relative).Ok? && Components(relative) != []
    ensures var dir, components, more := roots[index].directory, Components(relative), links + MAX_SYMLINK_HOPS;
            var t := TraceFrom(fs, roots, index, components);
            Decided(fs, want, false, Past(0, 0, t), EndsAtName(fs, roots, dir, components, more), t.links > 0,
                    Resolve(fs, false, dir, components, more), OpenRelative(env, roots, index, relative, want))
  {
    WalkIsDecided(env, fs, roots, false, Fresh(roots, index), Components(relative), want, links);
  }

  /** Every absolute request under a root, and not for the root itself, decided by resolution from the top. */
  lemma AbsoluteAnswerIsDecided(env: Environment, fs: Filesystem, roots: seq<Root>, absolute: string, existing: bool,
                                links: nat)
    requires Static(env, fs) && Faultless(env) && Tree(fs) && Named(fs, true, roots, links) && Absolute(absolute)
    requires LocateIn(roots, absolute).Some? && LocateIn(roots, absolute).value.rest != []
    ensures var found, more := LocateIn(roots, absolute).value, links + MAX_SYMLINK_HOPS;
            var t := TraceFrom(fs, roots, found.index, found.rest);
            Decided(fs, WantFile, existing, Past(0, 0, t),
                    EndsAtName(fs, roots, roots[found.index].directory, found.rest, more), t.links > 0,
                    Resolve(fs, false, fs.root, Components(absolute), more),
                    OpenAbsolute(env, roots, absolute, existing))
  {
    var found := LocateIn(roots, absolute).value;
    RootsByComponents(fs, roots, links);
    LocatedSplits(roots, absolute);
    ReanchoringMeansThePath(fs, roots, found.index, found.rest, links, links + MAX_SYMLINK_HOPS);
    WalkIsDecided(env, fs, roots, existing, Fresh(roots, found.index), found.rest, WantFile, links);
  }

  // ----- Requests that open nothing, and calls that fail -----

  predicate NamesARoot(roots: seq<Root>, absolute: string) {
    exists i :: 0 <= i < |roots| && Components(roots[i].absolute) == Components(absolute)
  }

  /** The requests that are answered before any call, under any environment. */
  lemma AnsweredWithoutOpening(env: Environment, roots: seq<Root>, index: nat, relative: string, absolute: string,
                               want: Want, existing: bool)
    ensures var r := OpenRelative(env, roots, index, relative, want);
            && (Absolute(relative) || ".." in Segments(relative) ==> r == Err(InvalidRelativePath))
            && (!Absolute(relative) && ".." !in Segments(relative) ==>
                  if Components(relative) == [] && want.WantFile? then r == Err(InvalidRelativePath)
                  else if index >= |roots| then r == Err(RootUnavailable)
                  else Components(relative) == [] ==>
                         r == Ok(Resolved(roots[index].directory, Directory, Components(roots[index].absolute))))
    ensures var r := OpenAbsolute(env, roots, absolute, existing);
            && (!Absolute(absolute) ==> r == Err(InvalidRelativePath))
            && (Absolute(absolute) && (forall i :: 0 <= i < |roots| ==> !Covers(roots[i], Components(absolute))) ==>
                  r == Err(EscapesAuthorizedRoots))
            && (Absolute(absolute) && NamesARoot(roots, absolute) ==> r == Err(NotRegularFile(Directory)))
  {
    if i :| 0 <= i < |roots| && Components(roots[i].absolute) == Components(absolute) {
      BestRootIsLongest(roots, Components(absolute), |roots|, i);
    }
  }

  /** How a failing call is told. */
  function Told(errno: Errno): ReadError {
    match errno
    case ENOENT => NotFound
    case EACCES => PermissionDenied
    case EPERM => PermissionDenied
    case ENOTDIR => NotADirectory
    case ELOOP => SymlinkLoop
    case EMLINK => SymlinkLoop
    case ENAMETOOLONG => InvalidRelativePath
    case EINVAL => InvalidRelativePath
    case EIO => Io
  }

  /**
   An open that fails of itself is told by its error, except that a missing name
   behind a link is no valid path where targets must exist; but any of the three
   errors that a link gives is followed where the name is confirmed to be one.
   */
  lemma FailedOpenIsTold(env: Environment, roots: seq<Root>, existing: bool, w: WalkValue, queue: seq<Name>, want: Want,
                         errno: Errno)
    requires Shaped(roots, w) && queue != [] && queue[0] != "." && queue[0] != ".." && w.steps < 512
    requires env(w.time).fault == Some(errno)
    ensures var p := WalkStep(env, roots, existing, w, queue, want);
            var followed := Follow(env, roots, w.(steps := w.steps + 1, time := w.time + 2), queue[0]);
            if errno in {ELOOP, EMLINK, ENOTDIR} && LinkAt(env(w.time + 1), Top(w), queue[0]) then
              if followed.Ok? then p == Going(followed.value.walk, followed.value.names + queue[1..])
              else p == Done(Err(followed.error))
            else
              p == Done(Err(if errno.ENOENT? && existing && w.hops > 0 then InvalidRelativePath else Told(errno)))
  {}

  /** Reading a link's target: the hop bound first, then the call's own error, then the target's length. */
  lemma FailedReadIsTold(env: Environment, roots: seq<Root>, w: WalkValue, name: Name)
    requires Shaped(roots, w)
    ensures var r, read := Follow(env, roots, w, name), ReadLinkAt(env(w.time), Top(w), name);
            && (w.hops >= 16 ==> r == Err(SymlinkLoop))
            && (w.hops < 16 && read.Err? ==> r == Err(if read.error.EINVAL? then Io else Told(read.error)))
            && (w.hops < 16 && read.Ok? && |read.value| > 4096 ==> r == Err(LinkTargetTooLong))
            && (w.hops < 16 && read.Ok? && |read.value| <= 4096 && !Absolute(read.value) ==>
                  r.Ok? && r.value.names == Components(read.value) && r.value.walk.stack == w.stack)
  {}
}
