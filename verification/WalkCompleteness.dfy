/**
 The converse of the refinement: on a filesystem that stays, where no call fails of
 itself, an object that resolution finds is returned, or refused for one of the
 walk's own bounds, or is a directory that no name of its own leads to at the end.
 */
module WalkCompleteness {
  import opened Basics
  import opened Paths
  import opened AuthorizedRead
  import opened WalkRefinement
  import opened WalkRequests

  /**
   Once every link at the end is expanded, the last step is a name to open: not a
   dot, a parent, or a link that ends at a root or where it stands. An absolute
   target is read from the root it lies under.
   */
  predicate EndsAtName(fs: Filesystem, roots: seq<Root>, dir: Node, queue: seq<Name>, links: nat)
    decreases links, |queue|
  {
    if !IsDir(fs, dir) || queue == [] then false
    else
      var name, rest := queue[0], queue[1..];
      if name == "." then EndsAtName(fs, roots, dir, rest, links)
      else if name == ".." then EndsAtName(fs, roots, fs.objects[dir].parent, rest, links)
      else if name !in fs.objects[dir].entries then false
      else
        var node := fs.objects[dir].entries[name];
        if !IsLink(fs, node) then rest == [] || EndsAtName(fs, roots, node, rest, links)
        else if links == 0 then false
        else
          var target := fs.objects[node].target;
          if rest != [] then
            var inner := Resolve(fs, false, Start(fs, dir, target), Components(target), links - 1);
            inner.Found? && EndsAtName(fs, roots, inner.node, rest, links)
          else if !Absolute(target) then EndsAtName(fs, roots, dir, Components(target), links - 1)
          else
            var found := LocateIn(roots, target);
            found.Some? && EndsAtName(fs, roots, roots[found.value.index].directory, found.value.rest, links - 1)
  }

  /** A finished resolution of a path is, from its root, the same resolution. */
  lemma FinishedFromItsRoot(fs: Filesystem, roots: seq<Root>, path: string, links: nat, more: nat)
    requires Named(fs, false, roots, links) && LocateIn(roots, path).Some?
    requires !Resolve(fs, false, fs.root, Components(path), more).Unfinished?
    ensures var found := LocateIn(roots, path).value;
            Resolve(fs, false, roots[found.index].directory, found.rest, more)
            == Resolve(fs, false, fs.root, Components(path), more)
  {
    LocatedSplits(roots, path);
    var found := LocateIn(roots, path).value;
    var prefix := Components(roots[found.index].absolute);
    assert Spelling(false, roots[found.index].absolute) == prefix;
    if found.rest == [] {
      assert prefix + found.rest == prefix;
    } else {
      ResolveAppend(fs, false, fs.root, prefix, found.rest, more);
    }
    assert !Resolve(fs, false, fs.root, prefix, more).Unfinished?;
    if links <= more {
      ResolveMonotone(fs, false, fs.root, prefix, links, more);
    } else {
      ResolveMonotone(fs, false, fs.root, prefix, more, links);
    }
  }

  /** More links allowed do not change how a finished resolution ends. */
  lemma {:induction false} EndsMonotone(fs: Filesystem, roots: seq<Root>, dir: Node, queue: seq<Name>, least: nat,
                                        links: nat, more: nat)
    requires Named(fs, false, roots, least)
    requires links <= more && !Resolve(fs, false, dir, queue, links).Unfinished?
    ensures EndsAtName(fs, roots, dir, queue, more) == EndsAtName(fs, roots, dir, queue, links)
    decreases links, |queue|
  {
    if IsDir(fs, dir) && queue != [] {
      var name, rest := queue[0], queue[1..];
      if name == "." {
        EndsMonotone(fs, roots, dir, rest, least, links, more);
      } else if name == ".." {
        EndsMonotone(fs, roots, fs.objects[dir].parent, rest, least, links, more);
      } else if name in fs.objects[dir].entries {
        var node := fs.objects[dir].entries[name];
        if !IsLink(fs, node) {
          if rest != [] {
            EndsMonotone(fs, roots, node, rest, least, links, more);
          }
        } else {
          LinkEndsMonotone(fs, roots, dir, name, rest, least, links, more);
        }
      }
    }
  }

  lemma {:induction false} LinkEndsMonotone(fs: Filesystem, roots: seq<Root>, dir: Node, name: Name, rest: seq<Name>,
                                            least: nat, links: nat, more: nat)
    requires Named(fs, false, roots, least)
    requires LinkIn(fs, dir, name) && name != "." && name != ".."
    requires links <= more && !Resolve(fs, false, dir, [name] + rest, links).Unfinished?
    ensures EndsAtName(fs, roots, dir, [name] + rest, more) == EndsAtName(fs, roots, dir, [name] + rest, links)
    decreases links, |rest| + 1, 0
  {
    assert ([name] + rest)[1..] == rest;
    var target := TargetOf(fs, dir, name);
    var start := Start(fs, dir, target);
    var inner := Resolve(fs, false, start, Components(target), links - 1);
    ResolveMonotone(fs, false, start, Components(target), links - 1, more - 1);
    if rest != [] {
      if inner.Found? {
        EndsMonotone(fs, roots, inner.node, rest, least, links, more);
      }
    } else if !Absolute(target) {
      EndsMonotone(fs, roots, dir, Components(target), least, links - 1, more - 1);
    } else if LocateIn(roots, target).Some? {
      var found := LocateIn(roots, target).value;
      FinishedFromItsRoot(fs, roots, target, least, links - 1);
      EndsMonotone(fs, roots, roots[found.index].directory, found.rest, least, links - 1, more - 1);
    }
  }

  /** A path in two parts ends as its second part does. */
  lemma {:induction false} EndsAppend(fs: Filesystem, roots: seq<Root>, dir: Node, a: seq<Name>, b: seq<Name>,
                                      links: nat)
    requires b != []
    ensures var first := Resolve(fs, false, dir, a, links);
            EndsAtName(fs, roots, dir, a + b, links) <==> first.Found? && EndsAtName(fs, roots, first.node, b, links)
    decreases |a|
  {
    if a == [] {
      assert a + b == b;
    } else if IsDir(fs, dir) {
      var name, rest := a[0], a[1..];
      assert (a + b)[0] == name && (a + b)[1..] == rest + b;
      if name == "." {
        EndsAppend(fs, roots, dir, rest, b, links);
      } else if name == ".." {
        EndsAppend(fs, roots, fs.objects[dir].parent, rest, b, links);
      } else if name in fs.objects[dir].entries {
        var node := fs.objects[dir].entries[name];
        if rest == [] {
          assert rest + b == b;
        } else if !IsLink(fs, node) {
          EndsAppend(fs, roots, node, rest, b, links);
        } else if links > 0 {
          var target := fs.objects[node].target;
          var inner := Resolve(fs, false, Start(fs, dir, target), Components(target), links - 1);
          if inner.Found? {
            EndsAppend(fs, roots, inner.node, rest, b, links);
          }
        }
      }
    }
  }

  // ----- The walk keeps how its path ends -----

  predicate Ends(fs: Filesystem, roots: seq<Root>, w: WalkValue, queue: seq<Name>, links: nat)
    requires |w.stack| > 0 && w.hops <= MAX_SYMLINK_HOPS
  {
    EndsAtName(fs, roots, Top(w), queue, LinksLeft(w, links))
  }

  /** A link that is not last: where its target leads from `start`, the rest ends as it did behind the link. */
  lemma ExpandedRestEnds(fs: Filesystem, roots: seq<Root>, dir: Node, name: Name, rest: seq<Name>, start: Node,
                         names: seq<Name>, least: nat, more: nat)
    requires Named(fs, false, roots, least) && LinkIn(fs, dir, name) && name != "." && name != ".." && rest != []
    requires var target := TargetOf(fs, dir, name);
             Resolve(fs, false, start, names, more)
             == Resolve(fs, false, Start(fs, dir, target), Components(target), more)
    requires !Resolve(fs, false, start, names + rest, more).Unfinished?
    ensures EndsAtName(fs, roots, start, names + rest, more) == EndsAtName(fs, roots, dir, [name] + rest, more + 1)
  {
    var inner := Resolve(fs, false, start, names, more);
    assert ([name] + rest)[1..] == rest;
    EndsAppend(fs, roots, start, names, rest, more);
    ResolveAppend(fs, false, start, names, rest, more);
    if inner.Found? {
      EndsMonotone(fs, roots, inner.node, rest, least, more, more + 1);
    }
  }

  /** Where following leaves the walk, the target's names lead where the target does. */
  lemma FollowedTarget(env: Environment, fs: Filesystem, roots: seq<Root>, w: WalkValue, name: Name, links: nat)
    requires Static(env, fs) && Named(fs, false, roots, links) && Standing(fs, roots, w) && LinkIn(fs, Top(w), name)
    requires name != "." && name != ".." && Follow(env, roots, w, name).Ok?
    ensures var f, target := Follow(env, roots, w, name).value, TargetOf(fs, Top(w), name);
            && |f.walk.stack| > 0 && f.walk.hops <= MAX_SYMLINK_HOPS
            && LinksLeft(w, links) == LinksLeft(f.walk, links) + 1
            && Resolve(fs, false, Top(f.walk), f.names, LinksLeft(f.walk, links))
               == Resolve(fs, false, Start(fs, Top(w), target), Components(target), LinksLeft(f.walk, links))
  {
    FollowedMeans(env, fs, roots, w, name, [], links);
    var f, target := Follow(env, roots, w, name).value, TargetOf(fs, Top(w), name);
    assert f.names + [] == f.names && Components(target) + [] == Components(target);
  }

  lemma MiddleLinkEnds(env: Environment, fs: Filesystem, roots: seq<Root>, w: WalkValue, name: Name, rest: seq<Name>,
                       links: nat)
    requires Static(env, fs) && Named(fs, false, roots, links) && Standing(fs, roots, w) && LinkIn(fs, Top(w), name)
    requires name != "." && name != ".." && rest != [] && Follow(env, roots, w, name).Ok?
    ensures var f := Follow(env, roots, w, name).value;
            && |f.walk.stack| > 0 && f.walk.hops <= MAX_SYMLINK_HOPS
            && (!Meaning(fs, f.walk, f.names + rest, links).Unfinished? ==>
                  Ends(fs, roots, f.walk, f.names + rest, links) == Ends(fs, roots, w, [name] + rest, links))
  {
    var f := Follow(env, roots, w, name).value;
    FollowedTarget(env, fs, roots, w, name, links);
    if !Meaning(fs, f.walk, f.names + rest, links).Unfinished? {
      ExpandedRestEnds(fs, roots, Top(w), name, rest, Top(f.walk), f.names, links, LinksLeft(f.walk, links));
    }
  }

  /** Expanding a link that is last: how its target ends. */
  lemma LastLinkEnds(env: Environment, fs: Filesystem, roots: seq<Root>, w: WalkValue, name: Name, links: nat)
    requires Static(env, fs) && Standing(fs, roots, w) && LinkIn(fs, Top(w), name)
    requires name != "." && name != ".." && Follow(env, roots, w, name).Ok?
    ensures var f := Follow(env, roots, w, name).value;
            && |f.walk.stack| > 0 && f.walk.hops <= MAX_SYMLINK_HOPS
            && Ends(fs, roots, f.walk, f.names, links) == Ends(fs, roots, w, [name], links)
  {}

  /** A turn that goes on keeps how the path ends; one that came to an object, acceptable or not, ended at a name. */
  ghost predicate KeepsEnd(fs: Filesystem, roots: seq<Root>, p: Progress, meaning: Outcome, ends: bool, links: nat) {
    match p
    case Done(Ok(_)) => ends
    case Done(Err(error)) => (error.InvalidRelativePath? ==> !meaning.Found?) && (error.NotRegularFile? ==> ends)
    case Going(w, queue) =>
      |w.stack| > 0 && w.hops <= MAX_SYMLINK_HOPS
      && (Meaning(fs, w, queue, links).Unfinished? || Ends(fs, roots, w, queue, links) == ends)
  }

  lemma ExpansionKeepsEnd(env: Environment, fs: Filesystem, roots: seq<Root>, w: WalkValue, name: Name, rest: seq<Name>,
                          links: nat)
    requires Static(env, fs) && Faultless(env) && Named(fs, false, roots, links) && Standing(fs, roots, w)
    requires LinkIn(fs, Top(w), name) && name != "." && name != ".."
    ensures KeepsEnd(fs, roots, Expansion(env, roots, w, name, rest), Meaning(fs, w, [name] + rest, links),
                     Ends(fs, roots, w, [name] + rest, links), links)
  {
    FollowLands(env, fs, roots, w, name);
    if Follow(env, roots, w, name).Ok? {
      if rest == [] {
        LastLinkEnds(env, fs, roots, w, name, links);
        assert [name] + rest == [name];
        assert Follow(env, roots, w, name).value.names + rest == Follow(env, roots, w, name).value.names;
      } else {
        MiddleLinkEnds(env, fs, roots, w, name, rest, links);
      }
    }
  }

  lemma LinkStepKeepsEnd(env: Environment, fs: Filesystem, roots: seq<Root>, existing: bool, w: WalkValue, name: Name,
                         rest: seq<Name>, want: Want, links: nat)
    requires Static(env, fs) && Faultless(env) && Tree(fs) && Named(fs, false, roots, links) && Standing(fs, roots, w)
    requires name != "." && name != ".." && Try(env, w, name, rest == []).IsALink?
    ensures KeepsEnd(fs, roots, NameStep(env, roots, existing, w, name, rest, want),
                     Meaning(fs, w, [name] + rest, links), Ends(fs, roots, w, [name] + rest, links), links)
  {
    var w' := w.(time := w.time + 2);
    TryAgainst(env, fs, roots, w, name, rest == []);
    LinkTurn(env, roots, existing, w, name, rest, want);
    assert Standing(fs, roots, w') && Meaning(fs, w, [name] + rest, links) == Meaning(fs, w', [name] + rest, links);
    assert Ends(fs, roots, w, [name] + rest, links) == Ends(fs, roots, w', [name] + rest, links);
    ExpansionKeepsEnd(env, fs, roots, w', name, rest, links);
  }

  lemma OpenStepKeepsEnd(env: Environment, fs: Filesystem, roots: seq<Root>, existing: bool, w: WalkValue, name: Name,
                         rest: seq<Name>, want: Want, links: nat)
    requires Static(env, fs) && Faultless(env) && Tree(fs) && Standing(fs, roots, w)
    requires name != "." && name != ".." && !Try(env, w, name, rest == []).IsALink?
    ensures KeepsEnd(fs, roots, NameStep(env, roots, existing, w, name, rest, want),
                     Meaning(fs, w, [name] + rest, links), Ends(fs, roots, w, [name] + rest, links), links)
  {
    TryAgainst(env, fs, roots, w, name, rest == []);
    assert ([name] + rest)[1..] == rest;
  }

  lemma StepKeepsEnd(env: Environment, fs: Filesystem, roots: seq<Root>, existing: bool, w: WalkValue,
                     queue: seq<Name>, want: Want, links: nat)
    requires Static(env, fs) && Faultless(env) && Tree(fs) && Named(fs, false, roots, links) && Standing(fs, roots, w)
    requires queue != []
    ensures KeepsEnd(fs, roots, WalkStep(env, roots, existing, w, queue, want), Meaning(fs, w, queue, links),
                     Ends(fs, roots, w, queue, links), links)
  {
    if w.steps < MAX_RESOLUTION_STEPS && queue[0] != "." && queue[0] != ".." {
      var w' := w.(steps := w.steps + 1);
      assert queue == [queue[0]] + queue[1..];
      assert Standing(fs, roots, w') && Meaning(fs, w', queue, links) == Meaning(fs, w, queue, links);
      assert Ends(fs, roots, w', queue, links) == Ends(fs, roots, w, queue, links);
      TurnIsNameStep(env, roots, existing, w, queue, want);
      if Try(env, w', queue[0], queue[1..] == []).IsALink? {
        LinkStepKeepsEnd(env, fs, roots, existing, w', queue[0], queue[1..], want, links);
      } else {
        OpenStepKeepsEnd(env, fs, roots, existing, w', queue[0], queue[1..], want, links);
      }
    } else {
      DotStepKeepsEnd(env, fs, roots, existing, w, queue, want, links);
    }
  }

  lemma DotStepKeepsEnd(env: Environment, fs: Filesystem, roots: seq<Root>, existing: bool, w: WalkValue,
                        queue: seq<Name>, want: Want, links: nat)
    requires Tree(fs) && Standing(fs, roots, w) && queue != []
    requires w.steps == MAX_RESOLUTION_STEPS || queue[0] == "." || queue[0] == ".."
    ensures KeepsEnd(fs, roots, WalkStep(env, roots, existing, w, queue, want), Meaning(fs, w, queue, links),
                     Ends(fs, roots, w, queue, links), links)
  {}

  /** An object is returned, or refused for its kind, only at a name; an emptied queue is a directory at none. */
  lemma {:induction false} WalkKeepsEnd(env: Environment, fs: Filesystem, roots: seq<Root>, existing: bool,
                                        w: WalkValue, queue: seq<Name>, want: Want, links: nat)
    requires Static(env, fs) && Faultless(env) && Tree(fs) && Named(fs, false, roots, links) && Standing(fs, roots, w)
    ensures var r := WalkFrom(env, roots, existing, w, queue, want);
            && (r.Ok? || r.error.NotRegularFile? ==> Ends(fs, roots, w, queue, links))
            && (r == Err(InvalidRelativePath) && Meaning(fs, w, queue, links).Found? ==>
                  !Ends(fs, roots, w, queue, links))
    decreases MAX_RESOLUTION_STEPS - w.steps
  {
    if queue != [] {
      StepAgrees(env, fs, roots, existing, w, queue, want, links);
      StepKeepsEnd(env, fs, roots, existing, w, queue, want, links);
      var p := WalkStep(env, roots, existing, w, queue, want);
      if p.Going? {
        WalkAgrees(env, fs, roots, existing, p.walk, p.queue, want, links);
        WalkKeepsEnd(env, fs, roots, existing, p.walk, p.queue, want, links);
      }
    }
  }

  // ----- What becomes of an object that resolution finds -----

  /**
   An acceptable object that resolution finds: returned if the path ends at a name,
   and otherwise, being a directory, refused as no valid path; unless one of the
   walk's own bounds refuses it.
   */
  ghost predicate Delivers(want: Want, ends: bool, r: Result<Resolved, ReadError>, node: Node) {
    (r.Err? && OwnBound(r.error))
    || if ends then r.Ok? && r.value.node == node else r == Err(InvalidRelativePath) && want.WantDirectory?
  }

  lemma WalkDelivers(env: Environment, fs: Filesystem, roots: seq<Root>, existing: bool, w: WalkValue,
                     components: seq<Name>, want: Want, links: nat, node: Node)
    requires Static(env, fs) && Faultless(env) && Tree(fs) && Named(fs, true, roots, links)
    requires w.root < |roots| && w == Fresh(roots, w.root)
    requires Resolve(fs, false, roots[w.root].directory, components, links + MAX_SYMLINK_HOPS) == Found(node)
    requires node in fs.objects && Acceptable(want, KindOf(fs.objects[node]))
    ensures Delivers(want, EndsAtName(fs, roots, roots[w.root].directory, components, links + MAX_SYMLINK_HOPS),
                     WalkFrom(env, roots, existing, w, components, want), node)
  {
    RootsByComponents(fs, roots, links);
    assert Standing(fs, roots, w) && LinksLeft(w, links) == links + MAX_SYMLINK_HOPS;
    WalkAgrees(env, fs, roots, existing, w, components, want, links);
    WalkKeepsEnd(env, fs, roots, existing, w, components, want, links);
  }

  /**
   Every relative request without parents: an acceptable object that ordinary
   resolution finds is delivered; the empty path delivers the root itself.
   */
  lemma RelativeRequestDelivers(env: Environment, fs: Filesystem, roots: seq<Root>, index: nat, relative: string,
                                want: Want, links: nat, node: Node)
    requires Static(env, fs) && Faultless(env) && Tree(fs) && Named(fs, true, roots, links)
    requires index < |roots| && SplitComponents(relative).Ok?
    requires Resolve(fs, true, roots[index].directory, Segments(relative), links + MAX_SYMLINK_HOPS) == Found(node)
    requires node in fs.objects && Acceptable(want, KindOf(fs.objects[node]))
    ensures var components, more := Components(relative), links + MAX_SYMLINK_HOPS;
            Delivers(want, components == [] || EndsAtName(fs, roots, roots[index].directory, components, more),
                     OpenRelative(env, roots, index, relative, want), node)
  {
    ComponentsAgainstStandard(fs, roots[index].directory, Segments(relative), links + MAX_SYMLINK_HOPS);
    if Components(relative) != [] {
      WalkDelivers(env, fs, roots, false, Fresh(roots, index), Components(relative), want, links, node);
    }
  }

  /** A regular file that ordinary resolution of an absolute path finds is returned, or one of the bounds refuses it. */
  lemma AbsoluteRequestDelivers(env: Environment, fs: Filesystem, roots: seq<Root>, absolute: string, existing: bool,
                                links: nat, node: Node)
    requires Static(env, fs) && Faultless(env) && Tree(fs) && Named(fs, true, roots, links) && Absolute(absolute)
    requires Resolve(fs, true, fs.root, Segments(absolute), links + MAX_SYMLINK_HOPS) == Found(node)
    requires node in fs.objects && fs.objects[node].Regular?
    ensures var r := OpenAbsolute(env, roots, absolute, existing);
            (r.Ok? && r.value.node == node) || (r.Err? && OwnBound(r.error))
  {
    if LocateIn(roots, absolute).Some? {
      var found := LocateIn(roots, absolute).value;
      RootsByComponents(fs, roots, links);
      ComponentsAgainstStandard(fs, fs.root, Segments(absolute), links + MAX_SYMLINK_HOPS);
      FinishedFromItsRoot(fs, roots, absolute, links, links + MAX_SYMLINK_HOPS);
      if found.rest != [] {
        WalkDelivers(env, fs, roots, existing, Fresh(roots, found.index), found.rest, WantFile, links, node);
      }
    }
  }

  // ----- A directory that no name ends at -----

  /** One directory holding a link to itself. */
  const LOOPED: Filesystem := Filesystem(0, map[0 := Dir(map["l" := 1], 0), 1 := Link(".")])

  lemma LoopedSpellings()
    ensures Segments("l") == ["l"] && Components("l") == ["l"] && Segments(".") == ["."] && Components(".") == []
  {
    assert "l"[1..] == "" && "" + ['l'] == "l" && Split("l", "") == Split("", "l");
    assert "."[1..] == "" && "" + ['.'] == "." && Split(".", "") == Split("", ".");
    assert ["l"][1..] == [] && ["."][1..] == [];
    assert DropDots(["l"]) == ["l"] + DropDots([]);
  }

  lemma LoopedResolves()
    ensures Resolve(LOOPED, true, 0, ["l"], MAX_SYMLINK_HOPS) == Found(0)
    ensures !EndsAtName(LOOPED, [Root(0, "/")], 0, ["l"], MAX_SYMLINK_HOPS)
  {}

  lemma LoopedWalkEmpties(env: Environment, roots: seq<Root>)
    requires env == ((t: nat) => Moment(LOOPED, None)) && roots == [Root(0, "/")]
    ensures WalkFrom(env, roots, false, Fresh(roots, 0), ["l"], WantDirectory) == Err(InvalidRelativePath)
  {}

  /** A request for the directory `l` is refused as no valid path, though resolution finds the directory. */
  lemma LinkToHereIsRefused()
    ensures var env := (t: nat) => Moment(LOOPED, None);
            && OpenRelative(env, [Root(0, "/")], 0, "l", WantDirectory) == Err(InvalidRelativePath)
            && Resolve(LOOPED, true, 0, Segments("l"), MAX_SYMLINK_HOPS) == Found(0)
            && !EndsAtName(LOOPED, [Root(0, "/")], 0, Components("l"), MAX_SYMLINK_HOPS)
  {
    LoopedSpellings();
    LoopedResolves();
    LoopedWalkEmpties((t: nat) => Moment(LOOPED, None), [Root(0, "/")]);
  }
}
