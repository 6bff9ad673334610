/**
 Containment of the authorized walk, with the filesystem changed arbitrarily
 between any two system calls.
 */
module WalkContainment {
  import opened Paths
  import opened AuthorizedRead

  /** Some call before `time` found `node` as a real directory, not a link, under this name in `dir`. */
  ghost predicate WasDirectoryIn(env: Environment, time: nat, dir: Node, name: Name, node: Node) {
    exists t: nat :: t < time && Entry(env(t).fs, dir, name, node) && IsDir(env(t).fs, node)
  }

  /**
   The walk stands on an authorized root: one more descriptor than names, the root's
   own directory at the bottom, and each further descriptor opened as a directory
   entry of the one below. It has spent at most three calls a step.
   */
  ghost predicate Anchored(env: Environment, roots: seq<Root>, w: WalkValue) {
    && Shaped(roots, w)
    && w.stack[0] == roots[w.root].directory
    && (forall i :: 0 <= i < |w.names| ==>
          w.names[i] != "." && w.names[i] != ".."
          && WasDirectoryIn(env, w.time, w.stack[i], w.names[i], w.stack[i + 1]))
    && w.hops <= MAX_SYMLINK_HOPS
    && w.time <= 3 * w.steps
  }

  /** The object was opened from the top of the walk, under this name, as something other than a link. */
  ghost predicate OpenedFromTop(env: Environment, roots: seq<Root>, w: WalkValue, name: Name, want: Want, r: Resolved)
    requires Shaped(roots, w)
  {
    && name != "." && name != ".."
    && Entry(env(w.time).fs, Top(w), name, r.node)
    && r.node in env(w.time).fs.objects
    && KindOf(env(w.time).fs.objects[r.node]) == r.kind && Acceptable(want, r.kind)
    && r.absolute == Components(roots[w.root].absolute) + w.names + [name]
  }

  lemma TimePassesAnchored(env: Environment, roots: seq<Root>, w: WalkValue, w': WalkValue)
    requires Anchored(env, roots, w) && w.time <= w'.time <= 3 * w'.steps
    requires w'.root == w.root && w'.stack == w.stack && w'.names == w.names
    requires w'.steps <= MAX_RESOLUTION_STEPS && w'.hops <= MAX_SYMLINK_HOPS
    ensures Anchored(env, roots, w')
  {}

  lemma PushStaysAnchored(env: Environment, roots: seq<Root>, w: WalkValue, name: Name, node: Node)
    requires Anchored(env, roots, w) && name != "." && name != ".." && w.time < 3 * w.steps
    requires Entry(env(w.time).fs, Top(w), name, node) && IsDir(env(w.time).fs, node)
    ensures Anchored(env, roots, Push(w, name, node))
  {}

  lemma PopStaysAnchored(env: Environment, roots: seq<Root>, w: WalkValue)
    requires Anchored(env, roots, w) && w.names != []
    ensures Anchored(env, roots, Pop(w))
  {}

  lemma FollowStaysAnchored(env: Environment, roots: seq<Root>, w: WalkValue, name: Name)
    requires Anchored(env, roots, w) && w.time < 3 * w.steps
    ensures var f := Follow(env, roots, w, name);
            f.Ok? ==> Anchored(env, roots, f.value.walk) && f.value.walk.hops == w.hops + 1
  {}

  lemma NameStepContained(env: Environment, roots: seq<Root>, existing: bool, w: WalkValue, name: Name,
                          rest: seq<Name>, want: Want)
    requires Anchored(env, roots, w) && w.time + 3 <= 3 * w.steps && name != "." && name != ".."
    ensures var p := NameStep(env, roots, existing, w, name, rest, want);
            && (p.Going? ==> Anchored(env, roots, p.walk))
            && (p.Done? && p.result.Ok? ==> OpenedFromTop(env, roots, w, name, want, p.result.value))
  {
    match Try(env, w, name, rest == []) {
      case Refused(_) =>
      case Got(node, kind) =>
        if rest != [] {
          PushStaysAnchored(env, roots, w, name, node);
        }
      case IsALink =>
        var w' := w.(time := w.time + 2);
        TimePassesAnchored(env, roots, w, w');
        FollowStaysAnchored(env, roots, w', name);
    }
  }

  lemma StepContained(env: Environment, roots: seq<Root>, existing: bool, w: WalkValue, queue: seq<Name>, want: Want)
    returns (last: WalkValue, name: Name)
    requires Anchored(env, roots, w) && queue != []
    ensures var p := WalkStep(env, roots, existing, w, queue, want);
            && (p.Going? ==> Anchored(env, roots, p.walk))
            && (p.Done? && p.result.Ok? ==>
                  Anchored(env, roots, last) && OpenedFromTop(env, roots, last, name, want, p.result.value))
  {
    last, name := w, queue[0];
    if w.steps < MAX_RESOLUTION_STEPS {
      last := w.(steps := w.steps + 1);
      TimePassesAnchored(env, roots, w, last);
      if name == "." {
        assert WalkStep(env, roots, existing, w, queue, want) == Going(last, queue[1..]);
      } else if name == ".." {
        if w.names != [] {
          PopStaysAnchored(env, roots, last);
          assert WalkStep(env, roots, existing, w, queue, want) == Going(Pop(last), queue[1..]);
        }
      } else {
        NameStepContained(env, roots, existing, last, name, queue[1..], want);
        TurnIsNameStep(env, roots, existing, w, queue, want);
      }
    }
  }

  /**
   Whatever happens to the filesystem during the walk, an object it returns was
   opened, not through a link, from a directory reached from an authorized root by
   directory entries each of which was real when it was opened; within 512 names,
   16 links and three calls a name, on any link graph.
   */
  lemma {:induction false} WalkIsContained(env: Environment, roots: seq<Root>, existing: bool, w: WalkValue,
                                           queue: seq<Name>, want: Want) returns (last: WalkValue, name: Name)
    requires Anchored(env, roots, w)
    ensures var r := WalkFrom(env, roots, existing, w, queue, want);
            r.Ok? ==> Anchored(env, roots, last) && OpenedFromTop(env, roots, last, name, want, r.value)
    decreases MAX_RESOLUTION_STEPS - w.steps
  {
    last, name := w, ".";
    if queue != [] {
      last, name := StepContained(env, roots, existing, w, queue, want);
      var p := WalkStep(env, roots, existing, w, queue, want);
      if p.Going? {
        last, name := WalkIsContained(env, roots, existing, p.walk, p.queue, want);
      }
    }
  }
}
