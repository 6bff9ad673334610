/**
 When the walk's own bounds refuse, exactly. A path is expanded recursively, link by
 link, and the names and links it comes to are counted; the walk, which keeps one
 queue, refuses for a bound if and only if the counts or the expansion itself pass it.
 */
module WalkBounds {
  import opened Basics
  import opened Paths
  import opened AuthorizedRead
  import opened WalkRefinement
  import opened WalkRequests
  import opened WalkCompleteness

  /**
   How an expansion ends: at a directory, given as the stack up from its root; at an
   object opened last or a name that cannot be; above a root or at a target under
   none; at a target too long to read; or inside more links than were allowed for.
   */
  datatype End = Here(stack: seq<Node>) | Over | Outside | LongTarget | Deep

  /** The names and the links met on the way. */
  datatype Trace = Trace(names: nat, links: nat, end: End)

  function Plus(names: nat, links: nat, t: Trace): Trace {
    Trace(names + t.names, links + t.links, t.end)
  }

  /** What the head of a queue asks for: another stack, a link's target from some stack, or an end. */
  datatype Head =
    | Moves(stack: seq<Node>)
    | Bends(stack: seq<Node>, names: seq<Name>)
    | Breaks(end: End)
    | Stops(end: End)

  /** Where a link's target is read from, if it may be followed. */
  function AnchorOf(roots: seq<Root>, stack: seq<Node>, target: string): Head {
    if |target| > 4096 then Breaks(LongTarget)
    else if !Absolute(target) then Bends(stack, Components(target))
    else
      var found := LocateIn(roots, target);
      if found.None? then Breaks(Outside) else Bends([roots[found.value.index].directory], found.value.rest)
  }

  /** One name from the top of `stack`; nothing follows the `last` one. */
  function HeadOf(fs: Filesystem, roots: seq<Root>, stack: seq<Node>, name: Name, last: bool): Head {
    if |stack| == 0 then Stops(Over)
    else
      var dir := stack[|stack| - 1];
      if name == "." then Moves(stack)
      else if name == ".." then if |stack| == 1 then Stops(Outside) else Moves(stack[..|stack| - 1])
      else if !IsDir(fs, dir) || name !in fs.objects[dir].entries then Stops(Over)
      else
        var node := fs.objects[dir].entries[name];
        if IsLink(fs, node) then AnchorOf(roots, stack, fs.objects[node].target)
        else if last || !IsDir(fs, node) then Stops(Over)
        else Moves(stack + [node])
  }

  /**
   The expansion of `queue` from the top of `stack`; `more` says that something
   follows it, and `fuel` how many links may lie inside one another.
   */
  function Expand(fs: Filesystem, roots: seq<Root>, stack: seq<Node>, queue: seq<Name>, more: bool, fuel: nat): Trace
    decreases fuel, |queue|
  {
    if queue == [] then Trace(0, 0, Here(stack))
    else
      match HeadOf(fs, roots, stack, queue[0], queue[1..] == [] && !more)
      case Moves(stack') => Plus(1, 0, Expand(fs, roots, stack', queue[1..], more, fuel))
      case Stops(end) => Trace(1, 0, end)
      case Breaks(end) => Trace(1, 1, end)
      case Bends(start, names) =>
        if fuel == 0 then Trace(1, 1, Deep)
        else
          var inner := Expand(fs, roots, start, names, more || queue[1..] != [], fuel - 1);
          if inner.end.Here?
          then Plus(1 + inner.names, 1 + inner.links, Expand(fs, roots, inner.end.stack, queue[1..], more, fuel))
          else Plus(1, 1, inner)
  }

  /** What follows a trace that came to a directory. */
  function Then(fs: Filesystem, roots: seq<Root>, t: Trace, queue: seq<Name>, more: bool, fuel: nat): Trace {
    if t.end.Here? then Plus(t.names, t.links, Expand(fs, roots, t.end.stack, queue, more, fuel)) else t
  }

  /** A path in two parts: the first is expanded with something to follow, and the second from there. */
  lemma {:induction false} ExpandAppend(fs: Filesystem, roots: seq<Root>, stack: seq<Node>, a: seq<Name>, b: seq<Name>,
                                        more: bool, fuel: nat)
    ensures Expand(fs, roots, stack, a + b, more, fuel)
         == Then(fs, roots, Expand(fs, roots, stack, a, more || b != [], fuel), b, more, fuel)
    decreases |a|
  {
    if a == [] {
      assert a + b == b;
    } else {
      var rest, head := a[1..], HeadOf(fs, roots, stack, a[0], a[1..] + b == [] && !more);
      assert (a + b)[0] == a[0] && (a + b)[1..] == rest + b;
      if head.Moves? {
        ExpandAppend(fs, roots, head.stack, rest, b, more, fuel);
      } else if head.Bends? && fuel > 0 {
        var inner := Expand(fs, roots, head.stack, head.names, more || rest + b != [], fuel - 1);
        if inner.end.Here? {
          ExpandAppend(fs, roots, inner.end.stack, rest, b, more, fuel);
        }
      }
    }
  }

  /** With more fuel the expansion is the same, or both count more links than the fuel was. */
  predicate SameOrDeep(t: Trace, t': Trace, fuel: nat) {
    t' == t || (t.end.Deep? && t.links > fuel && t'.links > fuel)
  }

  lemma {:induction false} ExpandMore(fs: Filesystem, roots: seq<Root>, stack: seq<Node>, queue: seq<Name>, more: bool,
                                      fuel: nat, fuel': nat)
    requires fuel <= fuel'
    ensures SameOrDeep(Expand(fs, roots, stack, queue, more, fuel), Expand(fs, roots, stack, queue, more, fuel'), fuel)
    decreases fuel, |queue|
  {
    if queue != [] {
      var rest, head := queue[1..], HeadOf(fs, roots, stack, queue[0], queue[1..] == [] && !more);
      if head.Moves? {
        ExpandMore(fs, roots, head.stack, rest, more, fuel, fuel');
      } else if head.Bends? && fuel > 0 {
        ExpandMore(fs, roots, head.stack, head.names, more || rest != [], fuel - 1, fuel' - 1);
        var inner := Expand(fs, roots, head.stack, head.names, more || rest != [], fuel - 1);
        if inner.end.Here? {
          ExpandMore(fs, roots, inner.end.stack, rest, more, fuel, fuel');
        }
      }
    }
  }

  // ----- The walk and the expansion -----

  /** The expansion of what a walk has left. One link more than the bound settles every excess. */
  function TraceOf(fs: Filesystem, roots: seq<Root>, w: WalkValue, queue: seq<Name>): Trace
    requires w.hops <= MAX_SYMLINK_HOPS
  {
    Expand(fs, roots, w.stack, queue, false, MAX_SYMLINK_HOPS + 1 - w.hops)
  }

  /** The expansion, after so many names and links, passes a bound or leaves the roots. */
  predicate Past(steps: nat, hops: nat, t: Trace) {
    steps + t.names > 512 || hops + t.links > 16 || t.end.Outside? || t.end.LongTarget?
  }

  predicate RefusedByBound(r: Result<Resolved, ReadError>) {
    r.Err? && OwnBound(r.error)
  }

  /** A turn refuses for a bound where the expansion passes one, and otherwise leaves it so. */
  ghost predicate KeepsBound(fs: Filesystem, roots: seq<Root>, p: Progress, past: bool) {
    match p
    case Done(r) => past == RefusedByBound(r)
    case Going(w, queue) => w.hops <= MAX_SYMLINK_HOPS && past == Past(w.steps, w.hops, TraceOf(fs, roots, w, queue))
  }

  lemma BendUnfolds(fs: Filesystem, roots: seq<Root>, stack: seq<Node>, queue: seq<Name>, head: Head, fuel: nat)
    requires queue != [] && head == HeadOf(fs, roots, stack, queue[0], queue[1..] == []) && head.Bends?
    ensures var inner := Expand(fs, roots, head.stack, head.names, queue[1..] != [], fuel);
            Expand(fs, roots, stack, queue, false, fuel + 1)
            == Plus(1, 1, Then(fs, roots, inner, queue[1..], false, fuel + 1))
  {}

  lemma ThenMore(fs: Filesystem, roots: seq<Root>, inner: Trace, rest: seq<Name>, fuel: nat)
    ensures SameOrDeep(Plus(1, 1, Then(fs, roots, inner, rest, false, fuel)),
                       Plus(1, 1, Then(fs, roots, inner, rest, false, fuel + 1)), fuel + 1)
  {
    if inner.end.Here? {
      ExpandMore(fs, roots, inner.end.stack, rest, false, fuel, fuel + 1);
    }
  }

  /** A link at the head of the queue expands as its target put before the rest does. */
  lemma BendExpands(fs: Filesystem, roots: seq<Root>, stack: seq<Node>, queue: seq<Name>, head: Head, fuel: nat)
    requires queue != [] && head == HeadOf(fs, roots, stack, queue[0], queue[1..] == []) && head.Bends?
    ensures SameOrDeep(Plus(1, 1, Expand(fs, roots, head.stack, head.names + queue[1..], false, fuel)),
                       Expand(fs, roots, stack, queue, false, fuel + 1), fuel + 1)
  {
    BendUnfolds(fs, roots, stack, queue, head, fuel);
    ExpandAppend(fs, roots, head.stack, head.names, queue[1..], false, fuel);
    ThenMore(fs, roots, Expand(fs, roots, head.stack, head.names, queue[1..] != [], fuel), queue[1..], fuel);
  }

  lemma PastAlike(t: Trace, t': Trace, steps: nat, hops: nat)
    requires hops < MAX_SYMLINK_HOPS && SameOrDeep(Plus(1, 1, t), t', MAX_SYMLINK_HOPS - hops + 1)
    ensures Past(steps, hops, t') <==> Past(steps + 1, hops + 1, t)
  {}

  /** Following goes where the target is anchored, or refuses for a bound. */
  lemma FollowIsAnchored(env: Environment, fs: Filesystem, roots: seq<Root>, w: WalkValue, name: Name, last: bool)
    requires Static(env, fs) && Faultless(env) && Standing(fs, roots, w) && LinkIn(fs, Top(w), name)
    requires name != "." && name != ".."
    ensures var head := HeadOf(fs, roots, w.stack, name, last);
            match Follow(env, roots, w, name)
            case Ok(f) =>
              && head == Bends(f.walk.stack, f.names) && f.walk.steps == w.steps
              && f.walk.hops == w.hops + 1 <= MAX_SYMLINK_HOPS
            case Err(error) =>
              && OwnBound(error)
              && (if w.hops == MAX_SYMLINK_HOPS then head.Bends? || head.Breaks? else head.Breaks?)
              && (head.Breaks? ==> head.end.Outside? || head.end.LongTarget?)
  {}

  lemma ExpansionKeepsBound(env: Environment, fs: Filesystem, roots: seq<Root>, w: WalkValue, name: Name,
                            rest: seq<Name>)
    requires Static(env, fs) && Faultless(env) && Standing(fs, roots, w) && LinkIn(fs, Top(w), name)
    requires name != "." && name != ".." && w.steps > 0
    ensures KeepsBound(fs, roots, Expansion(env, roots, w, name, rest),
                       Past(w.steps - 1, w.hops, TraceOf(fs, roots, w, [name] + rest)))
  {
    var queue, followed := [name] + rest, Follow(env, roots, w, name);
    assert queue[1..] == rest;
    FollowIsAnchored(env, fs, roots, w, name, rest == []);
    if followed.Ok? {
      var f, fuel := followed.value, MAX_SYMLINK_HOPS - w.hops;
      BendExpands(fs, roots, w.stack, queue, Bends(f.walk.stack, f.names), fuel);
      PastAlike(Expand(fs, roots, f.walk.stack, f.names + rest, false, fuel),
                Expand(fs, roots, w.stack, queue, false, fuel + 1), w.steps - 1, w.hops);
    } else {
      assert TraceOf(fs, roots, w, queue).links >= 1;
    }
  }

  lemma LinkStepKeepsBound(env: Environment, fs: Filesystem, roots: seq<Root>, existing: bool, w: WalkValue, name: Name,
                           rest: seq<Name>, want: Want)
    requires Static(env, fs) && Faultless(env) && Tree(fs) && Standing(fs, roots, w) && w.steps > 0
    requires name != "." && name != ".." && Try(env, w, name, rest == []).IsALink?
    ensures KeepsBound(fs, roots, NameStep(env, roots, existing, w, name, rest, want),
                       Past(w.steps - 1, w.hops, TraceOf(fs, roots, w, [name] + rest)))
  {
    var w' := w.(time := w.time + 2);
    TryAgainst(env, fs, roots, w, name, rest == []);
    LinkTurn(env, roots, existing, w, name, rest, want);
    assert Standing(fs, roots, w') && TraceOf(fs, roots, w, [name] + rest) == TraceOf(fs, roots, w', [name] + rest);
    ExpansionKeepsBound(env, fs, roots, w', name, rest);
  }

  lemma OpenStepKeepsBound(env: Environment, fs: Filesystem, roots: seq<Root>, existing: bool, w: WalkValue, name: Name,
                           rest: seq<Name>, want: Want)
    requires Static(env, fs) && Faultless(env) && Tree(fs) && Standing(fs, roots, w) && w.steps > 0
    requires name != "." && name != ".." && !Try(env, w, name, rest == []).IsALink?
    ensures KeepsBound(fs, roots, NameStep(env, roots, existing, w, name, rest, want),
                       Past(w.steps - 1, w.hops, TraceOf(fs, roots, w, [name] + rest)))
  {
    TryAgainst(env, fs, roots, w, name, rest == []);
    assert ([name] + rest)[1..] == rest;
    var head, tried := HeadOf(fs, roots, w.stack, name, rest == []), Try(env, w, name, rest == []);
    if tried.Got? && rest != [] {
      assert head == Moves(w.stack + [tried.node]);
    } else {
      assert head == Stops(Over);
    }
  }

  lemma DotStepKeepsBound(env: Environment, fs: Filesystem, roots: seq<Root>, existing: bool, w: WalkValue,
                          queue: seq<Name>, want: Want)
    requires Standing(fs, roots, w) && queue != []
    requires w.steps == MAX_RESOLUTION_STEPS || queue[0] == "." || queue[0] == ".."
    ensures KeepsBound(fs, roots, WalkStep(env, roots, existing, w, queue, want),
                       Past(w.steps, w.hops, TraceOf(fs, roots, w, queue)))
  {}

  lemma StepKeepsBound(env: Environment, fs: Filesystem, roots: seq<Root>, existing: bool, w: WalkValue,
                       queue: seq<Name>, want: Want)
    requires Static(env, fs) && Faultless(env) && Tree(fs) && Standing(fs, roots, w) && queue != []
    ensures KeepsBound(fs, roots, WalkStep(env, roots, existing, w, queue, want),
                       Past(w.steps, w.hops, TraceOf(fs, roots, w, queue)))
  {
    if w.steps < MAX_RESOLUTION_STEPS && queue[0] != "." && queue[0] != ".." {
      var w' := w.(steps := w.steps + 1);
      assert queue == [queue[0]] + queue[1..];
      assert Standing(fs, roots, w') && TraceOf(fs, roots, w', queue) == TraceOf(fs, roots, w, queue);
      TurnIsNameStep(env, roots, existing, w, queue, want);
      if Try(env, w', queue[0], queue[1..] == []).IsALink? {
        LinkStepKeepsBound(env, fs, roots, existing, w', queue[0], queue[1..], want);
      } else {
        OpenStepKeepsBound(env, fs, roots, existing, w', queue[0], queue[1..], want);
      }
    } else {
      DotStepKeepsBound(env, fs, roots, existing, w, queue, want);
    }
  }

  /** The walk is refused for one of its bounds exactly where the expansion passes one or leaves the roots. */
  lemma {:induction false} WalkIsBoundedExactly(env: Environment, fs: Filesystem, roots: seq<Root>, existing: bool,
                                                w: WalkValue, queue: seq<Name>, want: Want, links: nat)
    requires Static(env, fs) && Faultless(env) && Tree(fs) && Named(fs, false, roots, links) && Standing(fs, roots, w)
    ensures RefusedByBound(WalkFrom(env, roots, existing, w, queue, want))
            <==> Past(w.steps, w.hops, TraceOf(fs, roots, w, queue))
    decreases MAX_RESOLUTION_STEPS - w.steps
  {
    if queue != [] {
      StepAgrees(env, fs, roots, existing, w, queue, want, links);
      StepKeepsBound(env, fs, roots, existing, w, queue, want);
      var p := WalkStep(env, roots, existing, w, queue, want);
      if p.Going? {
        WalkIsBoundedExactly(env, fs, roots, existing, p.walk, p.queue, want, links);
      }
    }
  }

  // ----- What becomes of a request -----

  function TraceFrom(fs: Filesystem, roots: seq<Root>, index: nat, components: seq<Name>): Trace
    requires index < |roots|
  {
    Expand(fs, roots, [roots[index].directory], components, false, MAX_SYMLINK_HOPS + 1)
  }

  lemma FreshWalkIsBoundedExactly(env: Environment, fs: Filesystem, roots: seq<Root>, existing: bool, w: WalkValue,
                                  components: seq<Name>, want: Want, links: nat)
    requires Static(env, fs) && Faultless(env) && Tree(fs) && Named(fs, true, roots, links)
    requires w.root < |roots| && w == Fresh(roots, w.root)
    ensures RefusedByBound(WalkFrom(env, roots, existing, w, components, want))
            <==> Past(0, 0, TraceFrom(fs, roots, w.root, components))
  {
    RootsByComponents(fs, roots, links);
    assert Standing(fs, roots, w);
    WalkIsBoundedExactly(env, fs, roots, existing, w, components, want, links);
  }

  /**
   Every relative request without parents for an acceptable object that ordinary
   resolution finds has one answer: a refusal where its expansion passes a bound or
   leaves the roots; otherwise the object, or no valid path where it ends at no name.
   */
  lemma RelativeRequestIsDecided(env: Environment, fs: Filesystem, roots: seq<Root>, index: nat, relative: string,
                                 want: Want, links: nat, node: Node)
    requires Static(env, fs) && Faultless(env) && Tree(fs) && Named(fs, true, roots, links)
    requires index < |roots| && SplitComponents(relative).Ok?
    requires Resolve(fs, true, roots[index].directory, Segments(relative), links + MAX_SYMLINK_HOPS) == Found(node)
    requires node in fs.objects && Acceptable(want, KindOf(fs.objects[node]))
    ensures var r, components := OpenRelative(env, roots, index, relative, want), Components(relative);
            if Past(0, 0, TraceFrom(fs, roots, index, components)) then RefusedByBound(r)
            else if components == []
                    || EndsAtName(fs, roots, roots[index].directory, components, links + MAX_SYMLINK_HOPS)
            then r.Ok? && r.value.node == node
            else r == Err(InvalidRelativePath) && want.WantDirectory?
  {
    RelativeRequestDelivers(env, fs, roots, index, relative, want, links, node);
    if Components(relative) != [] {
      FreshWalkIsBoundedExactly(env, fs, roots, false, Fresh(roots, index), Components(relative), want, links);
    }
  }

  /** The same of an absolute request for a regular file. */
  lemma AbsoluteRequestIsDecided(env: Environment, fs: Filesystem, roots: seq<Root>, absolute: string, existing: bool,
                                 links: nat, node: Node)
    requires Static(env, fs) && Faultless(env) && Tree(fs) && Named(fs, true, roots, links) && Absolute(absolute)
    requires Resolve(fs, true, fs.root, Segments(absolute), links + MAX_SYMLINK_HOPS) == Found(node)
    requires node in fs.objects && fs.objects[node].Regular?
    ensures var r, found := OpenAbsolute(env, roots, absolute, existing), LocateIn(roots, absolute);
            if found.None? || Past(0, 0, TraceFrom(fs, roots, found.value.index, found.value.rest))
            then RefusedByBound(r)
            else r.Ok? && r.value.node == node
  {
    AbsoluteRequestDelivers(env, fs, roots, absolute, existing, links, node);
    if LocateIn(roots, absolute).Some? {
      var found := LocateIn(roots, absolute).value;
      FreshWalkIsBoundedExactly(env, fs, roots, existing, Fresh(roots, found.index), found.rest, WantFile, links);
    }
  }

  // ----- Without links -----

  ghost predicate NoLinks(fs: Filesystem) {
    forall node: Node :: !IsLink(fs, node)
  }

  predicate PlainNames(queue: seq<Name>) {
    forall i :: 0 <= i < |queue| ==> queue[i] != "." && queue[i] != ".."
  }

  lemma {:induction false} ComponentsArePlain(segments: seq<Name>)
    requires ".." !in segments
    ensures PlainNames(DropDots(segments))
  {
    if segments != [] {
      ComponentsArePlain(segments[1..]);
    }
  }

  /** Plain names that resolve without links end at the last of them. */
  lemma {:induction false} PlainNamesEnd(fs: Filesystem, roots: seq<Root>, dir: Node, queue: seq<Name>, links: nat)
    requires NoLinks(fs) && PlainNames(queue) && queue != [] && Resolve(fs, false, dir, queue, links).Found?
    ensures EndsAtName(fs, roots, dir, queue, links)
    decreases |queue|
  {
    if |queue| > 1 {
      PlainNamesEnd(fs, roots, fs.objects[dir].entries[queue[0]], queue[1..], links);
    }
  }

  /** Without links, plain names come to no more than themselves. */
  lemma {:induction false} PlainNamesExpand(fs: Filesystem, roots: seq<Root>, stack: seq<Node>, queue: seq<Name>,
                                            fuel: nat)
    requires NoLinks(fs) && PlainNames(queue)
    ensures var t := Expand(fs, roots, stack, queue, false, fuel);
            t.names <= |queue| && t.links == 0 && (t.end.Here? || t.end.Over?)
    decreases |queue|
  {
    if queue != [] && |stack| > 0 && IsDir(fs, stack[|stack| - 1])
       && queue[0] in fs.objects[stack[|stack| - 1]].entries {
      PlainNamesExpand(fs, roots, stack + [fs.objects[stack[|stack| - 1]].entries[queue[0]]], queue[1..], fuel);
    }
  }

  /** Without links, every acceptable object that resolution of at most 512 names finds is returned. */
  lemma PlainRequestIsAnswered(env: Environment, fs: Filesystem, roots: seq<Root>, index: nat, relative: string,
                               want: Want, links: nat, node: Node)
    requires Static(env, fs) && Faultless(env) && Tree(fs) && Named(fs, true, roots, links) && NoLinks(fs)
    requires index < |roots| && SplitComponents(relative).Ok? && |Components(relative)| <= MAX_RESOLUTION_STEPS
    requires Resolve(fs, true, roots[index].directory, Segments(relative), links + MAX_SYMLINK_HOPS) == Found(node)
    requires node in fs.objects && Acceptable(want, KindOf(fs.objects[node]))
    ensures var r := OpenRelative(env, roots, index, relative, want); r.Ok? && r.value.node == node
  {
    var dir, more := roots[index].directory, links + MAX_SYMLINK_HOPS;
    RelativeRequestIsDecided(env, fs, roots, index, relative, want, links, node);
    ComponentsAgainstStandard(fs, dir, Segments(relative), more);
    ComponentsArePlain(Segments(relative));
    PlainNamesExpand(fs, roots, [dir], Components(relative), MAX_SYMLINK_HOPS + 1);
    if Components(relative) != [] {
      PlainNamesEnd(fs, roots, dir, Components(relative), more);
    }
  }
}
