/**
 The descriptor walk behind authorized reads. Every name is opened relative to a
 directory already open and never through a link; links are expanded by hand into
 the queue of names. The filesystem may change between any two calls: the
 environment gives, for each call in turn, the filesystem it meets.
 */
module AuthorizedRead {
  import opened Basics
  import opened Paths

  const MAX_SYMLINK_HOPS: nat := 16
  const MAX_RESOLUTION_STEPS: nat := 512
  const MAX_LINK_TARGET_BYTES: nat := 4096

  datatype FileKind = RegularFile | Directory | Symlink | Special

  datatype Errno = ENOENT | EACCES | EPERM | ENOTDIR | ELOOP | EMLINK | ENAMETOOLONG | EINVAL | EIO

  datatype ReadError =
    | InvalidRelativePath
    | TooManyComponents
    | NotFound
    | PermissionDenied
    | NotADirectory
    | NotRegularFile(kind: FileKind)
    | EscapesAuthorizedRoots
    | SymlinkLoop
    | LinkTargetTooLong
    | RootUnavailable
    | Io

  function MapErrno(errno: Errno): ReadError {
    match errno
    case ENOENT => NotFound
    case EACCES => PermissionDenied
    case EPERM => PermissionDenied
    case ENOTDIR => NotADirectory
    case ELOOP => SymlinkLoop
    case EMLINK => SymlinkLoop
    case ENAMETOOLONG => InvalidRelativePath
    case EINVAL => InvalidRelativePath
    case EIO => Io
  }

  // ----- System calls -----

  /** What one call meets: a filesystem, and perhaps an error of its own. */
  datatype Moment = Moment(fs: Filesystem, fault: Option<Errno>)

  type Environment = nat -> Moment

  function KindOf(found: Object): FileKind {
    match found
    case Dir(_, _) => Directory
    case Regular => RegularFile
    case Link(_) => Symlink
    case Other => Special
  }

  datatype Opened = Descriptor(node: Node, kind: FileKind) | Denied(errno: Errno)

  /** `openat` with `O_NOFOLLOW`, then `fstat` of the descriptor it gave. */
  function OpenAt(m: Moment, dir: Node, name: Name, directoryOnly: bool): Opened {
    if m.fault.Some? then Denied(m.fault.value)
    else if !IsDir(m.fs, dir) || name !in m.fs.objects[dir].entries then Denied(ENOENT)
    else
      var node := m.fs.objects[dir].entries[name];
      if node !in m.fs.objects then Denied(ENOENT)
      else
        var kind := KindOf(m.fs.objects[node]);
        if kind.Symlink? then Denied(if directoryOnly then ENOTDIR else ELOOP)
        else if directoryOnly && !kind.Directory? then Denied(ENOTDIR)
        else Descriptor(node, kind)
  }

  /** `fstatat` with `AT_SYMLINK_NOFOLLOW` says this name is a link. */
  predicate LinkAt(m: Moment, dir: Node, name: Name) {
    m.fault.None? && IsDir(m.fs, dir) && name in m.fs.objects[dir].entries
    && IsLink(m.fs, m.fs.objects[dir].entries[name])
  }

  function ReadLinkAt(m: Moment, dir: Node, name: Name): Result<string, Errno> {
    if m.fault.Some? then Err(m.fault.value)
    else if !IsDir(m.fs, dir) || name !in m.fs.objects[dir].entries then Err(ENOENT)
    else if !IsLink(m.fs, m.fs.objects[dir].entries[name]) then Err(EINVAL)
    else Ok(m.fs.objects[m.fs.objects[dir].entries[name]].target)
  }

  // ----- Authorized roots -----

  /** An opened directory and the absolute path it was granted by. */
  datatype Root = Root(directory: Node, absolute: string)

  predicate Covers(root: Root, components: seq<Name>) {
    Components(root.absolute) <= components
  }

  /** The deepest root covering the path among the first `count`, the first of them if several. */
  function BestRoot(roots: seq<Root>, components: seq<Name>, count: nat): (best: Option<nat>)
    requires count <= |roots|
    ensures best.Some? ==> best.value < count && Covers(roots[best.value], components)
  {
    if count == 0 then None
    else
      var best := BestRoot(roots, components, count - 1);
      if Covers(roots[count - 1], components)
         && (best.None? || |Components(roots[count - 1].absolute)| > |Components(roots[best.value].absolute)|)
      then Some(count - 1)
      else best
  }

  /** The match is a longest one, and there is none only if no root covers the path. */
  lemma {:induction false} BestRootIsLongest(roots: seq<Root>, components: seq<Name>, count: nat, i: nat)
    requires i < count <= |roots| && Covers(roots[i], components)
    ensures var best := BestRoot(roots, components, count);
            && best.Some? && best.value < count
            && |Components(roots[i].absolute)| <= |Components(roots[best.value].absolute)|
            && (|Components(roots[i].absolute)| == |Components(roots[best.value].absolute)| ==> best.value <= i)
  {
    if i < count - 1 {
      BestRootIsLongest(roots, components, count - 1, i);
    } else if BestRoot(roots, components, count - 1).Some? {
      var best := BestRoot(roots, components, count - 1).value;
      BestRootIsLongest(roots, components, count - 1, best);
    }
  }

  datatype Located = Located(index: nat, rest: seq<Name>)

  method Locate(roots: seq<Root>, absolute: string) returns (found: Option<Located>)
    ensures found == LocateIn(roots, absolute)
  {
    var components := Components(absolute);
    var best: Option<nat> := None;
    for index := 0 to |roots|
      invariant best == BestRoot(roots, components, index)
    {
      if Components(roots[index].absolute) <= components {
        var depth := |Components(roots[index].absolute)|;
        if best.None? || depth > |Components(roots[best.value].absolute)| {
          best := Some(index);
        }
      }
    }
    if best.None? {
      return None;
    }
    found := Some(Located(best.value, components[|Components(roots[best.value].absolute)|..]));
  }

  function LocateIn(roots: seq<Root>, absolute: string): (found: Option<Located>)
    ensures found.Some? ==> found.value.index < |roots|
  {
    var components := Components(absolute);
    var best := BestRoot(roots, components, |roots|);
    if best.None? then None
    else Some(Located(best.value, components[|Components(roots[best.value].absolute)|..]))
  }

  /** A located path is its root's path and the rest. */
  lemma LocatedSplits(roots: seq<Root>, absolute: string)
    requires LocateIn(roots, absolute).Some?
    ensures var found := LocateIn(roots, absolute).value;
            Components(roots[found.index].absolute) + found.rest == Components(absolute)
  {}

  // ----- The walk as a function -----

  datatype Want = WantFile | WantDirectory

  predicate Acceptable(want: Want, kind: FileKind) {
    match want
    case WantFile => kind.RegularFile?
    case WantDirectory => kind.Directory?
  }

  /** The object opened, and the path that reports it, as components. */
  datatype Resolved = Resolved(node: Node, kind: FileKind, absolute: seq<Name>)

  /** `time` counts the system calls made. */
  datatype WalkValue = WalkValue(root: nat, stack: seq<Node>, names: seq<Name>, hops: nat, steps: nat, time: nat)

  predicate Shaped(roots: seq<Root>, w: WalkValue) {
    w.root < |roots| && |w.stack| == |w.names| + 1 && w.steps <= MAX_RESOLUTION_STEPS
  }

  function Top(w: WalkValue): Node
    requires |w.stack| > 0
  {
    w.stack[|w.stack| - 1]
  }

  function Pop(w: WalkValue): WalkValue
    requires |w.stack| == |w.names| + 1 && |w.names| > 0
  {
    w.(stack := w.stack[..|w.stack| - 1], names := w.names[..|w.names| - 1])
  }

  datatype Followed = Followed(walk: WalkValue, names: seq<Name>)

  /** `follow`: read the link, and either stay here or start again at the root its target lies under. */
  function Follow(env: Environment, roots: seq<Root>, w: WalkValue, name: Name): (r: Result<Followed, ReadError>)
    requires Shaped(roots, w)
    ensures r.Ok? ==> Shaped(roots, r.value.walk) && r.value.walk.steps == w.steps
  {
    if w.hops + 1 > MAX_SYMLINK_HOPS then Err(SymlinkLoop)
    else
      var target := ReadLinkAt(env(w.time), Top(w), name);
      var after := w.(hops := w.hops + 1, time := w.time + 1);
      if target.Err? then Err(if target.error.EINVAL? then Io else MapErrno(target.error))
      else if |target.value| > MAX_LINK_TARGET_BYTES then Err(LinkTargetTooLong)
      else if !Absolute(target.value) then Ok(Followed(after, Components(target.value)))
      else
        var found := LocateIn(roots, target.value);
        if found.None? then Err(EscapesAuthorizedRoots)
        else
          var index := found.value.index;
          Ok(Followed(after.(root := index, stack := [roots[index].directory], names := []), found.value.rest))
  }

  /** One openable name: open it, or confirm that it is a link. */
  datatype Tried = Got(node: Node, kind: FileKind) | IsALink | Refused(errno: Errno)

  function Try(env: Environment, w: WalkValue, name: Name, last: bool): Tried
    requires |w.stack| > 0
  {
    var handle := OpenAt(env(w.time), Top(w), name, !last);
    if handle.Descriptor? then Got(handle.node, handle.kind)
    else if (handle.errno.ELOOP? || handle.errno.EMLINK? || handle.errno.ENOTDIR?)
            && LinkAt(env(w.time + 1), Top(w), name) then IsALink
    else Refused(handle.errno)
  }

  function RefusalOf(w: WalkValue, existing: bool, errno: Errno): ReadError {
    if errno.ENOENT? && w.hops > 0 && existing then InvalidRelativePath else MapErrno(errno)
  }

  function Push(w: WalkValue, name: Name, node: Node): WalkValue {
    w.(stack := w.stack + [node], names := w.names + [name], time := w.time + 1)
  }

  datatype Progress = Going(walk: WalkValue, queue: seq<Name>) | Done(result: Result<Resolved, ReadError>)

  /** One name other than a dot: open it, or expand it in front of the rest. */
  function NameStep(env: Environment, roots: seq<Root>, existing: bool, w: WalkValue, name: Name, rest: seq<Name>,
                    want: Want): (p: Progress)
    requires Shaped(roots, w)
    ensures p.Going? ==> Shaped(roots, p.walk) && p.walk.steps == w.steps
  {
    match Try(env, w, name, rest == [])
    case Refused(errno) => Done(Err(RefusalOf(w, existing, errno)))
    case Got(node, kind) =>
      if rest != [] then Going(Push(w, name, node), rest)
      else if !Acceptable(want, kind) then Done(Err(NotRegularFile(kind)))
      else Done(Ok(Resolved(node, kind, Components(roots[w.root].absolute) + w.names + [name])))
    case IsALink =>
      var followed := Follow(env, roots, w.(time := w.time + 2), name);
      if followed.Err? then Done(Err(followed.error))
      else Going(followed.value.walk, followed.value.names + rest)
  }

  /** One turn of the loop. `existing` is `require_existing_link_targets`. */
  function WalkStep(env: Environment, roots: seq<Root>, existing: bool, w: WalkValue, queue: seq<Name>, want: Want)
    : (p: Progress)
    requires Shaped(roots, w) && queue != []
    ensures p.Going? ==> Shaped(roots, p.walk) && p.walk.steps == w.steps + 1
  {
    if w.steps == MAX_RESOLUTION_STEPS then Done(Err(TooManyComponents))
    else
      var name, rest, w := queue[0], queue[1..], w.(steps := w.steps + 1);
      if name == "." then Going(w, rest)
      else if name == ".." then
        if w.names == [] then Done(Err(EscapesAuthorizedRoots)) else Going(Pop(w), rest)
      else NameStep(env, roots, existing, w, name, rest, want)
  }

  /** What a turn is, for a name that is no dot, and for the dots. */
  lemma TurnIsNameStep(env: Environment, roots: seq<Root>, existing: bool, w: WalkValue, queue: seq<Name>, want: Want)
    requires Shaped(roots, w) && queue != [] && w.steps < MAX_RESOLUTION_STEPS
    requires queue[0] != "." && queue[0] != ".."
    ensures WalkStep(env, roots, existing, w, queue, want)
         == NameStep(env, roots, existing, w.(steps := w.steps + 1), queue[0], queue[1..], want)
  {}

  /** The whole walk from `w` over `queue`. */
  function WalkFrom(env: Environment, roots: seq<Root>, existing: bool, w: WalkValue, queue: seq<Name>, want: Want)
    : Result<Resolved, ReadError>
    requires Shaped(roots, w)
    decreases MAX_RESOLUTION_STEPS - w.steps
  {
    if queue == [] then Err(InvalidRelativePath)
    else
      match WalkStep(env, roots, existing, w, queue, want)
      case Done(result) => result
      case Going(w', queue') => WalkFrom(env, roots, existing, w', queue', want)
  }

  // ----- The walk as the program makes it -----

  class Walk {
    const env: Environment
    const roots: seq<Root>
    const requireExistingLinkTargets: bool
    var root: nat
    var stack: seq<Node>
    var names: seq<Name>
    var hops: nat
    var steps: nat
    var time: nat

    function Value(): WalkValue
      reads this
    {
      WalkValue(root, stack, names, hops, steps, time)
    }

    constructor (env: Environment, roots: seq<Root>, root: nat, existing: bool, time: nat)
      requires root < |roots|
      ensures Value() == WalkValue(root, [roots[root].directory], [], 0, 0, time)
      ensures this.env == env && this.roots == roots && requireExistingLinkTargets == existing
    {
      this.env, this.roots, this.requireExistingLinkTargets := env, roots, existing;
      this.root, this.stack, this.names := root, [roots[root].directory], [];
      this.hops, this.steps, this.time := 0, 0, time;
    }

    method FollowLink(name: Name) returns (r: Result<seq<Name>, ReadError>)
      requires Shaped(roots, Value())
      modifies this
      ensures match Follow(env, roots, old(Value()), name)
              case Err(e) => r == Err(e)
              case Ok(f) => r == Ok(f.names) && Value() == f.walk
    {
      hops := hops + 1;
      if hops > MAX_SYMLINK_HOPS {
        return Err(SymlinkLoop);
      }
      var target := ReadLinkAt(env(time), stack[|stack| - 1], name);
      time := time + 1;
      if target.Err? {
        return Err(if target.error.EINVAL? then Io else MapErrno(target.error));
      }
      if |target.value| > MAX_LINK_TARGET_BYTES {
        return Err(LinkTargetTooLong);
      }
      if !Absolute(target.value) {
        return Ok(Components(target.value));
      }
      var found := Locate(roots, target.value);
      if found.None? {
        return Err(EscapesAuthorizedRoots);
      }
      root := found.value.index;
      stack := [roots[root].directory];
      names := [];
      r := Ok(found.value.rest);
    }

    /** Tries one name: `openat`, and `fstatat` where the error may mean a link. */
    method TryOpen(name: Name, last: bool) returns (tried: Tried)
      requires |stack| > 0
      ensures tried == Try(env, Value(), name, last)
    {
      assert stack[|stack| - 1] == Top(Value());
      var handle := OpenAt(env(time), stack[|stack| - 1], name, !last);
      if handle.Descriptor? {
        return Got(handle.node, handle.kind);
      }
      var errno := handle.errno;
      var isLink := (errno.ELOOP? || errno.EMLINK? || errno.ENOTDIR?)
        && LinkAt(env(time + 1), stack[|stack| - 1], name);
      tried := if isLink then IsALink else Refused(errno);
    }

    /** Reads a link and puts its target in front of the rest. */
    method Expand(name: Name, rest: seq<Name>) returns (p: Progress)
      requires Shaped(roots, Value())
      modifies this
      ensures match Follow(env, roots, old(Value()), name)
              case Err(e) => p == Done(Err(e))
              case Ok(f) => p == Going(f.walk, f.names + rest) && Value() == f.walk
    {
      var target := FollowLink(name);
      if target.Err? {
        return Done(Err(target.error));
      }
      p := Going(Value(), target.value + rest);
    }

    method Enter(name: Name, node: Node)
      modifies this
      ensures Value() == Push(old(Value()), name, node)
    {
      stack := stack + [node];
      names := names + [name];
      time := time + 1;
    }

    /** Opens one name, or expands it: what is left to walk, or the walk's answer. */
    method OpenOrFollow(name: Name, rest: seq<Name>, want: Want) returns (p: Progress)
      requires Shaped(roots, Value())
      modifies this
      ensures p == NameStep(env, roots, requireExistingLinkTargets, old(Value()), name, rest, want)
      ensures p.Going? ==> Value() == p.walk
    {
      var tried := TryOpen(name, rest == []);
      match tried {
        case Refused(errno) =>
          p := Done(Err(
            if errno.ENOENT? && hops > 0 && requireExistingLinkTargets then InvalidRelativePath else MapErrno(errno)));
        case Got(node, kind) =>
          if rest != [] {
            Enter(name, node);
            p := Going(Value(), rest);
          } else if !Acceptable(want, kind) {
            p := Done(Err(NotRegularFile(kind)));
          } else {
            p := Done(Ok(Resolved(node, kind, Components(roots[root].absolute) + names + [name])));
          }
        case IsALink =>
          time := time + 2;
          p := Expand(name, rest);
      }
    }

    /** One turn of the loop below. */
    method Turn(queue: seq<Name>, want: Want) returns (p: Progress)
      requires Shaped(roots, Value()) && queue != []
      modifies this
      ensures p == WalkStep(env, roots, requireExistingLinkTargets, old(Value()), queue, want)
      ensures p.Going? ==> Value() == p.walk
    {
      var name, rest := queue[0], queue[1..];
      if steps + 1 > MAX_RESOLUTION_STEPS {
        return Done(Err(TooManyComponents));
      }
      steps := steps + 1;
      if name == "." {
        p := Going(Value(), rest);
      } else if name == ".." {
        if names == [] {
          return Done(Err(EscapesAuthorizedRoots));
        }
        names := names[..|names| - 1];
        stack := stack[..|stack| - 1];
        p := Going(Value(), rest);
      } else {
        p := OpenOrFollow(name, rest, want);
      }
    }

    method Resolve(components: seq<Name>, want: Want) returns (r: Result<Resolved, ReadError>)
      requires Shaped(roots, Value())
      modifies this
      ensures r == WalkFrom(env, roots, requireExistingLinkTargets, old(Value()), components, want)
    {
      var queue := components;
      while queue != []
        invariant Shaped(roots, Value())
        invariant WalkFrom(env, roots, requireExistingLinkTargets, Value(), queue, want)
               == WalkFrom(env, roots, requireExistingLinkTargets, old(Value()), components, want)
        decreases MAX_RESOLUTION_STEPS - steps
      {
        var p := Turn(queue, want);
        if p.Done? {
          return p.result;
        }
        queue := p.queue;
      }
      r := Err(InvalidRelativePath);
    }
  }
}
