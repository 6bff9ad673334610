/** Requests by relative and by absolute path, and what their answers mean. */
module WalkRequests {
  import opened Basics
  import opened Paths
  import opened AuthorizedRead
  import opened WalkContainment
  import opened WalkRefinement

  // ----- The requests -----

  /** `split_components`: dots go; a parent or an absolute path is no valid request. */
  function SplitComponents(path: string): Result<seq<Name>, ReadError> {
    if Absolute(path) || ".." in Segments(path) then Err(InvalidRelativePath) else Ok(Components(path))
  }

  method Collect(path: string) returns (r: Result<seq<Name>, ReadError>)
    ensures r == SplitComponents(path)
  {
    if Absolute(path) {
      return Err(InvalidRelativePath);
    }
    var segments, components := Segments(path), [];
    for i := 0 to |segments|
      invariant components + DropDots(segments[i..]) == DropDots(segments)
      invariant ".." !in segments[..i]
    {
      if segments[i] == ".." {
        return Err(InvalidRelativePath);
      }
      if segments[i] != "." {
        components := components + [segments[i]];
      }
    }
    assert segments[..|segments|] == segments && segments[|segments|..] == [];
    assert components + [] == components;
    r := Ok(components);
  }

  function Fresh(roots: seq<Root>, index: nat): WalkValue
    requires index < |roots|
  {
    WalkValue(index, [roots[index].directory], [], 0, 0, 0)
  }

  /** The root's own directory, under its own path. */
  function RootItself(root: Root): Resolved {
    Resolved(root.directory, Directory, Components(root.absolute))
  }

  function OpenRelative(env: Environment, roots: seq<Root>, index: nat, relative: string, want: Want)
    : Result<Resolved, ReadError>
  {
    var components := SplitComponents(relative);
    if components.Err? then Err(components.error)
    else if components.value == [] && want.WantFile? then Err(InvalidRelativePath)
    else if index >= |roots| then Err(RootUnavailable)
    else if components.value == [] then Ok(RootItself(roots[index]))
    else WalkFrom(env, roots, false, Fresh(roots, index), components.value, want)
  }

  function OpenAbsolute(env: Environment, roots: seq<Root>, absolute: string, existing: bool)
    : Result<Resolved, ReadError>
  {
    if !Absolute(absolute) then Err(InvalidRelativePath)
    else
      var found := LocateIn(roots, absolute);
      if found.None? then Err(EscapesAuthorizedRoots)
      else if found.value.rest == [] then Err(NotRegularFile(Directory))
      else WalkFrom(env, roots, existing, Fresh(roots, found.value.index), found.value.rest, WantFile)
  }

  /**
   The open behind `read_bounded`, which wants a file, and `open_workspace_relative`,
   which wants a directory below its one root and takes an empty path for the root itself.
   */
  method ReadRelative(env: Environment, roots: seq<Root>, index: nat, relative: string, want: Want)
    returns (r: Result<Resolved, ReadError>)
    ensures r == OpenRelative(env, roots, index, relative, want)
  {
    var components := Collect(relative);
    if components.Err? {
      return Err(components.error);
    }
    if components.value == [] && want.WantFile? {
      return Err(InvalidRelativePath);
    }
    if index >= |roots| {
      return Err(RootUnavailable);
    }
    if components.value == [] {
      return Ok(RootItself(roots[index]));
    }
    var walk := new Walk(env, roots, index, false, 0);
    r := walk.Resolve(components.value, want);
  }

  /** The open behind `read_absolute` and `open_absolute_file`. */
  method ReadAbsolute(env: Environment, roots: seq<Root>, absolute: string, existing: bool)
    returns (r: Result<Resolved, ReadError>)
    ensures r == OpenAbsolute(env, roots, absolute, existing)
  {
    if !Absolute(absolute) {
      return Err(InvalidRelativePath);
    }
    var found := Locate(roots, absolute);
    if found.None? {
      return Err(EscapesAuthorizedRoots);
    }
    if found.value.rest == [] {
      return Err(NotRegularFile(Directory));
    }
    var walk := new Walk(env, roots, found.value.index, existing, 0);
    r := walk.Resolve(found.value.rest, WantFile);
  }

  // ----- Containment of both -----

  /** A root, or reached from one by entries real when opened; nothing through a link. */
  ghost predicate Contained(env: Environment, roots: seq<Root>, want: Want, r: Resolved) {
    || (want.WantDirectory? && exists i :: 0 <= i < |roots| && r == RootItself(roots[i]))
    || (exists w, name :: Anchored(env, roots, w) && OpenedFromTop(env, roots, w, name, want, r))
  }

  /** Under any changes to the filesystem, what either request returns is contained. */
  lemma EveryAnswerIsContained(env: Environment, roots: seq<Root>, index: nat, relative: string, absolute: string,
                               want: Want, existing: bool)
    ensures var r := OpenRelative(env, roots, index, relative, want);
            r.Ok? ==> Contained(env, roots, want, r.value)
    ensures var r := OpenAbsolute(env, roots, absolute, existing);
            r.Ok? ==> Contained(env, roots, WantFile, r.value)
  {
    if OpenRelative(env, roots, index, relative, want).Ok? && Components(relative) != [] {
      var w, name := WalkIsContained(env, roots, false, Fresh(roots, index), Components(relative), want);
    }
    if OpenAbsolute(env, roots, absolute, existing).Ok? {
      var found := LocateIn(roots, absolute).value;
      var w, name := WalkIsContained(env, roots, existing, Fresh(roots, found.index), found.rest, WantFile);
    }
  }

  // ----- Meaning on a filesystem that stays -----

  lemma RootsByComponents(fs: Filesystem, roots: seq<Root>, links: nat)
    requires Named(fs, true, roots, links)
    ensures Named(fs, false, roots, links)
  {
    forall i | 0 <= i < |roots|
      ensures IsDir(fs, roots[i].directory)
      ensures Resolve(fs, false, fs.root, Spelling(false, roots[i].absolute), links) == Found(roots[i].directory)
    {
      ComponentsAgainstStandard(fs, fs.root, Segments(roots[i].absolute), links);
    }
  }

  /** The standard's resolution of this spelling is `node`, if and only if the spelling permits such an object. */
  ghost predicate NamesExactlyWhenPermitted(fs: Filesystem, dir: Node, segments: seq<Name>, links: nat, node: Node) {
    var byStandard := Resolve(fs, true, dir, segments, links);
    && (byStandard == Found(node) <==> IsDir(fs, node) || !DemandsDirectory(fs, dir, segments, links))
    && (byStandard != Found(node) ==> byStandard == Failed(NotDirectory))
  }

  /** An answer that agrees with reading by components, read by the standard. */
  lemma AnswerByStandard(fs: Filesystem, dir: Node, segments: seq<Name>, links: nat, want: Want, faultless: bool,
                         r: Result<Resolved, ReadError>)
    requires Agrees(fs, want, faultless, r, Resolve(fs, false, dir, DropDots(segments), links)) && r.Ok?
    ensures NamesExactlyWhenPermitted(fs, dir, segments, links, r.value.node)
  {
    ComponentsAgainstStandard(fs, dir, segments, links);
  }

  /** A walk from its root, whatever the value it started from is called. */
  lemma FreshWalkAgrees(env: Environment, fs: Filesystem, roots: seq<Root>, existing: bool, w: WalkValue,
                        components: seq<Name>, want: Want, links: nat)
    requires Static(env, fs) && Tree(fs) && Named(fs, true, roots, links)
    requires w.root < |roots| && w == Fresh(roots, w.root)
    ensures Agrees(fs, want, Faultless(env), WalkFrom(env, roots, existing, w, components, want),
                   Resolve(fs, false, roots[w.root].directory, components, links + MAX_SYMLINK_HOPS))
  {
    RootsByComponents(fs, roots, links);
    assert Standing(fs, roots, w);
    WalkAgrees(env, fs, roots, existing, w, components, want, links);
    assert LinksLeft(w, links) == links + MAX_SYMLINK_HOPS;
  }

  /**
   A relative request that returns an object returns the one that ordinary pathname
   resolution of the same path names, through any nested links, parents and roots;
   only a spelling that demands a directory, which the walk does not see, fails there.
   */
  lemma RelativeAnswerIsTheResolution(env: Environment, fs: Filesystem, roots: seq<Root>, index: nat, relative: string,
                                      want: Want, links: nat, r: Result<Resolved, ReadError>)
    requires Static(env, fs) && Tree(fs) && Named(fs, true, roots, links)
    requires r == OpenRelative(env, roots, index, relative, want) && r.Ok?
    ensures index < |roots|
    ensures NamesExactlyWhenPermitted(fs, roots[index].directory, Segments(relative), links + MAX_SYMLINK_HOPS,
                                      r.value.node)
  {
    if Components(relative) != [] {
      FreshWalkAgrees(env, fs, roots, false, Fresh(roots, index), Components(relative), want, links);
    }
    AnswerByStandard(fs, roots[index].directory, Segments(relative), links + MAX_SYMLINK_HOPS, want, Faultless(env), r);
  }

  /** The same of an absolute request, resolved from the filesystem's root. */
  lemma AbsoluteAnswerIsTheResolution(env: Environment, fs: Filesystem, roots: seq<Root>, absolute: string,
                                      existing: bool, links: nat, r: Result<Resolved, ReadError>)
    requires Static(env, fs) && Tree(fs) && Named(fs, true, roots, links)
    requires r == OpenAbsolute(env, roots, absolute, existing) && r.Ok?
    ensures NamesExactlyWhenPermitted(fs, fs.root, Segments(absolute), links + MAX_SYMLINK_HOPS, r.value.node)
  {
    var found := LocateIn(roots, absolute).value;
    FreshWalkAgrees(env, fs, roots, existing, Fresh(roots, found.index), found.rest, WantFile, links);
    RootsByComponents(fs, roots, links);
    LocatedSplits(roots, absolute);
    ReanchoringMeansThePath(fs, roots, found.index, found.rest, links, links + MAX_SYMLINK_HOPS);
    AnswerByStandard(fs, fs.root, Segments(absolute), links + MAX_SYMLINK_HOPS, WantFile, Faultless(env), r);
  }

  /** Where no call fails of itself, a missing file is missing for resolution by components too. */
  lemma MissingMeansMissing(env: Environment, fs: Filesystem, roots: seq<Root>, index: nat, relative: string,
                            want: Want, links: nat, r: Result<Resolved, ReadError>)
    requires Static(env, fs) && Faultless(env) && Tree(fs) && Named(fs, true, roots, links)
    requires r == OpenRelative(env, roots, index, relative, want) && r == Err(NotFound)
    ensures index < |roots|
    ensures Resolve(fs, false, roots[index].directory, Components(relative), links + MAX_SYMLINK_HOPS)
            == Failed(NoEntry)
  {
    FreshWalkAgrees(env, fs, roots, false, Fresh(roots, index), Components(relative), want, links);
  }

  // ----- The spelling the walk does not see -----

  /** One directory holding one regular file. */
  const SMALL: Filesystem := Filesystem(0, map[0 := Dir(map["f" := 1], 0), 1 := Regular])

  /** A request for `f/` reads the regular file `f`; resolution refuses the trailing slash. */
  lemma TrailingSlashIsNotSeen()
    ensures var env := (t: nat) => Moment(SMALL, None);
            var r := OpenRelative(env, [Root(0, "/")], 0, "f/", WantFile);
            && r.Ok? && r.value.node == 1
            && Resolve(SMALL, true, 0, Segments("f/"), MAX_SYMLINK_HOPS) == Failed(NotDirectory)
  {
    assert Split("f/", "") == ["f"] by {
      assert "f/"[1..] == "/" && "" + ['f'] == "f" && "/"[1..] == "";
      assert Split("/", "f") == ["f"] + Split("", "");
    }
    assert Segments("f/") == ["f", "."];
    assert ["f", "."][1..] == ["."] && ["."][1..] == [];
    assert DropDots(["."]) == [];
    assert Components("f/") == ["f"];
    assert Resolve(SMALL, true, 1, ["."], MAX_SYMLINK_HOPS) == Failed(NotDirectory);
  }

  // ----- The reported path -----

  lemma {:induction false} NamesLeadUp(fs: Filesystem, roots: seq<Root>, w: WalkValue, count: nat, links: nat)
    requires Standing(fs, roots, w) && count <= |w.names|
    ensures Resolve(fs, false, w.stack[0], w.names[..count], links) == Found(w.stack[count])
  {
    if count > 0 {
      NamesLeadUp(fs, roots, w, count - 1, links);
      var before, name := w.names[..count - 1], w.names[count - 1];
      assert w.names[..count] == before + [name];
      ResolveAppend(fs, false, w.stack[0], before, [name], links);
      assert Entry(fs, w.stack[count - 1], name, w.stack[count]);
    }
  }

  lemma RealEntry(env: Environment, fs: Filesystem, time: nat, dir: Node, name: Name, node: Node)
    requires Static(env, fs) && WasDirectoryIn(env, time, dir, name, node)
    ensures Entry(fs, dir, name, node) && IsDir(fs, node)
  {}

  lemma AnchoredStands(env: Environment, fs: Filesystem, roots: seq<Root>, w: WalkValue, links: nat)
    requires Static(env, fs) && Named(fs, true, roots, links) && Anchored(env, roots, w)
    ensures Standing(fs, roots, w)
  {
    forall i | 0 <= i < |w.names| ensures Entry(fs, w.stack[i], w.names[i], w.stack[i + 1]) {
      RealEntry(env, fs, w.time, w.stack[i], w.names[i], w.stack[i + 1]);
    }
    forall i | 0 <= i < |w.stack| ensures IsDir(fs, w.stack[i]) {
      if i > 0 {
        RealEntry(env, fs, w.time, w.stack[i - 1], w.names[i - 1], w.stack[i]);
      }
    }
  }

  lemma StackAndNameResolve(fs: Filesystem, roots: seq<Root>, w: WalkValue, name: Name, node: Node, links: nat)
    requires Standing(fs, roots, w) && name != "." && name != ".."
    requires Entry(fs, Top(w), name, node) && !IsLink(fs, node)
    ensures Resolve(fs, false, w.stack[0], w.names + [name], links) == Found(node)
  {
    NamesLeadUp(fs, roots, w, |w.names|, links);
    assert w.names[..|w.names|] == w.names;
    ResolveAppend(fs, false, w.stack[0], w.names, [name], links);
  }

  lemma OpenedPathNamesTheObject(env: Environment, fs: Filesystem, roots: seq<Root>, w: WalkValue, name: Name,
                                 want: Want, r: Resolved, links: nat)
    requires Static(env, fs) && Named(fs, true, roots, links) && Named(fs, false, roots, links)
    requires Anchored(env, roots, w) && OpenedFromTop(env, roots, w, name, want, r)
    ensures Resolve(fs, false, fs.root, r.absolute, links) == Found(r.node)
  {
    assert env(w.time).fs == fs;
    AnchoredStands(env, fs, roots, w, links);
    StackAndNameResolve(fs, roots, w, name, r.node, links);
    ReanchoringMeansThePath(fs, roots, w.root, w.names + [name], links, links);
    assert r.absolute == Components(roots[w.root].absolute) + (w.names + [name]);
  }

  /** On a filesystem that stays, the path reported with an answer names the object returned. */
  lemma ReportedPathNamesTheObject(env: Environment, fs: Filesystem, roots: seq<Root>, want: Want, r: Resolved,
                                   links: nat)
    requires Static(env, fs) && Named(fs, true, roots, links) && Contained(env, roots, want, r)
    ensures Resolve(fs, false, fs.root, r.absolute, links) == Found(r.node)
  {
    RootsByComponents(fs, roots, links);
    if i :| 0 <= i < |roots| && r == RootItself(roots[i]) {
      assert Spelling(false, roots[i].absolute) == r.absolute;
    } else {
      var w, name :| Anchored(env, roots, w) && OpenedFromTop(env, roots, w, name, want, r);
      OpenedPathNamesTheObject(env, fs, roots, w, name, want, r, links);
    }
  }
}
