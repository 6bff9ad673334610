/**
 Filesystems, pathname spellings, and ordinary recursive pathname resolution
 (section 4.13, Pathname Resolution, of the Base Definitions volume of
 IEEE Std 1003.1-2017), the meaning the authorized walk is compared with.
 */
module Paths {

  type Node = nat
  type Name = string

  datatype Object =
    | Dir(entries: map<Name, Node>, parent: Node)
    | Regular
    | Link(target: string)
    | Other

  datatype Filesystem = Filesystem(root: Node, objects: map<Node, Object>)

  predicate IsDir(fs: Filesystem, node: Node) {
    node in fs.objects && fs.objects[node].Dir?
  }

  predicate IsLink(fs: Filesystem, node: Node) {
    node in fs.objects && fs.objects[node].Link?
  }

  /** `node` is what `name` means in directory `dir`. */
  predicate Entry(fs: Filesystem, dir: Node, name: Name, node: Node) {
    IsDir(fs, dir) && name in fs.objects[dir].entries && fs.objects[dir].entries[name] == node
  }

  /** Every entry names an object, and a directory's parent is the one directory that lists it. */
  ghost predicate Tree(fs: Filesystem) {
    forall dir, name, node :: Entry(fs, dir, name, node) ==>
      node in fs.objects && (IsDir(fs, node) ==> fs.objects[node].parent == dir)
  }

  // ----- Spellings -----

  function Piece(text: string): seq<Name> {
    if text == "" then [] else [text]
  }

  /** The pieces between slashes; empty pieces vanish. `head` is the piece being read. */
  function Split(path: string, head: string): seq<Name>
    decreases |path|
  {
    if path == "" then Piece(head)
    else if path[0] == '/' then Piece(head) + Split(path[1..], "")
    else Split(path[1..], head + [path[0]])
  }

  predicate Absolute(path: string) {
    path != "" && path[0] == '/'
  }

  /** The pathname as the standard reads it: a trailing slash stands for one more dot. */
  function Segments(path: string): seq<Name> {
    Split(path, "") + if path != "" && path[|path| - 1] == '/' then ["."] else []
  }

  function DropDots(segments: seq<Name>): seq<Name> {
    if segments == [] then []
    else if segments[0] == "." then DropDots(segments[1..])
    else [segments[0]] + DropDots(segments[1..])
  }

  /** The pathname as the standard library's components: dots and a trailing slash vanish. */
  function Components(path: string): seq<Name> {
    DropDots(Segments(path))
  }

  /** An absolute pathname is one that begins with a slash. */
  lemma AbsoluteBeginsWithSlash(rest: string, path: string)
    ensures Absolute("/" + rest)
    ensures Absolute(path) ==> path == "/" + path[1..]
  {}

  lemma {:induction false} SplitAtSlash(a: string, b: string, head: string)
    ensures Split(a + "/" + b, head) == Split(a, head) + Split(b, "")
    decreases |a|
  {
    var path := a + "/" + b;
    if a == "" {
      assert path[0] == '/' && path[1..] == b;
    } else {
      assert path[0] == a[0] && path[1..] == a[1..] + "/" + b;
      if a[0] == '/' {
        SplitAtSlash(a[1..], b, "");
      } else {
        SplitAtSlash(a[1..], b, head + [a[0]]);
      }
    }
  }

  predicate PlainName(name: Name) {
    name != "" && '/' !in name
  }

  lemma {:induction false} SplitName(name: Name, head: string)
    requires '/' !in name
    ensures Split(name, head) == Piece(head + name)
    decreases |name|
  {
    if name == "" {
      assert head + name == head;
    } else {
      SplitName(name[1..], head + [name[0]]);
      assert head + [name[0]] + name[1..] == head + name;
    }
  }

  /** A pathname that spells these names. */
  function Spell(names: seq<Name>): string {
    if names == [] then "" else "/" + names[0] + Spell(names[1..])
  }

  /** A pathname is read as the names it spells. */
  lemma {:induction false} SpelledNamesAreRead(names: seq<Name>)
    requires forall i :: 0 <= i < |names| ==> PlainName(names[i])
    ensures Split(Spell(names), "") == names
    decreases |names|
  {
    if names != [] {
      var tail := Spell(names[1..]);
      SpelledNamesAreRead(names[1..]);
      SplitAtSlash("", names[0] + tail, "");
      assert "" + "/" + (names[0] + tail) == Spell(names);
      SplitBeforeSlash(names[0], tail);
    }
  }

  lemma SplitBeforeSlash(name: Name, tail: string)
    requires PlainName(name) && (tail == "" || tail[0] == '/')
    ensures Split(name + tail, "") == [name] + Split(tail, "")
  {
    SplitName(name, "");
    assert "" + name == name;
    if tail == "" {
      assert name + tail == name;
    } else {
      SplitAtSlash(name, tail[1..], "");
      assert name + "/" + tail[1..] == name + tail;
    }
  }

  /** A slash more changes nothing inside a pathname; at its end it stands for a dot. */
  lemma SlashesMerge(a: string, b: string)
    ensures Split(a + "/" + "/" + b, "") == Split(a + "/" + b, "")
    ensures Segments(a + "/") == Split(a, "") + ["."]
  {
    SplitAtSlash(a, b, "");
    SplitAtSlash(a + "/", b, "");
    SplitAtSlash(a, "", "");
    assert a + "/" + "" == a + "/";
  }

  /** Only dots vanish from a pathname's components, and nothing changes places. */
  lemma {:induction false} OnlyDotsVanish(a: seq<Name>, name: Name, b: seq<Name>)
    ensures DropDots(a + [name] + b) == DropDots(a) + (if name == "." then [] else [name]) + DropDots(b)
    decreases |a|
  {
    var all := a + [name] + b;
    if a == [] {
      assert all[0] == name && all[1..] == b;
    } else {
      assert all[0] == a[0] && all[1..] == a[1..] + [name] + b;
      OnlyDotsVanish(a[1..], name, b);
    }
  }

  // ----- Resolution -----

  datatype Failure = NoEntry | NotDirectory

  datatype Outcome = Found(node: Node) | Failed(why: Failure) | Unfinished

  /** The spelling of a link's target that a reading goes by. */
  function Spelling(strict: bool, target: string): seq<Name> {
    if strict then Segments(target) else Components(target)
  }

  function Start(fs: Filesystem, dir: Node, target: string): Node {
    if Absolute(target) then fs.root else dir
  }

  /**
   Resolution from directory `dir`, with at most `links` links inside one another.
   A link is resolved as a pathname of its own; what follows it starts from there.
   `strict` reads link targets as the standard does; otherwise by their components.
   */
  function Resolve(fs: Filesystem, strict: bool, dir: Node, segments: seq<Name>, links: nat): Outcome
    decreases links, |segments|
  {
    if !IsDir(fs, dir) then Failed(NotDirectory)
    else if segments == [] then Found(dir)
    else
      var name, rest := segments[0], segments[1..];
      if name == "." then Resolve(fs, strict, dir, rest, links)
      else if name == ".." then Resolve(fs, strict, fs.objects[dir].parent, rest, links)
      else if name !in fs.objects[dir].entries then Failed(NoEntry)
      else
        var node := fs.objects[dir].entries[name];
        if IsLink(fs, node) then
          if links == 0 then Unfinished
          else
            var target := fs.objects[node].target;
            var inner := Resolve(fs, strict, Start(fs, dir, target), Spelling(strict, target), links - 1);
            if inner.Found? && rest != [] then Resolve(fs, strict, inner.node, rest, links) else inner
        else if rest == [] then Found(node)
        else Resolve(fs, strict, node, rest, links)
  }

  /** More links allowed change no finished resolution. */
  lemma {:induction false} ResolveMonotone(fs: Filesystem, strict: bool, dir: Node, segments: seq<Name>, links: nat,
                                           more: nat)
    requires links <= more && !Resolve(fs, strict, dir, segments, links).Unfinished?
    ensures Resolve(fs, strict, dir, segments, more) == Resolve(fs, strict, dir, segments, links)
    decreases links, |segments|
  {
    if IsDir(fs, dir) && segments != [] {
      var name, rest := segments[0], segments[1..];
      if name == "." {
        ResolveMonotone(fs, strict, dir, rest, links, more);
      } else if name == ".." {
        ResolveMonotone(fs, strict, fs.objects[dir].parent, rest, links, more);
      } else if name in fs.objects[dir].entries {
        var node := fs.objects[dir].entries[name];
        if !IsLink(fs, node) {
          if rest != [] {
            ResolveMonotone(fs, strict, node, rest, links, more);
          }
        } else {
          var target := fs.objects[node].target;
          var start, spelled := Start(fs, dir, target), Spelling(strict, target);
          ResolveMonotone(fs, strict, start, spelled, links - 1, more - 1);
          var inner := Resolve(fs, strict, start, spelled, links - 1);
          if inner.Found? && rest != [] {
            ResolveMonotone(fs, strict, inner.node, rest, links, more);
          }
        }
      }
    }
  }

  /** A pathname in two parts: the first is resolved, and the second from what it names. */
  lemma {:induction false} ResolveAppend(fs: Filesystem, strict: bool, dir: Node, a: seq<Name>, b: seq<Name>,
                                         links: nat)
    requires b != []
    ensures var first := Resolve(fs, strict, dir, a, links);
            Resolve(fs, strict, dir, a + b, links) ==
            (if first.Found? then Resolve(fs, strict, first.node, b, links) else first)
    decreases |a|
  {
    if a == [] {
      assert a + b == b;
    } else if IsDir(fs, dir) {
      var name, rest := a[0], a[1..];
      assert (a + b)[0] == name && (a + b)[1..] == rest + b;
      if name == "." {
        ResolveAppend(fs, strict, dir, rest, b, links);
      } else if name == ".." {
        ResolveAppend(fs, strict, fs.objects[dir].parent, rest, b, links);
      } else if name in fs.objects[dir].entries {
        var node := fs.objects[dir].entries[name];
        if rest == [] {
          assert rest + b == b;
        } else if !IsLink(fs, node) {
          ResolveAppend(fs, strict, node, rest, b, links);
        } else if links > 0 {
          var target := fs.objects[node].target;
          var inner := Resolve(fs, strict, Start(fs, dir, target), Spelling(strict, target), links - 1);
          if inner.Found? {
            ResolveAppend(fs, strict, inner.node, rest, b, links);
          }
        }
      }
    }
  }

  // ----- Reading by components against reading by the standard -----

  /** Nothing but dots follows, so the last name must be a directory. */
  predicate OnlyDots(segments: seq<Name>) {
    segments != [] && DropDots(segments) == []
  }

  /**
   The spelling demands a directory at the end: dots or a slash close the path, or
   close the target of the link its last name is.
   */
  predicate DemandsDirectory(fs: Filesystem, dir: Node, segments: seq<Name>, links: nat)
    decreases links, |segments|
  {
    if !IsDir(fs, dir) || segments == [] then false
    else
      var name, rest := segments[0], segments[1..];
      if name == "." then DemandsDirectory(fs, dir, rest, links)
      else if name == ".." then DemandsDirectory(fs, fs.objects[dir].parent, rest, links)
      else if name !in fs.objects[dir].entries then false
      else if OnlyDots(rest) then true
      else
        var node := fs.objects[dir].entries[name];
        if !IsLink(fs, node) then DemandsDirectory(fs, node, rest, links)
        else if links == 0 then false
        else
          var target := fs.objects[node].target;
          if rest == [] then DemandsDirectory(fs, Start(fs, dir, target), Segments(target), links - 1)
          else
            var inner := Resolve(fs, true, Start(fs, dir, target), Segments(target), links - 1);
            inner.Found? && DemandsDirectory(fs, inner.node, rest, links)
  }

  lemma {:induction false} DotsStay(fs: Filesystem, strict: bool, dir: Node, segments: seq<Name>, links: nat)
    requires OnlyDots(segments)
    ensures Resolve(fs, strict, dir, segments, links) == if IsDir(fs, dir) then Found(dir) else Failed(NotDirectory)
    decreases |segments|
  {
    if segments[0] == "." && segments[1..] != [] {
      DotsStay(fs, strict, dir, segments[1..], links);
    }
  }

  /** What reading by components found, and what the standard then says. */
  ghost predicate Matches(fs: Filesystem, demands: bool, byComponents: Outcome, byStandard: Outcome) {
    && (byStandard.Found? ==> byComponents == byStandard)
    && (byComponents.Found? ==>
          byStandard == if IsDir(fs, byComponents.node) || !demands then byComponents else Failed(NotDirectory))
  }

  /**
   Reading by components resolves whatever the standard resolves, to the same
   object; and an object it finds is the standard's too, except that a spelling that
   demands a directory fails there on anything else.
   */
  lemma {:induction false} ComponentsAgainstStandard(fs: Filesystem, dir: Node, segments: seq<Name>, links: nat)
    ensures Matches(fs, DemandsDirectory(fs, dir, segments, links),
                    Resolve(fs, false, dir, DropDots(segments), links), Resolve(fs, true, dir, segments, links))
    decreases links, |segments|
  {
    if IsDir(fs, dir) && segments != [] {
      var name, rest := segments[0], segments[1..];
      if name == "." {
        ComponentsAgainstStandard(fs, dir, rest, links);
      } else if name == ".." {
        assert DropDots(segments)[1..] == DropDots(rest);
        ComponentsAgainstStandard(fs, fs.objects[dir].parent, rest, links);
      } else if name in fs.objects[dir].entries {
        assert DropDots(segments)[1..] == DropDots(rest);
        if IsLink(fs, fs.objects[dir].entries[name]) {
          if links > 0 {
            LinkAgainstStandard(fs, dir, segments, links);
          }
        } else {
          NameAgainstStandard(fs, dir, segments, links);
        }
      }
    }
  }

  lemma {:induction false} NameAgainstStandard(fs: Filesystem, dir: Node, segments: seq<Name>, links: nat)
    requires IsDir(fs, dir) && segments != [] && segments[0] != "." && segments[0] != ".."
    requires segments[0] in fs.objects[dir].entries && !IsLink(fs, fs.objects[dir].entries[segments[0]])
    ensures Matches(fs, DemandsDirectory(fs, dir, segments, links),
                    Resolve(fs, false, dir, DropDots(segments), links), Resolve(fs, true, dir, segments, links))
    decreases links, |segments|, 0
  {
    var rest, node := segments[1..], fs.objects[dir].entries[segments[0]];
    assert DropDots(segments)[1..] == DropDots(rest);
    if OnlyDots(rest) {
      DotsStay(fs, true, node, rest, links);
    } else if rest != [] {
      ComponentsAgainstStandard(fs, node, rest, links);
    }
  }

  lemma {:induction false} LinkAgainstStandard(fs: Filesystem, dir: Node, segments: seq<Name>, links: nat)
    requires IsDir(fs, dir) && segments != [] && segments[0] != "." && segments[0] != ".." && links > 0
    requires segments[0] in fs.objects[dir].entries && IsLink(fs, fs.objects[dir].entries[segments[0]])
    ensures Matches(fs, DemandsDirectory(fs, dir, segments, links),
                    Resolve(fs, false, dir, DropDots(segments), links), Resolve(fs, true, dir, segments, links))
    decreases links, |segments|, 0
  {
    var rest, node := segments[1..], fs.objects[dir].entries[segments[0]];
    var target := fs.objects[node].target;
    var start := Start(fs, dir, target);
    assert DropDots(segments)[1..] == DropDots(rest);
    ComponentsAgainstStandard(fs, start, Segments(target), links - 1);
    var byStandard := Resolve(fs, true, start, Segments(target), links - 1);
    if byStandard.Found? {
      if OnlyDots(rest) {
        DotsStay(fs, true, byStandard.node, rest, links);
      } else if rest != [] {
        ComponentsAgainstStandard(fs, byStandard.node, rest, links);
      }
    }
  }
}
