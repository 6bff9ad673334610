/**
 The packages of a lock file reachable from one dependency: a worklist over
 dependency specifications, each of which must resolve to exactly one package.
 */
module LockProjection {
  import opened Basics

  /** A parsed `name [version] [(source)]`; a text that does not parse is `Malformed`. */
  datatype Spec = Spec(name: string, version: Option<string>, source: Option<string>) | Malformed

  datatype Package = Package(name: string, version: string, source: Option<string>, dependencies: seq<Spec>)

  predicate Fits(package: Package, spec: Spec) {
    && spec.Spec?
    && package.name == spec.name
    && (spec.version.None? || package.version == spec.version.value)
    && (spec.source.None? || package.source == spec.source)
  }

  /** A package's own specification fits it, in full or in part, and no other that states a field does. */
  lemma FitsByFields(package: Package, name: string, version: Option<string>, source: Option<string>)
    ensures Fits(package, Spec(package.name, None, None))
    ensures Fits(package, Spec(package.name, Some(package.version), package.source))
    ensures Fits(package, Spec(package.name, Some(package.version), None))
    ensures name != package.name ==> !Fits(package, Spec(name, version, source))
    ensures version.Some? && version.value != package.version ==> !Fits(package, Spec(name, version, source))
    ensures source.Some? && source != package.source ==> !Fits(package, Spec(name, version, source))
    ensures !Fits(package, Malformed)
  {}

  /** The one package a specification names. */
  ghost predicate Names(packages: seq<Package>, spec: Spec, i: nat) {
    i < |packages| && forall j :: 0 <= j < |packages| ==> (Fits(packages[j], spec) <==> j == i)
  }

  ghost predicate Resolvable(packages: seq<Package>, spec: Spec) {
    exists i: nat :: Names(packages, spec, i)
  }

  /** `resolve`: the indices that fit are collected; anything but one is an error. */
  method ResolveSpec(packages: seq<Package>, spec: Spec) returns (r: Option<nat>)
    ensures r.Some? <==> Resolvable(packages, spec)
    ensures r.Some? ==> Names(packages, spec, r.value)
  {
    var found: set<nat> := {};
    for i := 0 to |packages|
      invariant forall j: nat :: j in found <==> j < i && Fits(packages[j], spec)
    {
      if Fits(packages[i], spec) {
        found := found + {i};
      }
    }
    FoundDecides(packages, spec, found);
    if |found| != 1 {
      return None;
    }
    var only :| only in found;
    r := Some(only);
  }

  /** Exactly one package fits if and only if the specification names one, and it is that one. */
  lemma FoundDecides(packages: seq<Package>, spec: Spec, found: set<nat>)
    requires forall j: nat :: j in found <==> j < |packages| && Fits(packages[j], spec)
    ensures |found| == 1 <==> Resolvable(packages, spec)
    ensures |found| == 1 ==> forall i :: i in found ==> Names(packages, spec, i)
  {
    forall i | |found| == 1 && i in found ensures Names(packages, spec, i) {
      Singleton(found, i);
    }
    if |found| == 1 {
      var i :| i in found;
      assert Names(packages, spec, i);
    }
    forall i: nat | Names(packages, spec, i) ensures |found| == 1 {
      assert found == {i};
    }
  }

  lemma Singleton(found: set<nat>, only: nat)
    requires |found| == 1 && only in found
    ensures found == {only}
  {
    assert |found - {only}| == 0;
  }

  lemma NamesIsUnique(packages: seq<Package>, spec: Spec, i: nat, j: nat)
    requires Names(packages, spec, i) && Names(packages, spec, j)
    ensures i == j
  {
    assert Fits(packages[i], spec);
  }

  // ----- Reachability -----

  ghost predicate DependsOn(packages: seq<Package>, i: nat, j: nat) {
    i < |packages| && exists spec :: spec in packages[i].dependencies && Names(packages, spec, j)
  }

  /** A chain of dependencies from the package the first specification names. */
  ghost predicate Chain(packages: seq<Package>, spec: Spec, path: seq<nat>) {
    && path != []
    && Names(packages, spec, path[0])
    && forall k :: 0 < k < |path| ==> DependsOn(packages, path[k - 1], path[k])
  }

  ghost predicate Reachable(packages: seq<Package>, spec: Spec, i: nat) {
    exists path :: Chain(packages, spec, path) && path[|path| - 1] == i
  }

  /** The dependency itself, or one of a package reachable from it, does not name exactly one package. */
  ghost predicate Broken(packages: seq<Package>, dependency: Spec) {
    !Resolvable(packages, dependency)
    || exists i: nat, spec :: BrokenAt(packages, dependency, i, spec)
  }

  ghost predicate BrokenAt(packages: seq<Package>, dependency: Spec, i: nat, spec: Spec) {
    Reachable(packages, dependency, i) && i < |packages| && spec in packages[i].dependencies
    && !Resolvable(packages, spec)
  }

  lemma ReachesFirst(packages: seq<Package>, dependency: Spec, i: nat)
    requires Names(packages, dependency, i)
    ensures Reachable(packages, dependency, i)
  {
    assert Chain(packages, dependency, [i]);
  }

  lemma ReachesNext(packages: seq<Package>, dependency: Spec, i: nat, j: nat)
    requires Reachable(packages, dependency, i) && DependsOn(packages, i, j)
    ensures Reachable(packages, dependency, j)
  {
    var path :| Chain(packages, dependency, path) && path[|path| - 1] == i;
    assert Chain(packages, dependency, path + [j]);
  }

  /** A set that holds the first package and everything its members depend on holds every reachable package. */
  lemma {:induction false} ClosedHoldsChain(packages: seq<Package>, dependency: Spec, selected: set<nat>,
                                            path: seq<nat>)
    requires Chain(packages, dependency, path)
    requires forall i: nat :: Names(packages, dependency, i) ==> i in selected
    requires forall i, j: nat :: i in selected && DependsOn(packages, i, j) ==> j in selected
    ensures path[|path| - 1] in selected
    decreases |path|
  {
    if |path| > 1 {
      var init := path[..|path| - 1];
      ClosedHoldsChain(packages, dependency, selected, init);
      assert DependsOn(packages, path[|path| - 2], path[|path| - 1]);
    }
  }

  // ----- The worklist -----

  /** Everything a selected package depends on is selected or waiting. */
  ghost predicate Covered(packages: seq<Package>, selected: set<nat>, pending: seq<nat>) {
    forall i, j: nat :: i in selected && DependsOn(packages, i, j) ==> j in selected || j in pending
  }

  ghost predicate SpecsResolve(packages: seq<Package>, selected: set<nat>) {
    forall i, spec :: i in selected && i < |packages| && spec in packages[i].dependencies ==> Resolvable(packages, spec)
  }

  ghost predicate AllReachable(packages: seq<Package>, dependency: Spec, some: seq<nat>) {
    forall k :: 0 <= k < |some| ==> some[k] < |packages| && Reachable(packages, dependency, some[k])
  }

  /** The indices one package's dependencies resolve to, or none if one of them does not resolve. */
  method ResolveAll(packages: seq<Package>, dependency: Spec, index: nat) returns (r: Option<seq<nat>>)
    requires index < |packages| && Reachable(packages, dependency, index)
    ensures r.None? ==> Broken(packages, dependency)
    ensures r.Some? ==> AllReachable(packages, dependency, r.value)
    ensures r.Some? ==> forall spec :: spec in packages[index].dependencies ==> Resolvable(packages, spec)
    ensures r.Some? ==> forall j: nat :: DependsOn(packages, index, j) ==> j in r.value
  {
    var specs := packages[index].dependencies;
    var out: seq<nat> := [];
    for k := 0 to |specs|
      invariant AllReachable(packages, dependency, out)
      invariant forall l :: 0 <= l < k ==> Resolvable(packages, specs[l])
      invariant forall l, j: nat :: 0 <= l < k && Names(packages, specs[l], j) ==> j in out
    {
      var found := ResolveSpec(packages, specs[k]);
      if found.None? {
        assert BrokenAt(packages, dependency, index, specs[k]);
        return None;
      }
      assert DependsOn(packages, index, found.value);
      ReachesNext(packages, dependency, index, found.value);
      forall j: nat | Names(packages, specs[k], j) ensures j == found.value {
        NamesIsUnique(packages, specs[k], j, found.value);
      }
      out := out + [found.value];
    }
    r := Some(out);
  }

  lemma ExtendsCover(packages: seq<Package>, selected: set<nat>, pending: seq<nat>, index: nat, more: seq<nat>)
    requires Covered(packages, selected, pending + [index])
    requires forall j: nat :: DependsOn(packages, index, j) ==> j in more
    ensures Covered(packages, selected + {index}, pending + more)
  {}

  lemma Finished(packages: seq<Package>, dependency: Spec, selected: set<nat>)
    requires Covered(packages, selected, []) && SpecsResolve(packages, selected)
    requires Resolvable(packages, dependency)
    requires forall i: nat :: Names(packages, dependency, i) ==> i in selected
    requires forall i :: i in selected ==> Reachable(packages, dependency, i)
    ensures forall i: nat :: i in selected <==> Reachable(packages, dependency, i)
    ensures !Broken(packages, dependency)
  {
    forall i: nat | Reachable(packages, dependency, i) ensures i in selected {
      var path :| Chain(packages, dependency, path) && path[|path| - 1] == i;
      ClosedHoldsChain(packages, dependency, selected, path);
    }
    forall i: nat, spec ensures !BrokenAt(packages, dependency, i, spec) {
    }
  }

  ghost function Indices(count: nat): (all: set<nat>)
    ensures forall i: nat :: i in all <==> i < count
  {
    if count == 0 then {} else Indices(count - 1) + {count - 1}
  }

  /**
   `project_lock`: it always ends; it fails exactly when the dependency, or one of a
   package reachable from it, is missing or ambiguous; and otherwise it selects exactly
   the packages reachable from the dependency.
   */
  method Project(packages: seq<Package>, dependency: Spec) returns (r: Option<set<nat>>)
    ensures r.None? <==> Broken(packages, dependency)
    ensures r.Some? ==> forall i: nat :: i in r.value <==> Reachable(packages, dependency, i)
  {
    var first := ResolveSpec(packages, dependency);
    if first.None? {
      return None;
    }
    ReachesFirst(packages, dependency, first.value);
    var selected: set<nat> := {};
    var pending := [first.value];
    ghost var universe := Indices(|packages|);
    while pending != []
      invariant selected <= universe
      invariant AllReachable(packages, dependency, pending)
      invariant forall i :: i in selected ==> Reachable(packages, dependency, i)
      invariant first.value in selected || first.value in pending
      invariant Covered(packages, selected, pending) && SpecsResolve(packages, selected)
      decreases universe - selected, |pending|
    {
      var index, rest := pending[|pending| - 1], pending[..|pending| - 1];
      assert pending == rest + [index];
      if index in selected {
        pending := rest;
        assert Covered(packages, selected, pending);
      } else {
        var more := ResolveAll(packages, dependency, index);
        if more.None? {
          return None;
        }
        ExtendsCover(packages, selected, rest, index, more.value);
        selected := selected + {index};
        pending := rest + more.value;
      }
    }
    forall i: nat | Names(packages, dependency, i) ensures i in selected {
      NamesIsUnique(packages, dependency, i, first.value);
    }
    Finished(packages, dependency, selected);
    r := Some(selected);
  }
}
