/**
  Which runtime package provides a component: the planner of the command line and the creation code of the SDK
  each choose one, the first by sorting and then searching, the second by filtering and then sorting.
*/
module Packages {
  import opened Wrappers
  import opened Ordering

  datatype Architecture = X86_64 | Aarch64 | Arm | Riscv64 | X86

  datatype File = File(name: string, size: nat)

  /** `version` is the rank of the parsed semantic version, `None` when the text does not parse. */
  datatype Package = Package(id: string, version: Option<int>, architecture: Architecture, files: seq<File>)

  function Filter<T(!new)>(s: seq<T>, p: T -> bool): (r: seq<T>)
    ensures forall x :: x in r <==> x in s && p(x)
  {
    if s == [] then []
    else if p(s[0]) then [s[0]] + Filter(s[1..], p)
    else Filter(s[1..], p)
  }

  /** `iter().find`. */
  function First<T>(s: seq<T>, p: T -> bool): (r: Option<T>)
    ensures r.None? <==> forall x | x in s :: !p(x)
    ensures r.Some? ==> r.value in s && p(r.value)
  {
    if s == [] then None
    else if p(s[0]) then Some(s[0])
    else First(s[1..], p)
  }

  predicate Provides(p: Package, component: string) {
    exists i | 0 <= i < |p.files| :: p.files[i].name == component
  }

  predicate Usable(p: Package, host: Architecture) {
    p.architecture == host && p.version.Some?
  }

  function Rank(p: Package): int {
    if p.version.Some? then p.version.value else 0
  }

  /** Newest version first, then by identifier. */
  predicate Precedes(p: Package, q: Package) {
    Rank(p) > Rank(q) || (Rank(p) == Rank(q) && Less(p.id, q.id))
  }

  lemma PrecedesIsStrictWeak()
    ensures StrictWeak(Precedes)
  {
    LessIsTotal();
    assert Total(Less);
    forall x, y, z | Precedes(x, z) ensures Precedes(x, y) || Precedes(y, z) {
    }
  }

  // ---------------------------------------------------------------------------------------------------
  // The two ways to choose
  // ---------------------------------------------------------------------------------------------------

  function IsUsable(host: Architecture): Package -> bool {
    p => Usable(p, host)
  }

  function IsProvider(component: string): Package -> bool {
    p => Provides(p, component)
  }

  function IsCandidate(component: string, host: Architecture): Package -> bool {
    p => Usable(p, host) && Provides(p, component)
  }

  /** The planner: sort every usable package, then take the first that provides the component. */
  function Pick(binaries: seq<Package>, component: string, host: Architecture): Option<Package> {
    First(SortBy(Filter(binaries, IsUsable(host)), Precedes), IsProvider(component))
  }

  /** The SDK: keep the packages that provide the component, then sort them. */
  function OrderedCandidates(packages: seq<Package>, component: string, host: Architecture): seq<Package> {
    SortBy(Filter(packages, IsCandidate(component, host)), Precedes)
  }

  // ---------------------------------------------------------------------------------------------------
  // What both choose
  // ---------------------------------------------------------------------------------------------------

  /** No other candidate that satisfies `good` comes before `p`. */
  ghost predicate IsBest(p: Package, packages: seq<Package>, component: string, host: Architecture,
                         good: Package -> bool) {
    && p in packages && IsCandidate(component, host)(p) && good(p)
    && forall q | q in packages && IsCandidate(component, host)(q) && good(q) :: !Precedes(q, p)
  }

  ghost predicate DistinctIds(packages: seq<Package>) {
    forall p, q | p in packages && q in packages && p.id == q.id :: p == q
  }

  /** With distinct identifiers there is one best candidate. */
  lemma BestIsUnique(p: Package, q: Package, packages: seq<Package>, component: string, host: Architecture,
                     good: Package -> bool)
    requires DistinctIds(packages)
    requires IsBest(p, packages, component, host, good) && IsBest(q, packages, component, host, good)
    ensures p == q
  {
    LessTrichotomy(p.id, q.id);
  }

  /** No candidate that satisfies `good` has a newer version, or the same version and an earlier identifier. */
  lemma BestIsNewest(p: Package, packages: seq<Package>, component: string, host: Architecture, good: Package -> bool)
    requires IsBest(p, packages, component, host, good)
    ensures p in packages && p.architecture == host && p.version.Some? && good(p)
    ensures exists f | f in p.files :: f.name == component
    ensures forall q | q in packages && q.architecture == host && q.version.Some? && good(q)
              && (exists f | f in q.files :: f.name == component) ::
                || q.version.value < p.version.value
                || (q.version.value == p.version.value && (q.id == p.id || Less(p.id, q.id)))
  {
    var i :| 0 <= i < |p.files| && p.files[i].name == component;
    assert p.files[i] in p.files;
    forall q | q in packages && q.architecture == host && q.version.Some? && good(q)
              && (exists f | f in q.files :: f.name == component)
      ensures || q.version.value < p.version.value
              || (q.version.value == p.version.value && (q.id == p.id || Less(p.id, q.id)))
    {
      var f :| f in q.files && f.name == component;
      var j :| 0 <= j < |q.files| && q.files[j] == f;
      assert IsCandidate(component, host)(q);
      LessTrichotomy(p.id, q.id);
    }
  }

  lemma {:induction false} FirstOfSorted(s: seq<Package>, p: Package -> bool)
    requires Sorted(s, Precedes)
    ensures First(s, p).Some? ==> forall q | q in s && p(q) :: !Precedes(q, First(s, p).value)
  {
    if s != [] && !p(s[0]) {
      FirstOfSorted(s[1..], p);
    } else if s != [] {
      PrecedesIsStrictWeak();
    }
  }

  lemma SortedElements(s: seq<Package>)
    ensures Sorted(SortBy(s, Precedes), Precedes)
    ensures SameElements(SortBy(s, Precedes), s)
  {
    PrecedesIsStrictWeak();
    SortBySorts(s, Precedes);
    assert forall x :: x in SortBy(s, Precedes) <==> x in multiset(s);
  }

  function Anything(): Package -> bool {
    p => true
  }

  /** The planner's choice is the best candidate, and there is none only when there is no candidate. */
  lemma PickIsBest(binaries: seq<Package>, component: string, host: Architecture)
    ensures var r := Pick(binaries, component, host);
            if r.Some? then IsBest(r.value, binaries, component, host, Anything())
            else forall p | p in binaries :: !IsCandidate(component, host)(p)
  {
    var usable := Filter(binaries, IsUsable(host));
    SortedElements(usable);
    FirstOfSorted(SortBy(usable, Precedes), IsProvider(component));
  }

  /**
    `select_runtime_binary`: the first ordered candidate that is installed and sound, as `installed` decides by
    resolving it, checking its architecture, executable bit and version, and verifying the file.
  */
  method SelectRuntimeBinary(packages: seq<Package>, component: string, host: Architecture,
                             installed: Package -> bool)
    returns (r: Option<Package>)
    ensures r.Some? ==> IsBest(r.value, packages, component, host, installed)
    ensures r.None? ==> forall p | p in packages && IsCandidate(component, host)(p) :: !installed(p)
  {
    var candidates := OrderedCandidates(packages, component, host);
    SortedElements(Filter(packages, IsCandidate(component, host)));
    PrecedesIsStrictWeak();
    for i := 0 to |candidates|
      invariant forall j | 0 <= j < i :: !installed(candidates[j])
    {
      if installed(candidates[i]) {
        forall q | q in candidates && installed(q) ensures !Precedes(q, candidates[i]) {
          var j :| 0 <= j < |candidates| && candidates[j] == q;
          assert j >= i;
        }
        return Some(candidates[i]);
      }
    }
    return None;
  }

  /**
    The first candidate the SDK tries is the package the planner picked, whatever order each of them got the
    packages in; there is no candidate exactly when there is no pick.
  */
  lemma SameFirstChoice(binaries: seq<Package>, packages: seq<Package>, component: string, host: Architecture)
    requires SameElements(binaries, packages) && DistinctIds(packages)
    ensures var candidates := OrderedCandidates(packages, component, host);
            Pick(binaries, component, host) == if candidates == [] then None else Some(candidates[0])
  {
    var pick := Pick(binaries, component, host);
    var candidates := OrderedCandidates(packages, component, host);
    PickIsBest(binaries, component, host);
    SortedElements(Filter(packages, IsCandidate(component, host)));
    if candidates != [] {
      assert candidates[0] in candidates;
      PrecedesIsStrictWeak();
      BestIsUnique(pick.value, candidates[0], packages, component, host, Anything());
    }
  }

  /** A plan whose package installs soundly names the package that creation then uses, and no other. */
  lemma PlannedIsUsed(binaries: seq<Package>, packages: seq<Package>, component: string, host: Architecture,
                      installed: Package -> bool, used: Package)
    requires SameElements(binaries, packages) && DistinctIds(packages)
    requires Pick(binaries, component, host).Some? && installed(Pick(binaries, component, host).value)
    requires IsBest(used, packages, component, host, installed)
    ensures used == Pick(binaries, component, host).value
  {
    var pick := Pick(binaries, component, host).value;
    PickIsBest(binaries, component, host);
    BestIsUnique(pick, used, packages, component, host, installed);
  }
}
