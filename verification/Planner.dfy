/**
  The download planner: from the selected distribution images to the list of everything that has to be on disk,
  the runtime packages, then the kernels, then the images, with its exact size.
*/
module Planner {
  import opened Wrappers
  import opened Bounds
  import opened Ordering
  import opened Packages

  datatype Kernel = Kernel(id: string, architecture: Architecture, size: nat)

  datatype Image = Image(id: string, size: nat)

  datatype Distribution =
    Distribution(id: string, architecture: Architecture, defaultKernel: string, images: seq<Image>)

  datatype Catalog =
    Catalog(kernels: seq<Kernel>, binaries: seq<Package>, distributions: seq<Distribution>, host: Architecture)

  datatype Selection = Selection(distribution: string, image: Image, kernel: Kernel)

  datatype Runtime = Runtime(packages: seq<Package>, files: nat, expectedBytes: nat)

  datatype Member =
    | RuntimeBinary(package: string, bytes: nat)
    | KernelFile(kernel: string, bytes: nat)
    | DistributionImage(distribution: string, image: string, bytes: nat)

  datatype Plan = Plan(runtime: Runtime, selections: seq<Selection>, members: seq<Member>, expectedBytes: nat)

  datatype Error =
    | NothingSelected
    | NoDistribution(id: string)
    | WrongArchitecture(distribution: string)
    | NoImage(image: string, distribution: string)
    | NoKernel(distribution: string)
    | IncompatibleKernel(distribution: string)
    | NoRuntime(component: string)
    | PackageTooLarge(id: string)
    | TooManyFiles
    | TooLarge(kind: string)

  type Pair = (string, string)

  // ---------------------------------------------------------------------------------------------------
  // One selected image
  // ---------------------------------------------------------------------------------------------------

  function IsDistribution(id: string): Distribution -> bool { (d: Distribution) => d.id == id }

  function IsImage(id: string): Image -> bool { (i: Image) => i.id == id }

  function IsKernel(id: string): Kernel -> bool { (k: Kernel) => k.id == id }

  /** `default_kernel`, for a distribution already known to suit the host. */
  function DefaultKernel(c: Catalog, d: Distribution): Result<Kernel, Error> {
    var k := First(c.kernels, IsKernel(d.defaultKernel));
    if k.None? then Err(NoKernel(d.id))
    else if k.value.architecture != c.host || k.value.architecture != d.architecture then Err(IncompatibleKernel(d.id))
    else Ok(k.value)
  }

  /** What one selected pair stands for. */
  function Resolve(c: Catalog, pair: Pair): Result<Selection, Error> {
    var d := First(c.distributions, IsDistribution(pair.0));
    if d.None? then Err(NoDistribution(pair.0))
    else if d.value.architecture != c.host then Err(WrongArchitecture(pair.0))
    else
      var image := First(d.value.images, IsImage(pair.1));
      if image.None? then Err(NoImage(pair.1, pair.0))
      else match DefaultKernel(c, d.value)
        case Err(e) => Err(e)
        case Ok(kernel) => Ok(Selection(d.value.id, image.value, kernel))
  }

  function PairOf(s: Selection): Pair {
    (s.distribution, s.image.id)
  }

  /** A selection keeps the names it was selected by, and its kernel is the one its identifier finds. */
  lemma ResolveKeepsNames(c: Catalog, pair: Pair)
    requires Resolve(c, pair).Ok?
    ensures var s := Resolve(c, pair).value;
            && PairOf(s) == pair
            && First(c.kernels, IsKernel(s.kernel.id)) == Some(s.kernel)
  {
  }

  /** What loading the registry has checked: identifiers are unique in every list. */
  ghost predicate IsValid(c: Catalog) {
    && (forall d, e | d in c.distributions && e in c.distributions && d.id == e.id :: d == e)
    && (forall k, l | k in c.kernels && l in c.kernels && k.id == l.id :: k == l)
    && (forall d | d in c.distributions ::
          forall i, j | i in d.images && j in d.images && i.id == j.id :: i == j)
  }

  /** The parts that a pair names, in a catalog: a distribution for the host, its image, and its own default kernel. */
  ghost predicate Names(c: Catalog, pair: Pair, d: Distribution, image: Image, kernel: Kernel) {
    && d in c.distributions && d.id == pair.0 && d.architecture == c.host
    && image in d.images && image.id == pair.1
    && kernel in c.kernels && kernel.id == d.defaultKernel && kernel.architecture == c.host
  }

  /** A selection is made of the parts its pair names. */
  lemma SelectionIsNamed(c: Catalog, pair: Pair) returns (d: Distribution)
    requires Resolve(c, pair).Ok?
    ensures var s := Resolve(c, pair).value; s.distribution == pair.0 && Names(c, pair, d, s.image, s.kernel)
  {
    d := First(c.distributions, IsDistribution(pair.0)).value;
  }

  /** The exact reason for every answer, part by part. */
  lemma ResolveExactly(c: Catalog, pair: Pair, d: Distribution)
    requires IsValid(c) && d in c.distributions && d.id == pair.0
    ensures Resolve(c, pair) == Err(WrongArchitecture(pair.0)) <==> d.architecture != c.host
    ensures Resolve(c, pair) == Err(NoImage(pair.1, pair.0)) <==>
            d.architecture == c.host && forall i | i in d.images :: i.id != pair.1
    ensures Resolve(c, pair) == Err(NoKernel(pair.0)) <==>
            && d.architecture == c.host && (exists i | i in d.images :: i.id == pair.1)
            && forall k | k in c.kernels :: k.id != d.defaultKernel
    ensures Resolve(c, pair) == Err(IncompatibleKernel(pair.0)) <==>
            && d.architecture == c.host && (exists i | i in d.images :: i.id == pair.1)
            && exists k | k in c.kernels :: k.id == d.defaultKernel && k.architecture != c.host
    ensures Resolve(c, pair) != Err(NoDistribution(pair.0))
    ensures forall i, k | Names(c, pair, d, i, k) :: Resolve(c, pair) == Ok(Selection(pair.0, i, k))
  {
    var found := First(c.distributions, IsDistribution(pair.0));
    assert IsDistribution(pair.0)(d);
    assert found == Some(d);
    forall i | i in d.images && i.id == pair.1 ensures First(d.images, IsImage(pair.1)) == Some(i) {
      assert IsImage(pair.1)(i);
    }
    forall k | k in c.kernels && k.id == d.defaultKernel
      ensures First(c.kernels, IsKernel(d.defaultKernel)) == Some(k)
    {
      assert IsKernel(d.defaultKernel)(k);
    }
  }

  lemma NoDistributionExactly(c: Catalog, pair: Pair)
    ensures Resolve(c, pair) == Err(NoDistribution(pair.0)) <==> forall d | d in c.distributions :: d.id != pair.0
  {
    if d :| d in c.distributions && d.id == pair.0 {
      assert IsDistribution(pair.0)(d);
    }
  }

  /** The selections of the pairs, or the error of the first pair that has one. */
  ghost predicate ResolvesTo(c: Catalog, pairs: seq<Pair>, r: Result<seq<Selection>, Error>) {
    match r
    case Ok(selections) =>
      |selections| == |pairs| && forall i | 0 <= i < |pairs| :: Resolve(c, pairs[i]) == Ok(selections[i])
    case Err(e) =>
      exists i | 0 <= i < |pairs| :: Resolve(c, pairs[i]) == Err(e) && forall j | 0 <= j < i :: Resolve(c, pairs[j]).Ok?
  }

  lemma ResolvesToOne(c: Catalog, pairs: seq<Pair>, r: Result<seq<Selection>, Error>, q: Result<seq<Selection>, Error>)
    requires ResolvesTo(c, pairs, r) && ResolvesTo(c, pairs, q)
    ensures r == q
  {
    if r.Err? && q.Err? {
      var i :| && 0 <= i < |pairs| && Resolve(c, pairs[i]) == Err(r.error)
                && forall j | 0 <= j < i :: Resolve(c, pairs[j]).Ok?;
      var k :| && 0 <= k < |pairs| && Resolve(c, pairs[k]) == Err(q.error)
                && forall j | 0 <= j < k :: Resolve(c, pairs[j]).Ok?;
      assert i == k;
    } else if r.Ok? && q.Ok? {
      forall i | 0 <= i < |pairs| ensures r.value[i] == q.value[i] {
        assert Ok(r.value[i]) == Resolve(c, pairs[i]) == Ok(q.value[i]);
      }
      assert r.value == q.value;
    }
  }

  method ResolveAll(c: Catalog, pairs: seq<Pair>) returns (r: Result<seq<Selection>, Error>)
    ensures ResolvesTo(c, pairs, r)
  {
    var selections := [];
    for i := 0 to |pairs|
      invariant |selections| == i && forall j | 0 <= j < i :: Resolve(c, pairs[j]) == Ok(selections[j])
    {
      var one := Resolve(c, pairs[i]);
      if one.Err? { return Err(one.error); }
      selections := selections + [one.value];
    }
    return Ok(selections);
  }

  // ---------------------------------------------------------------------------------------------------
  // Sizes
  // ---------------------------------------------------------------------------------------------------

  function FileBytes(files: seq<File>): nat {
    if files == [] then 0 else FileBytes(files[..|files| - 1]) + files[|files| - 1].size
  }

  function TotalBytes(members: seq<Member>): nat {
    if members == [] then 0 else TotalBytes(members[..|members| - 1]) + members[|members| - 1].bytes
  }

  lemma {:induction false} TotalAdds(a: seq<Member>, b: seq<Member>)
    ensures TotalBytes(a + b) == TotalBytes(a) + TotalBytes(b)
  {
    if b == [] {
      assert a + b == a;
    } else {
      TotalAdds(a, b[..|b| - 1]);
      assert (a + b)[..|a + b| - 1] == a + b[..|b| - 1];
    }
  }

  lemma {:induction false} PrefixFits(files: seq<File>, n: nat)
    requires n <= |files|
    ensures FileBytes(files[..n]) <= FileBytes(files)
  {
    if n < |files| {
      PrefixFits(files[..|files| - 1], n);
      assert files[..|files| - 1][..n] == files[..n];
    } else {
      assert files[..n] == files;
    }
  }

  /** `binary_package_size`: the exact sum of the file sizes, unless it does not fit 64 bits. */
  method PackageSize(p: Package) returns (r: Result<nat, Error>)
    ensures r == if FileBytes(p.files) <= U64_MAX then Ok(FileBytes(p.files)) else Err(PackageTooLarge(p.id))
  {
    var total := 0;
    for i := 0 to |p.files|
      invariant total == FileBytes(p.files[..i]) <= U64_MAX
    {
      assert p.files[..i + 1][..i] == p.files[..i];
      PrefixFits(p.files, i + 1);
      if total + p.files[i].size > U64_MAX { return Err(PackageTooLarge(p.id)); }
      total := total + p.files[i].size;
    }
    assert p.files[..|p.files|] == p.files;
    return Ok(total);
  }

  // ---------------------------------------------------------------------------------------------------
  // The runtime packages
  // ---------------------------------------------------------------------------------------------------

  /** The packages for the two required components, each once and in order of identifier. */
  function InOrder(a: Package, b: Package): seq<Package> {
    if a.id == b.id then [a] else if Less(a.id, b.id) then [a, b] else [b, a]
  }

  function RuntimeMembers(packages: seq<Package>): seq<Member> {
    seq(|packages|, i requires 0 <= i < |packages| => RuntimeBinary(packages[i].id, FileBytes(packages[i].files)))
  }

  function FileCount(packages: seq<Package>): nat {
    if packages == [] then 0 else FileCount(packages[..|packages| - 1]) + |packages[|packages| - 1].files|
  }

  /** Adds up the packages, in order; the first thing that does not fit is the error. */
  function Measured(packages: seq<Package>): Result<Runtime, Error> {
    if packages == [] then Ok(Runtime([], 0, 0))
    else
      var last := packages[|packages| - 1];
      match Measured(packages[..|packages| - 1])
      case Err(e) => Err(e)
      case Ok(r) =>
        if r.files + |last.files| > U64_MAX then Err(TooManyFiles)
        else if FileBytes(last.files) > U64_MAX then Err(PackageTooLarge(last.id))
        else if r.expectedBytes + FileBytes(last.files) > U64_MAX then Err(TooLarge("runtime package"))
        else Ok(Runtime(packages, r.files + |last.files|, r.expectedBytes + FileBytes(last.files)))
  }

  /** What was measured is exactly what the members of the plan will add up to. */
  lemma {:induction false} MeasuredIsTotal(packages: seq<Package>)
    requires Measured(packages).Ok?
    ensures var r := Measured(packages).value;
            && r.packages == packages
            && r.files == FileCount(packages)
            && r.expectedBytes == TotalBytes(RuntimeMembers(packages)) <= U64_MAX
            && forall p | p in packages :: FileBytes(p.files) <= U64_MAX
  {
    if packages != [] {
      var front := packages[..|packages| - 1];
      MeasuredIsTotal(front);
      assert RuntimeMembers(packages)[..|front|] == RuntimeMembers(front);
      assert packages == front + [packages[|packages| - 1]];
    }
  }

  lemma {:induction false} MeasuredFailsEarly(packages: seq<Package>, n: nat)
    requires n <= |packages| && Measured(packages[..n]).Err?
    ensures Measured(packages) == Measured(packages[..n])
  {
    if n < |packages| {
      var front := packages[..|packages| - 1];
      assert front[..n] == packages[..n];
      MeasuredFailsEarly(front, n);
    } else {
      assert packages[..n] == packages;
    }
  }

  method Measure(packages: seq<Package>) returns (r: Result<Runtime, Error>)
    ensures r == Measured(packages)
  {
    var files: nat, bytes: nat := 0, 0;
    for i := 0 to |packages|
      invariant Measured(packages[..i]) == Ok(Runtime(packages[..i], files, bytes))
    {
      assert packages[..i + 1][..i] == packages[..i];
      if Measured(packages[..i + 1]).Err? { MeasuredFailsEarly(packages, i + 1); }
      if files + |packages[i].files| > U64_MAX { return Err(TooManyFiles); }
      var size := PackageSize(packages[i]);
      if size.Err? { return Err(size.error); }
      if bytes + size.value > U64_MAX { return Err(TooLarge("runtime package")); }
      files, bytes := files + |packages[i].files|, bytes + size.value;
    }
    assert packages[..|packages|] == packages;
    return Ok(Runtime(packages, files, bytes));
  }

  function RuntimeOf(c: Catalog): Result<Runtime, Error> {
    match (Pick(c.binaries, "firecracker", c.host), Pick(c.binaries, "firectl", c.host))
    case (None, _) => Err(NoRuntime("firecracker"))
    case (Some(_), None) => Err(NoRuntime("firectl"))
    case (Some(a), Some(b)) => Measured(InOrder(a, b))
  }

  predicate ById(p: Package, q: Package) { Less(p.id, q.id) }

  /** `select_runtime_packages`. */
  method SelectRuntimePackages(c: Catalog) returns (r: Result<Runtime, Error>)
    ensures r == RuntimeOf(c)
  {
    var candidates := SortBy(Filter(c.binaries, IsUsable(c.host)), Precedes);
    var required := ["firecracker", "firectl"];
    var packages: seq<Package>, ids: set<string> := [], {};
    ghost var picks := [Pick(c.binaries, required[0], c.host), Pick(c.binaries, required[1], c.host)];
    for i := 0 to 2
      invariant forall j | 0 <= j < i :: picks[j].Some?
      invariant i == 0 ==> packages == [] && ids == {}
      invariant i == 1 ==> packages == [picks[0].value] && ids == {picks[0].value.id}
      invariant i == 2 ==>
        packages == [picks[0].value] + if picks[0].value.id == picks[1].value.id then [] else [picks[1].value]
    {
      var package := First(candidates, IsProvider(required[i]));
      if package.None? { return Err(NoRuntime(required[i])); }
      if package.value.id !in ids {
        ids := ids + {package.value.id};
        packages := packages + [package.value];
      }
    }
    SortOfTwo(packages, picks[0].value, picks[1].value);
    packages := SortBy(packages, ById);
    r := Measure(packages);
  }

  lemma SortOfTwo(packages: seq<Package>, a: Package, b: Package)
    requires packages == if a.id == b.id then [a] else [a, b]
    ensures SortBy(packages, ById) == InOrder(a, b)
  {
    LessTrichotomy(a.id, b.id);
    assert SortBy([b], ById) == [b] by { assert [b][1..] == []; }
    assert [a, b][1..] == [b] && [a][1..] == [];
    assert SortBy([a], ById) == [a];
    assert SortBy([a, b], ById) == InsertSorted(a, [b], ById);
    assert InsertSorted(a, [b][1..], ById) == [a];
  }

  // ---------------------------------------------------------------------------------------------------
  // The kernels
  // ---------------------------------------------------------------------------------------------------

  function KernelIds(kernels: seq<Kernel>): seq<string> {
    seq(|kernels|, i requires 0 <= i < |kernels| => kernels[i].id)
  }

  /** `entry(id).or_insert(kernel)` on a map kept in order of identifier. */
  function OrInsert(kernels: seq<Kernel>, k: Kernel): seq<Kernel> {
    if kernels == [] then [k]
    else if kernels[0].id == k.id then kernels
    else if Less(k.id, kernels[0].id) then [k] + kernels
    else [kernels[0]] + OrInsert(kernels[1..], k)
  }

  ghost predicate OrderedById(kernels: seq<Kernel>) {
    forall i, j | 0 <= i < j < |kernels| :: Less(kernels[i].id, kernels[j].id)
  }

  lemma {:induction false} OrInsertAdds(kernels: seq<Kernel>, k: Kernel)
    requires forall x | x in kernels && x.id == k.id :: x == k
    ensures forall x :: x in OrInsert(kernels, k) <==> x == k || x in kernels
  {
    if kernels != [] {
      assert kernels[0] in kernels && kernels == [kernels[0]] + kernels[1..];
      OrInsertAdds(kernels[1..], k);
    }
  }

  lemma {:induction false} OrInsertKeepsOrder(kernels: seq<Kernel>, k: Kernel)
    requires OrderedById(kernels)
    requires forall x | x in kernels && x.id == k.id :: x == k
    ensures OrderedById(OrInsert(kernels, k))
  {
    if kernels != [] {
      var head, rest := kernels[0], OrInsert(kernels[1..], k);
      LessTrichotomy(head.id, k.id);
      if Less(head.id, k.id) {
        OrInsertKeepsOrder(kernels[1..], k);
        OrInsertAdds(kernels[1..], k);
        assert forall x | x in rest :: Less(head.id, x.id);
      } else if Less(k.id, head.id) {
        forall x | x in kernels ensures Less(k.id, x.id) {
          if x != head {
            LessTransitive(k.id, head.id, x.id);
          }
        }
      }
    }
  }

  /** The kernels of a list of selections, each once, in order of identifier. */
  ghost predicate KernelsOf(selections: seq<Selection>, kernels: seq<Kernel>) {
    && OrderedById(kernels)
    && (forall k | k in kernels :: exists s | s in selections :: s.kernel == k)
    && (forall s | s in selections :: s.kernel in kernels)
  }

  /** Selections whose kernels come from one catalog. */
  ghost predicate SameCatalog(selections: seq<Selection>) {
    forall s, t | s in selections && t in selections && s.kernel.id == t.kernel.id :: s.kernel == t.kernel
  }

  method UniqueKernels(selections: seq<Selection>) returns (kernels: seq<Kernel>)
    requires SameCatalog(selections)
    ensures KernelsOf(selections, kernels)
  {
    kernels := [];
    for i := 0 to |selections|
      invariant KernelsOf(selections[..i], kernels)
    {
      assert selections[..i + 1] == selections[..i] + [selections[i]];
      OrInsertAdds(kernels, selections[i].kernel);
      OrInsertKeepsOrder(kernels, selections[i].kernel);
      kernels := OrInsert(kernels, selections[i].kernel);
    }
    assert selections[..|selections|] == selections;
  }

  /** There is one such list. */
  lemma {:induction false} KernelsAreUnique(selections: seq<Selection>, a: seq<Kernel>, b: seq<Kernel>)
    requires SameCatalog(selections) && KernelsOf(selections, a) && KernelsOf(selections, b)
    ensures a == b
  {
    var x, y := KernelIds(a), KernelIds(b);
    forall k | k in a ensures k in b {}
    forall k | k in b ensures k in a {}
    forall id | id in x ensures id in y {
      var i :| 0 <= i < |a| && a[i].id == id;
      assert a[i] in b;
      var j :| 0 <= j < |b| && b[j] == a[i];
      assert y[j] == id;
    }
    forall id | id in y ensures id in x {
      var i :| 0 <= i < |b| && b[i].id == id;
      assert b[i] in a;
      var j :| 0 <= j < |a| && a[j] == b[i];
      assert x[j] == id;
    }
    LessIsTotal();
    AscendingIsUnique(x, y, Less);
    forall i | 0 <= i < |a| ensures a[i] == b[i] {
      assert x[i] == y[i];
      assert a[i] in b && b[i] in b;
    }
  }

  // ---------------------------------------------------------------------------------------------------
  // The plan
  // ---------------------------------------------------------------------------------------------------

  function KernelMembers(kernels: seq<Kernel>): seq<Member> {
    seq(|kernels|, i requires 0 <= i < |kernels| => KernelFile(kernels[i].id, kernels[i].size))
  }

  function ImageMember(s: Selection): Member {
    DistributionImage(s.distribution, s.image.id, s.image.size)
  }

  function ImageMembers(selections: seq<Selection>): seq<Member> {
    seq(|selections|, i requires 0 <= i < |selections| => ImageMember(selections[i]))
  }

  /** The plan made of these parts, if its size fits 64 bits. */
  function Assembled(runtime: Runtime, kernels: seq<Kernel>, selections: seq<Selection>): Result<Plan, Error> {
    var needed := RuntimeMembers(runtime.packages) + KernelMembers(kernels);
    var all := needed + ImageMembers(selections);
    if TotalBytes(needed) > U64_MAX then Err(TooLarge("kernel"))
    else if TotalBytes(all) > U64_MAX then Err(TooLarge("distribution image"))
    else Ok(Plan(runtime, selections, all, TotalBytes(all)))
  }

  /** The plan, or the error, for a canonical list of pairs. */
  ghost predicate PlanForPairs(c: Catalog, pairs: seq<Pair>, r: Result<Plan, Error>) {
    exists resolved: Result<seq<Selection>, Error> | ResolvesTo(c, pairs, resolved) ::
      if resolved.Err? then r == Err(resolved.error)
      else if RuntimeOf(c).Err? then r == Err(RuntimeOf(c).error)
      else exists kernels | KernelsOf(resolved.value, kernels) ::
             r == Assembled(RuntimeOf(c).value, kernels, resolved.value)
  }

  ghost predicate Canonical(pairs: seq<Pair>, selected: seq<Pair>) {
    Ascending(pairs, PairLess) && SameElements(pairs, selected)
  }

  /** What `build_plan` answers. */
  ghost predicate PlanFor(c: Catalog, selected: seq<Pair>, r: Result<Plan, Error>) {
    if selected == [] then r == Err(NothingSelected)
    else exists pairs | Canonical(pairs, selected) :: PlanForPairs(c, pairs, r)
  }

  lemma {:induction false} PrefixTotal(members: seq<Member>, n: nat)
    requires n <= |members|
    ensures TotalBytes(members[..n]) <= TotalBytes(members)
  {
    TotalAdds(members[..n], members[n..]);
    assert members[..n] + members[n..] == members;
  }

  lemma PushOne(members: seq<Member>, more: seq<Member>, i: nat)
    requires i < |more|
    ensures var next := members + more[..i + 1];
            && next == (members + more[..i]) + [more[i]]
            && TotalBytes(next) == TotalBytes(members + more[..i]) + more[i].bytes <= TotalBytes(members + more)
  {
    var next := members + more[..i + 1];
    assert next[..|next| - 1] == members + more[..i];
    PrefixTotal(members + more, |next|);
    assert (members + more)[..|next|] == next;
  }

  /** One of the three loops that push members and add up their sizes. */
  method PushMembers(members: seq<Member>, total: nat, more: seq<Member>, kind: string)
    returns (r: Result<(seq<Member>, nat), Error>)
    requires total == TotalBytes(members) <= U64_MAX
    ensures r == if TotalBytes(members + more) <= U64_MAX then Ok((members + more, TotalBytes(members + more)))
                 else Err(TooLarge(kind))
  {
    var pushed, sum := members, total;
    for i := 0 to |more|
      invariant pushed == members + more[..i] && sum == TotalBytes(pushed) <= U64_MAX
    {
      PushOne(members, more, i);
      if sum + more[i].bytes > U64_MAX { return Err(TooLarge(kind)); }
      pushed, sum := pushed + [more[i]], sum + more[i].bytes;
    }
    assert more[..|more|] == more;
    return Ok((pushed, sum));
  }

  lemma ResolvedShareCatalog(c: Catalog, pairs: seq<Pair>, selections: seq<Selection>)
    requires ResolvesTo(c, pairs, Ok(selections))
    ensures SameCatalog(selections)
  {
    forall s, t | s in selections && t in selections && s.kernel.id == t.kernel.id ensures s.kernel == t.kernel {
      var i :| 0 <= i < |selections| && selections[i] == s;
      var j :| 0 <= j < |selections| && selections[j] == t;
      ResolveKeepsNames(c, pairs[i]);
      ResolveKeepsNames(c, pairs[j]);
    }
  }

  /** `build_plan`. */
  method BuildPlan(c: Catalog, selected: seq<Pair>) returns (r: Result<Plan, Error>)
    ensures PlanFor(c, selected, r)
  {
    if selected == [] { return Err(NothingSelected); }
    PairLessIsTotal();
    var pairs := SortBy(selected, PairLess);
    SortBySorts(selected, PairLess);
    assert forall x :: x in pairs <==> x in multiset(selected);
    pairs := Dedup(pairs, PairLess);
    assert Canonical(pairs, selected);
    var resolved := ResolveAll(c, pairs);
    if resolved.Err? {
      return Err(resolved.error);
    }
    var runtime := SelectRuntimePackages(c);
    if runtime.Err? {
      return Err(runtime.error);
    }
    ResolvedShareCatalog(c, pairs, resolved.value);
    var kernels := UniqueKernels(resolved.value);
    r := Assemble(runtime.value, kernels, resolved.value, c);
  }

  /** The last part of `build_plan`: the runtime loop cannot fail, since the packages were measured. */
  method Assemble(runtime: Runtime, kernels: seq<Kernel>, selections: seq<Selection>, ghost c: Catalog)
    returns (r: Result<Plan, Error>)
    requires RuntimeOf(c) == Ok(runtime)
    ensures r == Assembled(runtime, kernels, selections)
  {
    MeasuredIsTotal(InOrder(Pick(c.binaries, "firecracker", c.host).value, Pick(c.binaries, "firectl", c.host).value));
    assert [] + RuntimeMembers(runtime.packages) == RuntimeMembers(runtime.packages);
    var a := PushMembers([], 0, RuntimeMembers(runtime.packages), "runtime package");
    assert a.Ok?;
    var b := PushMembers(a.value.0, a.value.1, KernelMembers(kernels), "kernel");
    if b.Err? { return Err(b.error); }
    var d := PushMembers(b.value.0, b.value.1, ImageMembers(selections), "distribution image");
    if d.Err? { return Err(d.error); }
    return Ok(Plan(runtime, selections, d.value.0, d.value.1));
  }

  // ---------------------------------------------------------------------------------------------------
  // What a plan is
  // ---------------------------------------------------------------------------------------------------

  lemma OnePlanForPairs(c: Catalog, pairs: seq<Pair>, r: Result<Plan, Error>, q: Result<Plan, Error>)
    requires PlanForPairs(c, pairs, r) && PlanForPairs(c, pairs, q)
    ensures r == q
  {
    forall x, y | ResolvesTo(c, pairs, x) && ResolvesTo(c, pairs, y) ensures x == y {
      ResolvesToOne(c, pairs, x, y);
    }
    var resolved :| ResolvesTo(c, pairs, resolved);
    if resolved.Ok? && RuntimeOf(c).Ok? {
      ResolvedShareCatalog(c, pairs, resolved.value);
      var k :| KernelsOf(resolved.value, k) && r == Assembled(RuntimeOf(c).value, k, resolved.value);
      var l :| KernelsOf(resolved.value, l) && q == Assembled(RuntimeOf(c).value, l, resolved.value);
      KernelsAreUnique(resolved.value, k, l);
    }
  }

  /**
    The answer depends only on the set of selected pairs: in any order and with any repetitions they give the
    same plan, or the same error.
  */
  lemma PlanDependsOnTheSet(c: Catalog, s: seq<Pair>, t: seq<Pair>, r: Result<Plan, Error>, q: Result<Plan, Error>)
    requires SameElements(s, t) && PlanFor(c, s, r) && PlanFor(c, t, q)
    ensures r == q
  {
    assert s != [] ==> s[0] in t;
    assert t != [] ==> t[0] in s;
    if s != [] && t != [] {
      var a :| Canonical(a, s) && PlanForPairs(c, a, r);
      var b :| Canonical(b, t) && PlanForPairs(c, b, q);
      PairLessIsTotal();
      AscendingIsUnique(a, b, PairLess);
      OnePlanForPairs(c, a, r, q);
    }
  }

  /** Whether two members are the same artifact. */
  predicate SameArtifact(m: Member, n: Member) {
    || (m.RuntimeBinary? && n.RuntimeBinary? && m.package == n.package)
    || (m.KernelFile? && n.KernelFile? && m.kernel == n.kernel)
    || (m.DistributionImage? && n.DistributionImage? && m.distribution == n.distribution && m.image == n.image)
  }

  ghost predicate NoRepeats(members: seq<Member>) {
    forall i, j {:trigger SameArtifact(members[i], members[j])} | 0 <= i < j < |members| ::
      !SameArtifact(members[i], members[j])
  }

  /** The runtime packages, then the kernels, then the images, each once, and their exact size. */
  ghost predicate BuiltFrom(plan: Plan, kernels: seq<Kernel>) {
    && KernelsOf(plan.selections, kernels)
    && plan.runtime.packages != []
    && plan.members == RuntimeMembers(plan.runtime.packages) + KernelMembers(kernels) + ImageMembers(plan.selections)
    && plan.expectedBytes == TotalBytes(plan.members) <= U64_MAX
    && NoRepeats(plan.members)
  }

  ghost predicate BuiltPlan(plan: Plan) {
    exists kernels :: BuiltFrom(plan, kernels)
  }

  /** The size of a member is that of the artifact it names. */
  ghost predicate IsSized(m: Member, packages: seq<Package>, selections: seq<Selection>) {
    match m
    case RuntimeBinary(id, bytes) => exists p | p in packages :: p.id == id && FileBytes(p.files) == bytes
    case KernelFile(id, bytes) => exists s | s in selections :: s.kernel.id == id && s.kernel.size == bytes
    case DistributionImage(distribution, image, bytes) =>
      exists s | s in selections :: PairOf(s) == (distribution, image) && s.image.size == bytes
  }

  lemma PackageIsSized(packages: seq<Package>, selections: seq<Selection>, i: nat)
    requires i < |packages|
    ensures IsSized(RuntimeMembers(packages)[i], packages, selections)
  {
    assert packages[i] in packages;
  }

  lemma KernelIsSized(packages: seq<Package>, selections: seq<Selection>, kernels: seq<Kernel>, i: nat)
    requires i < |kernels| && KernelsOf(selections, kernels)
    ensures IsSized(KernelMembers(kernels)[i], packages, selections)
  {
    assert kernels[i] in kernels;
  }

  lemma ImageIsSized(packages: seq<Package>, selections: seq<Selection>, i: nat)
    requires i < |selections|
    ensures IsSized(ImageMembers(selections)[i], packages, selections)
  {
    assert selections[i] in selections;
  }

  lemma MembersAreSized(plan: Plan, kernels: seq<Kernel>)
    requires BuiltFrom(plan, kernels)
    ensures forall m | m in plan.members :: IsSized(m, plan.runtime.packages, plan.selections)
  {
    var packages, selections := plan.runtime.packages, plan.selections;
    var a, b, c := RuntimeMembers(packages), KernelMembers(kernels), ImageMembers(selections);
    forall m | m in plan.members ensures IsSized(m, packages, selections) {
      if m in a {
        var i :| 0 <= i < |a| && a[i] == m;
        PackageIsSized(packages, selections, i);
      } else if m in b {
        var i :| 0 <= i < |b| && b[i] == m;
        KernelIsSized(packages, selections, kernels, i);
      } else {
        var i :| 0 <= i < |c| && c[i] == m;
        ImageIsSized(packages, selections, i);
      }
    }
  }

  lemma PartsAreDistinct(packages: seq<Package>, kernels: seq<Kernel>, selections: seq<Selection>)
    requires Distinct(packages)
    requires OrderedById(kernels)
    requires forall i, j | 0 <= i < j < |selections| ::
               PairOf(selections[i]) != PairOf(selections[j])
    ensures NoRepeats(RuntimeMembers(packages) + KernelMembers(kernels) + ImageMembers(selections))
  {
    var p, k := |packages|, |kernels|;
    var members := RuntimeMembers(packages) + KernelMembers(kernels) + ImageMembers(selections);
    assert forall i | 0 <= i < p :: members[i].RuntimeBinary? && members[i].package == packages[i].id;
    assert forall i | p <= i < p + k :: members[i].KernelFile? && members[i].kernel == kernels[i - p].id;
    assert forall i | p + k <= i < |members| :: members[i] == ImageMember(selections[i - p - k]);
    forall i, j | 0 <= i < j < |members| ensures !SameArtifact(members[i], members[j]) {
      if p <= i && j < p + k {
        LessTrichotomy(members[i].kernel, members[j].kernel);
      }
    }
  }

  lemma PairsAreDistinct(c: Catalog, pairs: seq<Pair>, selections: seq<Selection>)
    requires Ascending(pairs, PairLess) && ResolvesTo(c, pairs, Ok(selections))
    ensures forall i | 0 <= i < |pairs| :: pairs[i] == PairOf(selections[i])
    ensures forall i, j | 0 <= i < j < |selections| ::
              PairOf(selections[i]) != PairOf(selections[j])
  {
    forall i | 0 <= i < |pairs| ensures pairs[i] == PairOf(selections[i]) {
      ResolveKeepsNames(c, pairs[i]);
    }
    PairLessIsTotal();
  }

  /** The packages are those picked for the two components. */
  ghost predicate Covers(packages: seq<Package>, a: Package, b: Package) {
    && (forall p | p in packages :: p == a || p == b)
    && (exists p | p in packages :: p.id == a.id)
    && (exists p | p in packages :: p.id == b.id)
  }

  ghost predicate Distinct(packages: seq<Package>) {
    forall i, j | 0 <= i < j < |packages| :: packages[i].id != packages[j].id
  }

  lemma InOrderCovers(a: Package, b: Package)
    ensures Covers(InOrder(a, b), a, b) && Distinct(InOrder(a, b)) && InOrder(a, b) != []
  {
    var s := InOrder(a, b);
    assert a in s;
    assert a.id != b.id ==> b in s;
  }

  ghost predicate RuntimeIsPicked(c: Catalog, runtime: Runtime) {
    var a, b := Pick(c.binaries, "firecracker", c.host), Pick(c.binaries, "firectl", c.host);
    && a.Some? && b.Some? && Covers(runtime.packages, a.value, b.value)
    && runtime.packages != [] && Distinct(runtime.packages)
    && runtime.expectedBytes == TotalBytes(RuntimeMembers(runtime.packages))
  }

  lemma RuntimeIsExact(c: Catalog)
    requires RuntimeOf(c).Ok?
    ensures RuntimeIsPicked(c, RuntimeOf(c).value)
  {
    var a, b := Pick(c.binaries, "firecracker", c.host).value, Pick(c.binaries, "firectl", c.host).value;
    InOrderCovers(a, b);
    MeasuredIsTotal(InOrder(a, b));
  }

  lemma PlanIsBuilt(runtime: Runtime, kernels: seq<Kernel>, selections: seq<Selection>)
    requires Assembled(runtime, kernels, selections).Ok?
    requires Distinct(runtime.packages) && runtime.packages != [] && KernelsOf(selections, kernels)
    requires forall i, j | 0 <= i < j < |selections| ::
               PairOf(selections[i]) != PairOf(selections[j])
    ensures BuiltPlan(Assembled(runtime, kernels, selections).value)
  {
    PartsAreDistinct(runtime.packages, kernels, selections);
    assert BuiltFrom(Assembled(runtime, kernels, selections).value, kernels);
  }

  lemma PlanHasParts(c: Catalog, pairs: seq<Pair>, plan: Plan) returns (kernels: seq<Kernel>)
    requires PlanForPairs(c, pairs, Ok(plan))
    ensures RuntimeOf(c).Ok? && ResolvesTo(c, pairs, Ok(plan.selections)) && KernelsOf(plan.selections, kernels)
    ensures Ok(plan) == Assembled(RuntimeOf(c).value, kernels, plan.selections)
  {
    var resolved: Result<seq<Selection>, Error> :| ResolvesTo(c, pairs, resolved) && resolved.Ok? && RuntimeOf(c).Ok?
      && exists k | KernelsOf(resolved.value, k) :: Ok(plan) == Assembled(RuntimeOf(c).value, k, resolved.value);
    kernels :| KernelsOf(resolved.value, kernels) && Ok(plan) == Assembled(RuntimeOf(c).value, kernels, resolved.value);
  }

  /** Some selection is what the pair stands for. */
  ghost predicate Planned(c: Catalog, selections: seq<Selection>, pair: Pair) {
    exists s | s in selections :: PairOf(s) == pair && Resolve(c, pair) == Ok(s)
  }

  lemma PairIsPlanned(c: Catalog, pairs: seq<Pair>, selections: seq<Selection>, pair: Pair)
    requires ResolvesTo(c, pairs, Ok(selections))
    ensures pair in pairs <==> Planned(c, selections, pair)
  {
    if pair in pairs {
      var i :| 0 <= i < |pairs| && pairs[i] == pair;
      ResolveKeepsNames(c, pair);
      assert selections[i] in selections;
    }
    if s :| s in selections && PairOf(s) == pair {
      var i :| 0 <= i < |selections| && selections[i] == s;
      ResolveKeepsNames(c, pairs[i]);
    }
  }

  lemma SelectionsAreNamed(c: Catalog, pairs: seq<Pair>, selections: seq<Selection>)
    requires ResolvesTo(c, pairs, Ok(selections))
    ensures forall s | s in selections ::
              PairOf(s) in pairs && exists d | d in c.distributions :: Names(c, PairOf(s), d, s.image, s.kernel)
  {
    forall s | s in selections
      ensures PairOf(s) in pairs && exists d | d in c.distributions :: Names(c, PairOf(s), d, s.image, s.kernel)
    {
      var i :| 0 <= i < |selections| && selections[i] == s;
      ResolveKeepsNames(c, pairs[i]);
      var d := SelectionIsNamed(c, pairs[i]);
    }
  }

  /**
    A plan is well built; its images are the selected pairs, no more and no fewer; its runtime packages are
    those picked for the two required components; and each image comes with its own distribution's default kernel.
  */
  lemma PlanIsExact(c: Catalog, selected: seq<Pair>, plan: Plan)
    requires PlanFor(c, selected, Ok(plan))
    ensures BuiltPlan(plan)
    ensures forall pair :: pair in selected <==> Planned(c, plan.selections, pair)
    ensures forall s | s in plan.selections ::
              exists d | d in c.distributions :: Names(c, PairOf(s), d, s.image, s.kernel)
    ensures forall s | s in plan.selections :: PairOf(s) in selected
    ensures forall m | m in plan.members :: IsSized(m, plan.runtime.packages, plan.selections)
    ensures RuntimeIsPicked(c, plan.runtime)
  {
    var pairs :| Canonical(pairs, selected) && PlanForPairs(c, pairs, Ok(plan));
    var kernels := PlanHasParts(c, pairs, plan);
    PairsAreDistinct(c, pairs, plan.selections);
    RuntimeIsExact(c);
    PlanIsBuilt(plan.runtime, kernels, plan.selections);
    forall pair ensures pair in selected <==> Planned(c, plan.selections, pair) {
      PairIsPlanned(c, pairs, plan.selections, pair);
      assert pair in selected <==> pair in pairs;
    }
    SelectionsAreNamed(c, pairs, plan.selections);
    var built :| BuiltFrom(plan, built);
    MembersAreSized(plan, built);
  }
}
