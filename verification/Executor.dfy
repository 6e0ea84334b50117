/**
  The download executor: it walks a plan in three phases, the runtime packages, the kernels and the images,
  with failures, skips and cancellation at any point, and reports one group per member.

  What the outside world does is a schedule: before each member it says whether cancellation is set, and for
  each transfer how it ends. Theorems hold for every schedule.
*/
module Executor {
  import opened Wrappers
  import opened Bounds
  import opened Packages
  import opened Planner

  datatype Disposition = FreshlyDownloaded | AdoptedExisting | SkippedExisting

  datatype Availability = Downloaded | Adopted | AlreadyAvailable | Mixed

  /** The label of a group: `runtime/ID`, `kernel/ID` or `distribution/ID/ID`. */
  datatype Label = OfRuntime(package: string) | OfKernel(kernel: string) | OfImage(distribution: string, image: string)

  datatype MemberOutcome =
    | Verified(of: Label, availability: Availability)
    | Failed(of: Label, reason: string)
    | Skipped(of: Label, kernel: string)
    | Cancelled(of: Label)

  /** How a transfer ends; `Broken` is a signal handler's I/O error or an inconsistent progress event. */
  datatype Call =
    | Finished(files: seq<Disposition>)
    | Refused(reason: string)
    | Interrupted
    | Broken(error: string)

  datatype Moment = Moment(cancelled: bool, call: Call)

  /** `early` is the check made before anything else; `at(k)` belongs to the member at index `k`. */
  datatype Schedule = Schedule(early: bool, at: int -> Moment)

  function Name(m: Member): Label {
    match m
    case RuntimeBinary(package, _) => OfRuntime(package)
    case KernelFile(kernel, _) => OfKernel(kernel)
    case DistributionImage(distribution, image, _) => OfImage(distribution, image)
  }

  /** `availability_for_files`. */
  function AvailabilityOf(files: seq<Disposition>): Availability {
    if files == [] then Downloaded
    else if exists i | 0 <= i < |files| :: files[i] != files[0] then Mixed
    else match files[0]
      case FreshlyDownloaded => Downloaded
      case AdoptedExisting => Adopted
      case SkippedExisting => AlreadyAvailable
  }

  /** What the availability of a group says about its files. */
  lemma AvailabilityMeans(files: seq<Disposition>)
    ensures AvailabilityOf(files) == Mixed <==> exists f, g | f in files && g in files :: f != g
    ensures AvailabilityOf(files) == Downloaded <==> forall f | f in files :: f == FreshlyDownloaded
    ensures AvailabilityOf(files) == Adopted <==> files != [] && forall f | f in files :: f == AdoptedExisting
    ensures AvailabilityOf(files) == AlreadyAvailable <==> files != [] && forall f | f in files :: f == SkippedExisting
  {
    if files != [] {
      assert files[0] in files;
      if AvailabilityOf(files) == Mixed {
        var i :| 0 <= i < |files| && files[i] != files[0];
        assert files[i] in files;
      } else {
        assert forall f | f in files :: f == files[0];
      }
    }
  }

  // ---------------------------------------------------------------------------------------------------
  // What a schedule means for a plan
  // ---------------------------------------------------------------------------------------------------

  /** The index of the first image. */
  function Images(plan: Plan): int {
    |plan.members| - |plan.selections|
  }

  /** The kernels among the first `k` members whose transfer fails. */
  ghost function RefusedKernels(plan: Plan, sched: Schedule, k: nat): set<string>
    requires k <= |plan.members|
  {
    if k == 0 then {}
    else
      var m := plan.members[k - 1];
      RefusedKernels(plan, sched, k - 1)
        + if m.KernelFile? && sched.at(k - 1).call.Refused? then {m.kernel} else {}
  }

  /** The kernel that the image at index `k` boots with. */
  function KernelFor(plan: Plan, k: int): string
    requires Images(plan) <= k < |plan.members|
  {
    plan.selections[k - Images(plan)].kernel.id
  }

  ghost predicate Skips(plan: Plan, sched: Schedule, k: int) {
    && 0 <= Images(plan) <= k < |plan.members|
    && KernelFor(plan, k) in RefusedKernels(plan, sched, |plan.members|)
  }

  /** Whether a transfer is started for member `k` once the run gets there. */
  ghost predicate Starts(plan: Plan, sched: Schedule, k: int) {
    !Skips(plan, sched, k) && !(k == 0 && sched.early) && !sched.at(k).cancelled
  }

  /** Cancellation is seen at member `k`, before its transfer or during it. */
  ghost predicate CancelledAt(plan: Plan, sched: Schedule, k: int) {
    !Skips(plan, sched, k) && (Starts(plan, sched, k) ==> sched.at(k).call.Interrupted?)
  }

  ghost predicate BrokenAt(plan: Plan, sched: Schedule, k: int) {
    Starts(plan, sched, k) && sched.at(k).call.Broken?
  }

  /** A runtime package that cannot be had ends the run. */
  ghost predicate RuntimeRefusedAt(plan: Plan, sched: Schedule, k: int) {
    && 0 <= k < |plan.members| && plan.members[k].RuntimeBinary?
    && Starts(plan, sched, k) && sched.at(k).call.Refused?
  }

  ghost predicate Halts(plan: Plan, sched: Schedule, k: int) {
    CancelledAt(plan, sched, k) || BrokenAt(plan, sched, k) || RuntimeRefusedAt(plan, sched, k)
  }

  /** The run gets past the first `k` members. */
  ghost predicate Passes(plan: Plan, sched: Schedule, k: nat) {
    k == 0 || (Passes(plan, sched, k - 1) && !Halts(plan, sched, k - 1))
  }

  /** The group of a member that the run gets past, or of a runtime package that ends it. */
  ghost function GroupAt(plan: Plan, sched: Schedule, k: int): MemberOutcome
    requires 0 <= k < |plan.members|
  {
    var name := Name(plan.members[k]);
    if Skips(plan, sched, k) then Skipped(name, KernelFor(plan, k))
    else match sched.at(k).call
      case Finished(files) => Verified(name, AvailabilityOf(files))
      case Refused(reason) => Failed(name, reason)
      case _ => Cancelled(name)
  }

  /** What a run leaves behind; `calls` are the members whose transfer was started, in order. */
  datatype Report = Report(groups: seq<MemberOutcome>, cancelled: bool, availableBytes: nat, calls: seq<nat>)

  ghost function Past(plan: Plan, sched: Schedule, k: nat, r: Report): Report
    requires k < |plan.members|
  {
    var group := GroupAt(plan, sched, k);
    Report(r.groups + [group], r.cancelled,
           r.availableBytes + (if group.Verified? then plan.members[k].bytes else 0),
           if Skips(plan, sched, k) then r.calls else r.calls + [k])
  }

  ghost function After(plan: Plan, sched: Schedule, k: nat): Report
    requires k <= |plan.members|
  {
    if k == 0 then Report([], false, 0, []) else Past(plan, sched, k - 1, After(plan, sched, k - 1))
  }

  /** The report of a run that is cancelled at member `k`: every remaining member is cancelled. */
  ghost function Cut(plan: Plan, sched: Schedule, k: nat): Report
    requires k < |plan.members|
  {
    var r := After(plan, sched, k);
    Report(r.groups + CancelledFrom(plan.members, k), true, r.availableBytes,
           if Starts(plan, sched, k) then r.calls + [k] else r.calls)
  }

  /** The story of a run that ends with a report: it stops at `stop`, or at the end of the plan. */
  ghost predicate Ends(plan: Plan, sched: Schedule, stop: nat, r: Report) {
    && stop <= |plan.members| && Passes(plan, sched, stop)
    && if stop == |plan.members| then r == After(plan, sched, stop)
       else if CancelledAt(plan, sched, stop) then r == Cut(plan, sched, stop)
       else RuntimeRefusedAt(plan, sched, stop) && r == Past(plan, sched, stop, After(plan, sched, stop))
  }

  /** The story of a run that ends with an error instead. */
  ghost predicate Breaks(plan: Plan, sched: Schedule, stop: nat, error: string) {
    && stop < |plan.members| && Passes(plan, sched, stop)
    && BrokenAt(plan, sched, stop) && sched.at(stop).call.error == error
  }

  /** The run is about to deal with member `k`. */
  ghost predicate Reaches(plan: Plan, sched: Schedule, k: nat, r: Report) {
    k <= |plan.members| && Passes(plan, sched, k) && r == After(plan, sched, k)
  }

  // ---------------------------------------------------------------------------------------------------
  // Sizes
  // ---------------------------------------------------------------------------------------------------

  /** The bytes of the members whose group says they were verified. */
  function VerifiedBytes(members: seq<Member>, groups: seq<MemberOutcome>): nat
    requires |groups| <= |members|
  {
    if groups == [] then 0
    else
      var last := |groups| - 1;
      VerifiedBytes(members, groups[..last]) + if groups[last].Verified? then members[last].bytes else 0
  }

  lemma {:induction false} VerifiedFits(members: seq<Member>, groups: seq<MemberOutcome>)
    requires |groups| <= |members|
    ensures VerifiedBytes(members, groups) <= TotalBytes(members[..|groups|])
    ensures (forall g | g in groups :: g.Verified?) ==>
              VerifiedBytes(members, groups) == TotalBytes(members[..|groups|])
  {
    if groups != [] {
      var last := |groups| - 1;
      VerifiedFits(members, groups[..last]);
      assert members[..last + 1][..last] == members[..last];
      assert groups[last] in groups;
    }
  }

  /** Groups that verified nothing add no bytes. */
  lemma {:induction false} UnverifiedAddNothing(members: seq<Member>, groups: seq<MemberOutcome>,
                                                more: seq<MemberOutcome>)
    requires |groups| + |more| <= |members|
    requires forall g | g in more :: !g.Verified?
    ensures VerifiedBytes(members, groups + more) == VerifiedBytes(members, groups)
  {
    if more == [] {
      assert groups + more == groups;
    } else {
      var front := more[..|more| - 1];
      UnverifiedAddNothing(members, groups, front);
      assert (groups + more)[..|groups + more| - 1] == groups + front;
      assert more[|more| - 1] in more;
    }
  }

  lemma {:induction false} AfterSizes(plan: Plan, sched: Schedule, k: nat)
    requires k <= |plan.members|
    ensures var r := After(plan, sched, k);
            |r.groups| == k && !r.cancelled && r.availableBytes == VerifiedBytes(plan.members, r.groups)
  {
    if k > 0 {
      AfterSizes(plan, sched, k - 1);
      assert After(plan, sched, k).groups[..k - 1] == After(plan, sched, k - 1).groups;
    }
  }

  /** The next member still fits: the checked additions of the executor cannot fail. */
  lemma NextFits(plan: Plan, sched: Schedule, k: nat)
    requires k < |plan.members| && TotalBytes(plan.members) <= U64_MAX
    ensures After(plan, sched, k).availableBytes + plan.members[k].bytes <= U64_MAX
  {
    AfterSizes(plan, sched, k);
    VerifiedFits(plan.members, After(plan, sched, k).groups);
    PrefixTotal(plan.members, k + 1);
    assert plan.members[..k + 1][..k] == plan.members[..k];
  }

  // ---------------------------------------------------------------------------------------------------
  // The parts of a built plan
  // ---------------------------------------------------------------------------------------------------

  /** The identifiers of the kernels among the members, in order. */
  function KernelsAmong(members: seq<Member>): seq<string> {
    if members == [] then []
    else
      var last := |members| - 1;
      KernelsAmong(members[..last]) + if members[last].KernelFile? then [members[last].kernel] else []
  }

  lemma {:induction false} KernelsAmongAdds(a: seq<Member>, b: seq<Member>)
    ensures KernelsAmong(a + b) == KernelsAmong(a) + KernelsAmong(b)
  {
    if b == [] {
      assert a + b == a;
    } else {
      var last := |b| - 1;
      KernelsAmongAdds(a, b[..last]);
      assert (a + b)[..|a + b| - 1] == a + b[..last];
    }
  }

  lemma {:induction false} NoKernelsAmong(members: seq<Member>)
    requires forall m | m in members :: !m.KernelFile?
    ensures KernelsAmong(members) == []
  {
    if members != [] {
      NoKernelsAmong(members[..|members| - 1]);
      assert members[|members| - 1] in members;
    }
  }

  lemma {:induction false} AllKernelsAmong(kernels: seq<Kernel>)
    ensures KernelsAmong(KernelMembers(kernels)) == KernelIds(kernels)
  {
    if kernels != [] {
      var last := |kernels| - 1;
      AllKernelsAmong(kernels[..last]);
      assert KernelMembers(kernels)[..last] == KernelMembers(kernels[..last]);
      assert KernelIds(kernels) == KernelIds(kernels[..last]) + [kernels[last].id];
    }
  }

  /** The members that are kernels are the kernels, in their order. */
  lemma KernelsOfPlan(plan: Plan, kernels: seq<Kernel>)
    requires BuiltFrom(plan, kernels)
    ensures KernelsAmong(plan.members) == KernelIds(kernels)
  {
    var a, b, c := RuntimeMembers(plan.runtime.packages), KernelMembers(kernels), ImageMembers(plan.selections);
    KernelsAmongAdds(a + b, c);
    KernelsAmongAdds(a, b);
    NoKernelsAmong(a);
    NoKernelsAmong(c);
    AllKernelsAmong(kernels);
  }

  /** Where each member sits. */
  ghost predicate Placed(plan: Plan, kernels: seq<Kernel>) {
    && |plan.members| == |plan.runtime.packages| + |kernels| + |plan.selections|
    && (forall i | 0 <= i < |plan.runtime.packages| ::
          plan.members[i] == RuntimeBinary(plan.runtime.packages[i].id, FileBytes(plan.runtime.packages[i].files)))
    && (forall i | 0 <= i < |kernels| ::
          plan.members[|plan.runtime.packages| + i] == KernelFile(kernels[i].id, kernels[i].size))
    && (forall i | 0 <= i < |plan.selections| ::
          plan.members[|plan.runtime.packages| + |kernels| + i] == ImageMember(plan.selections[i]))
  }

  lemma PlanIsPlaced(plan: Plan, kernels: seq<Kernel>)
    requires BuiltFrom(plan, kernels)
    ensures Placed(plan, kernels)
  {
  }

  function IsKernelMember(id: string): Member -> bool {
    (m: Member) => m.KernelFile? && m.kernel == id
  }

  /** The size the executor looks up for a kernel is that of its member. */
  lemma KernelIsFound(members: seq<Member>, k: int)
    requires 0 <= k < |members| && members[k].KernelFile?
    requires NoRepeats(members)
    ensures First(members, IsKernelMember(members[k].kernel)) == Some(members[k])
  {
    var id := members[k].kernel;
    var found := First(members, IsKernelMember(id));
    assert IsKernelMember(id)(members[k]);
    var j :| 0 <= j < |members| && members[j] == found.value;
    assert SameArtifact(members[j], members[k]) && SameArtifact(members[k], members[j]);
  }

  ghost predicate Lookups(plan: Plan, kernels: seq<Kernel>) {
    forall i | 0 <= i < |kernels| && |plan.runtime.packages| + i < |plan.members| ::
      First(plan.members, IsKernelMember(kernels[i].id)) == Some(plan.members[|plan.runtime.packages| + i])
  }

  lemma KernelsAreFound(plan: Plan, kernels: seq<Kernel>)
    requires NoRepeats(plan.members) && Placed(plan, kernels)
    ensures Lookups(plan, kernels)
  {
    forall i | 0 <= i < |kernels|
      ensures First(plan.members, IsKernelMember(kernels[i].id)) == Some(plan.members[|plan.runtime.packages| + i])
    {
      assert plan.members[|plan.runtime.packages| + i] == KernelFile(kernels[i].id, kernels[i].size);
      KernelIsFound(plan.members, |plan.runtime.packages| + i);
    }
  }

  /** What the executor needs to know of a built plan. */
  ghost predicate Ready(plan: Plan, kernels: seq<Kernel>) {
    && Placed(plan, kernels) && plan.runtime.packages != [] && TotalBytes(plan.members) <= U64_MAX
    && KernelsAmong(plan.members) == KernelIds(kernels) && Lookups(plan, kernels)
  }

  lemma PlanIsReady(plan: Plan, kernels: seq<Kernel>)
    requires BuiltFrom(plan, kernels)
    ensures Ready(plan, kernels)
  {
    PlanIsPlaced(plan, kernels);
    KernelsOfPlan(plan, kernels);
    KernelsAreFound(plan, kernels);
  }

  // ---------------------------------------------------------------------------------------------------
  // The executor
  // ---------------------------------------------------------------------------------------------------

  class DownloadOutcome {
    var groups: seq<MemberOutcome>
    var cancelled: bool
    var availableBytes: nat
    const expectedBytes: nat
    ghost var calls: seq<nat>

    constructor (expectedBytes: nat)
      ensures Value() == Report([], false, 0, []) && this.expectedBytes == expectedBytes
    {
      this.expectedBytes := expectedBytes;
      groups, cancelled, availableBytes, calls := [], false, 0, [];
    }

    ghost function Value(): Report
      reads this
    {
      Report(groups, cancelled, availableBytes, calls)
    }

    /** `is_success`. */
    predicate IsSuccess()
      reads this
    {
      !cancelled && forall i | 0 <= i < |groups| :: groups[i].Verified?
    }

    /** `exit_code`. */
    function ExitCode(): nat
      reads this
    {
      if cancelled then 130 else if IsSuccess() then 0 else 1
    }
  }

  function CancelledFrom(members: seq<Member>, k: int): seq<MemberOutcome>
    requires 0 <= k <= |members|
  {
    seq(|members| - k, i requires 0 <= i < |members| - k => Cancelled(Name(members[k + i])))
  }

  lemma CancelledSplits(members: seq<Member>, k: int)
    requires 0 <= k < |members|
    ensures CancelledFrom(members, k) == [Cancelled(Name(members[k]))] + CancelledFrom(members, k + 1)
  {
  }

  /** `append_cancelled_after_runtime`. */
  method AppendCancelledAfterRuntime(plan: Plan, o: DownloadOutcome, start: nat)
    requires start <= |plan.members|
    modifies o`groups
    ensures o.groups == old(o.groups) + CancelledFrom(plan.members, start)
  {
    for i := start to |plan.members|
      invariant o.groups + CancelledFrom(plan.members, i) == old(o.groups) + CancelledFrom(plan.members, start)
    {
      CancelledSplits(plan.members, i);
      o.groups := o.groups + [Cancelled(Name(plan.members[i]))];
    }
  }

  /** `append_cancelled_after_image`. */
  method AppendCancelledAfterImage(plan: Plan, ghost kernels: seq<Kernel>, o: DownloadOutcome, start: nat)
    requires Placed(plan, kernels) && start <= |plan.selections|
    modifies o`groups
    ensures o.groups == old(o.groups) + CancelledFrom(plan.members, Images(plan) + start)
  {
    ghost var first, all := Images(plan), CancelledFrom(plan.members, Images(plan) + start);
    for i := start to |plan.selections|
      invariant o.groups + CancelledFrom(plan.members, first + i) == old(o.groups) + all
    {
      CancelledSplits(plan.members, first + i);
      assert plan.members[first + i] == ImageMember(plan.selections[i]);
      o.groups := o.groups + [Cancelled(OfImage(plan.selections[i].distribution, plan.selections[i].image.id))];
    }
  }

  /** `append_cancelled_after_kernel`. */
  method AppendCancelledAfterKernel(plan: Plan, ghost kernels: seq<Kernel>, o: DownloadOutcome, start: nat)
    requires Placed(plan, kernels) && KernelsAmong(plan.members) == KernelIds(kernels) && start <= |kernels|
    modifies o`groups
    ensures o.groups == old(o.groups) + CancelledFrom(plan.members, |plan.runtime.packages| + start)
  {
    var ids := KernelsAmong(plan.members);
    ghost var first, all := |plan.runtime.packages|, CancelledFrom(plan.members, |plan.runtime.packages| + start);
    for i := start to |ids|
      invariant o.groups + CancelledFrom(plan.members, first + i) == old(o.groups) + all
    {
      CancelledSplits(plan.members, first + i);
      assert plan.members[first + i] == KernelFile(kernels[i].id, kernels[i].size);
      o.groups := o.groups + [Cancelled(OfKernel(ids[i]))];
    }
    AppendCancelledAfterImage(plan, kernels, o, 0);
  }

  /** `checked_size_add`. */
  function CheckedSizeAdd(total: nat, bytes: nat): Result<nat, Error> {
    if total + bytes <= U64_MAX then Ok(total + bytes) else Err(TooLarge("completed"))
  }

  /** How a phase ends: the next one follows, the report is final, or an error is returned. */
  datatype Flow = Continue | Final | Abort(error: string)

  ghost predicate PhaseEnds(plan: Plan, sched: Schedule, next: nat, flow: Flow, r: Report, completed: nat) {
    match flow
    case Continue => Reaches(plan, sched, next, r) && completed == r.availableBytes
    case Final => exists stop :: Ends(plan, sched, stop, r)
    case Abort(error) => exists stop :: Breaks(plan, sched, stop, error)
  }

  /** The part that all phases share: count and report a verified member. The checked additions succeed. */
  method Account(plan: Plan, sched: Schedule, o: DownloadOutcome, k: nat, bytes: nat, files: seq<Disposition>,
                 before: nat)
    returns (completed: nat)
    requires k < |plan.members| && plan.members[k].bytes == bytes && TotalBytes(plan.members) <= U64_MAX
    requires Passes(plan, sched, k) && Starts(plan, sched, k) && sched.at(k).call == Finished(files)
    requires o.Value() == After(plan, sched, k).(calls := After(plan, sched, k).calls + [k])
    requires before == o.availableBytes
    modifies o
    ensures Reaches(plan, sched, k + 1, o.Value()) && completed == o.availableBytes
  {
    NextFits(plan, sched, k);
    var available, sum := CheckedSizeAdd(o.availableBytes, bytes), CheckedSizeAdd(before, bytes);
    assert available.Ok? && sum.Ok?;
    o.availableBytes, completed := available.value, sum.value;
    o.groups := o.groups + [Verified(Name(plan.members[k]), AvailabilityOf(files))];
  }

  /** Report a kernel or an image that failed, and go on. */
  method Refuse(plan: Plan, ghost sched: Schedule, o: DownloadOutcome, k: nat, reason: string)
    requires k < |plan.members| && !plan.members[k].RuntimeBinary?
    requires Passes(plan, sched, k) && Starts(plan, sched, k) && sched.at(k).call == Refused(reason)
    requires o.Value() == After(plan, sched, k).(calls := After(plan, sched, k).calls + [k])
    modifies o
    ensures Reaches(plan, sched, k + 1, o.Value()) && o.availableBytes == old(o.availableBytes)
  {
    o.groups := o.groups + [Failed(Name(plan.members[k]), reason)];
  }

  /** One runtime package, once its transfer has been started. */
  method RuntimeCall(plan: Plan, sched: Schedule, o: DownloadOutcome, k: nat, package: string, bytes: nat, before: nat)
    returns (flow: Flow, completed: nat)
    requires k < |plan.members| && plan.members[k] == RuntimeBinary(package, bytes)
    requires TotalBytes(plan.members) <= U64_MAX && Passes(plan, sched, k) && Starts(plan, sched, k)
    requires o.Value() == After(plan, sched, k).(calls := After(plan, sched, k).calls + [k])
    requires before == o.availableBytes
    modifies o
    ensures PhaseEnds(plan, sched, k + 1, flow, o.Value(), completed)
  {
    completed := before;
    AfterSizes(plan, sched, k);
    match sched.at(k).call
    case Broken(error) =>
      assert Breaks(plan, sched, k, error);
      return Abort(error), completed;
    case Finished(files) =>
      completed := Account(plan, sched, o, k, bytes, files, before);
      return Continue, completed;
    case Refused(reason) =>
      o.groups := o.groups + [Failed(OfRuntime(package), reason)];
      assert Ends(plan, sched, k, o.Value());
      return Final, completed;
    case Interrupted =>
      o.cancelled := true;
      o.groups := o.groups + [Cancelled(OfRuntime(package))];
      AppendCancelledAfterRuntime(plan, o, k + 1);
      CancelledSplits(plan.members, k);
      assert Ends(plan, sched, k, o.Value());
      return Final, completed;
  }

  /** The first phase: the runtime packages. */
  method RuntimePhase(plan: Plan, ghost kernels: seq<Kernel>, sched: Schedule, o: DownloadOutcome)
    returns (flow: Flow, completed: nat)
    requires Placed(plan, kernels) && TotalBytes(plan.members) <= U64_MAX
    requires !sched.early && o.Value() == Report([], false, 0, [])
    modifies o
    ensures PhaseEnds(plan, sched, |plan.runtime.packages|, flow, o.Value(), completed)
  {
    completed := 0;
    for k := 0 to |plan.runtime.packages|
      invariant Reaches(plan, sched, k, o.Value()) && completed == o.availableBytes
    {
      var package := plan.runtime.packages[k];
      assert plan.members[k] == RuntimeBinary(package.id, FileBytes(package.files));
      if sched.at(k).cancelled {
        o.cancelled := true;
        AppendCancelledAfterRuntime(plan, o, k);
        assert Ends(plan, sched, k, o.Value());
        return Final, completed;
      }
      NextFits(plan, sched, k);
      var size := PackageSize(package);
      assert size.Ok?;
      o.calls := o.calls + [k];
      flow, completed := RuntimeCall(plan, sched, o, k, package.id, size.value, completed);
      if flow != Continue { return; }
    }
    return Continue, completed;
  }

  /** Cancellation at a kernel. */
  method CancelAtKernel(plan: Plan, ghost kernels: seq<Kernel>, ghost sched: Schedule, o: DownloadOutcome, i: nat,
                        kernel: string)
    requires Placed(plan, kernels) && KernelsAmong(plan.members) == KernelIds(kernels) && i < |kernels|
    requires Name(plan.members[|plan.runtime.packages| + i]) == OfKernel(kernel)
    requires var k := |plan.runtime.packages| + i;
             && Passes(plan, sched, k) && CancelledAt(plan, sched, k)
             && o.Value() == After(plan, sched, k).(calls := Cut(plan, sched, k).calls)
    modifies o
    ensures Ends(plan, sched, |plan.runtime.packages| + i, o.Value())
  {
    o.cancelled := true;
    o.groups := o.groups + [Cancelled(OfKernel(kernel))];
    AppendCancelledAfterKernel(plan, kernels, o, i + 1);
    CancelledSplits(plan.members, |plan.runtime.packages| + i);
  }

  /** One kernel, once its transfer has been started. */
  method KernelCall(plan: Plan, ghost kernels: seq<Kernel>, sched: Schedule, o: DownloadOutcome, i: nat, kernel: string,
                    bytes: nat, before: nat)
    returns (flow: Flow, completed: nat)
    requires Placed(plan, kernels) && KernelsAmong(plan.members) == KernelIds(kernels) && i < |kernels|
    requires plan.members[|plan.runtime.packages| + i] == KernelFile(kernel, bytes)
    requires TotalBytes(plan.members) <= U64_MAX
    requires var k := |plan.runtime.packages| + i;
             && Passes(plan, sched, k) && Starts(plan, sched, k)
             && o.Value() == After(plan, sched, k).(calls := After(plan, sched, k).calls + [k])
    requires before == o.availableBytes
    modifies o
    ensures PhaseEnds(plan, sched, |plan.runtime.packages| + i + 1, flow, o.Value(), completed)
  {
    completed := before;
    var k := |plan.runtime.packages| + i;
    AfterSizes(plan, sched, k);
    match sched.at(k).call
    case Broken(error) =>
      assert Breaks(plan, sched, k, error);
      return Abort(error), completed;
    case Finished(files) =>
      completed := Account(plan, sched, o, k, bytes, files, before);
      return Continue, completed;
    case Refused(reason) =>
      Refuse(plan, sched, o, k, reason);
      return Continue, completed;
    case Interrupted =>
      CancelAtKernel(plan, kernels, sched, o, i, kernel);
      return Final, completed;
  }

  /** The second phase: the kernels. Those that fail are remembered. */
  method KernelPhase(plan: Plan, ghost kernels: seq<Kernel>, sched: Schedule, o: DownloadOutcome, before: nat)
    returns (flow: Flow, completed: nat, failed: set<string>)
    requires Ready(plan, kernels)
    requires Reaches(plan, sched, |plan.runtime.packages|, o.Value()) && before == o.availableBytes
    modifies o
    ensures PhaseEnds(plan, sched, Images(plan), flow, o.Value(), completed)
    ensures flow == Continue ==> failed == RefusedKernels(plan, sched, |plan.members|)
  {
    var ids := KernelsAmong(plan.members);
    RefusedLieBetween(plan, kernels, sched);
    flow, completed, failed := KernelLoop(plan, kernels, sched, o, ids, before);
  }

  method KernelLoop(plan: Plan, ghost kernels: seq<Kernel>, sched: Schedule, o: DownloadOutcome,
                    ids: seq<string>, before: nat)
    returns (flow: Flow, completed: nat, failed: set<string>)
    requires Ready(plan, kernels) && ids == KernelIds(kernels)
    requires RefusedKernels(plan, sched, |plan.runtime.packages|) == {}
    requires Reaches(plan, sched, |plan.runtime.packages|, o.Value()) && before == o.availableBytes
    modifies o
    ensures PhaseEnds(plan, sched, |plan.runtime.packages| + |ids|, flow, o.Value(), completed)
    ensures flow == Continue ==> failed == RefusedKernels(plan, sched, |plan.runtime.packages| + |ids|)
  {
    flow, completed, failed := Continue, before, {};
    var i := 0;
    while i < |ids| && flow == Continue
      invariant 0 <= i <= |ids|
      invariant PhaseEnds(plan, sched, |plan.runtime.packages| + i, flow, o.Value(), completed)
      invariant flow == Continue ==> failed == RefusedKernels(plan, sched, |plan.runtime.packages| + i)
      decreases |ids| - i
    {
      flow, completed, failed := KernelStep(plan, kernels, sched, o, i, ids[i], completed, failed);
      i := i + 1;
    }
  }

  lemma RefusedLieBetween(plan: Plan, kernels: seq<Kernel>, sched: Schedule)
    requires Placed(plan, kernels)
    ensures RefusedKernels(plan, sched, |plan.runtime.packages|) == {}
    ensures RefusedKernels(plan, sched, Images(plan)) == RefusedKernels(plan, sched, |plan.members|)
  {
    NoKernelAfter(plan, kernels);
    OnlyKernelsAreRefused(plan, sched, 0, |plan.runtime.packages|);
    OnlyKernelsAreRefused(plan, sched, Images(plan), |plan.members|);
  }

  lemma NoKernelAfter(plan: Plan, kernels: seq<Kernel>)
    requires Placed(plan, kernels)
    ensures forall k | Images(plan) <= k < |plan.members| :: !plan.members[k].KernelFile?
  {
    forall k | Images(plan) <= k < |plan.members| ensures !plan.members[k].KernelFile? {
      assert plan.members[k] == ImageMember(plan.selections[k - Images(plan)]);
    }
  }

  method KernelStep(plan: Plan, ghost kernels: seq<Kernel>, sched: Schedule, o: DownloadOutcome, i: nat, kernel: string,
                    before: nat, refused: set<string>)
    returns (flow: Flow, completed: nat, failed: set<string>)
    requires Ready(plan, kernels) && i < |kernels| && kernel == kernels[i].id
    requires var k := |plan.runtime.packages| + i;
             Reaches(plan, sched, k, o.Value()) && refused == RefusedKernels(plan, sched, k)
    requires before == o.availableBytes
    modifies o
    ensures PhaseEnds(plan, sched, |plan.runtime.packages| + i + 1, flow, o.Value(), completed)
    ensures flow == Continue ==> failed == RefusedKernels(plan, sched, |plan.runtime.packages| + i + 1)
  {
    completed, failed := before, refused;
    var k := |plan.runtime.packages| + i;
    assert plan.members[k] == KernelFile(kernels[i].id, kernels[i].size);
    if sched.at(k).cancelled {
      CancelAtKernel(plan, kernels, sched, o, i, kernel);
      return Final, completed, failed;
    }
    var found := First(plan.members, IsKernelMember(kernel));
    assert found.Some?;
    o.calls := o.calls + [k];
    if sched.at(k).call.Refused? {
      failed := failed + {kernel};
    }
    flow, completed := KernelCall(plan, kernels, sched, o, i, kernel, found.value.bytes, completed);
  }

  lemma {:induction false} OnlyKernelsAreRefused(plan: Plan, sched: Schedule, from: nat, to: nat)
    requires from <= to <= |plan.members|
    requires forall i | from <= i < to :: !plan.members[i].KernelFile?
    ensures RefusedKernels(plan, sched, to) == RefusedKernels(plan, sched, from)
  {
    if from < to {
      OnlyKernelsAreRefused(plan, sched, from, to - 1);
    }
  }

  /** Cancellation at an image. */
  method CancelAtImage(plan: Plan, ghost kernels: seq<Kernel>, ghost sched: Schedule, o: DownloadOutcome, i: nat)
    requires Placed(plan, kernels) && i < |plan.selections|
    requires var k := Images(plan) + i;
             && Passes(plan, sched, k) && CancelledAt(plan, sched, k)
             && o.Value() == After(plan, sched, k).(calls := Cut(plan, sched, k).calls)
    modifies o
    ensures Ends(plan, sched, Images(plan) + i, o.Value())
  {
    var s := plan.selections[i];
    assert plan.members[Images(plan) + i] == ImageMember(s);
    o.cancelled := true;
    o.groups := o.groups + [Cancelled(OfImage(s.distribution, s.image.id))];
    AppendCancelledAfterImage(plan, kernels, o, i + 1);
    CancelledSplits(plan.members, Images(plan) + i);
  }

  /** One image that is not skipped, once its transfer has been started. */
  method ImageCall(plan: Plan, ghost kernels: seq<Kernel>, sched: Schedule, o: DownloadOutcome, i: nat, before: nat)
    returns (flow: Flow, completed: nat)
    requires Placed(plan, kernels) && TotalBytes(plan.members) <= U64_MAX && i < |plan.selections|
    requires var k := Images(plan) + i;
             && k > 0 && Passes(plan, sched, k) && Starts(plan, sched, k)
             && o.Value() == After(plan, sched, k).(calls := After(plan, sched, k).calls + [k])
    requires before == o.availableBytes
    modifies o
    ensures PhaseEnds(plan, sched, Images(plan) + i + 1, flow, o.Value(), completed)
  {
    completed := before;
    var k, s := Images(plan) + i, plan.selections[i];
    assert plan.members[k] == ImageMember(s);
    AfterSizes(plan, sched, k);
    match sched.at(k).call
    case Broken(error) =>
      assert Breaks(plan, sched, k, error);
      return Abort(error), completed;
    case Finished(files) =>
      completed := Account(plan, sched, o, k, s.image.size, files, before);
      return Continue, completed;
    case Refused(reason) =>
      Refuse(plan, sched, o, k, reason);
      return Continue, completed;
    case Interrupted =>
      CancelAtImage(plan, kernels, sched, o, i);
      return Final, completed;
  }

  /** One image: skipped when its kernel failed, and only otherwise is cancellation looked at. */
  method ImageStep(plan: Plan, ghost kernels: seq<Kernel>, sched: Schedule, o: DownloadOutcome, i: nat, before: nat,
                   failed: set<string>)
    returns (flow: Flow, completed: nat)
    requires Placed(plan, kernels) && TotalBytes(plan.members) <= U64_MAX && i < |plan.selections|
    requires failed == RefusedKernels(plan, sched, |plan.members|)
    requires Images(plan) > 0 && Reaches(plan, sched, Images(plan) + i, o.Value()) && before == o.availableBytes
    modifies o
    ensures PhaseEnds(plan, sched, Images(plan) + i + 1, flow, o.Value(), completed)
  {
    completed := before;
    var k, s := Images(plan) + i, plan.selections[i];
    assert plan.members[k] == ImageMember(s);
    if s.kernel.id in failed {
      o.groups := o.groups + [Skipped(OfImage(s.distribution, s.image.id), s.kernel.id)];
      return Continue, completed;
    }
    if sched.at(k).cancelled {
      CancelAtImage(plan, kernels, sched, o, i);
      return Final, completed;
    }
    o.calls := o.calls + [k];
    flow, completed := ImageCall(plan, kernels, sched, o, i, completed);
  }

  /** The third phase: the images. */
  method ImagePhase(plan: Plan, ghost kernels: seq<Kernel>, sched: Schedule, o: DownloadOutcome, before: nat,
                    failed: set<string>)
    returns (flow: Flow, completed: nat)
    requires Placed(plan, kernels) && TotalBytes(plan.members) <= U64_MAX && Images(plan) > 0
    requires failed == RefusedKernels(plan, sched, |plan.members|)
    requires Reaches(plan, sched, Images(plan), o.Value()) && before == o.availableBytes
    modifies o
    ensures PhaseEnds(plan, sched, |plan.members|, flow, o.Value(), completed)
  {
    completed := before;
    for i := 0 to |plan.selections|
      invariant Reaches(plan, sched, Images(plan) + i, o.Value()) && completed == o.availableBytes
    {
      flow, completed := ImageStep(plan, kernels, sched, o, i, completed, failed);
      if flow != Continue { return; }
    }
    return Continue, completed;
  }

  method RunPhases(plan: Plan, ghost kernels: seq<Kernel>, sched: Schedule, o: DownloadOutcome) returns (flow: Flow)
    requires Ready(plan, kernels) && !sched.early && o.Value() == Report([], false, 0, [])
    modifies o
    ensures match flow
            case Continue => Ends(plan, sched, |plan.members|, o.Value())
            case Final => exists stop :: Ends(plan, sched, stop, o.Value())
            case Abort(error) => exists stop :: Breaks(plan, sched, stop, error)
  {
    var completed, failed;
    flow, completed := RuntimePhase(plan, kernels, sched, o);
    if flow != Continue { return; }
    flow, completed, failed := KernelPhase(plan, kernels, sched, o, completed);
    if flow != Continue { return; }
    flow, completed := ImagePhase(plan, kernels, sched, o, completed, failed);
  }

  /**
    `execute_plan_with_signals`: for every schedule, the report tells the story of the run exactly, and an error
    comes only from a broken signal handler or progress event, never from adding up sizes.
  */
  method Execute(plan: Plan, sched: Schedule) returns (r: Result<DownloadOutcome, string>)
    requires BuiltPlan(plan)
    ensures r.Err? ==> exists stop :: Breaks(plan, sched, stop, r.error)
    ensures r.Ok? ==>
      && fresh(r.value) && r.value.expectedBytes == plan.expectedBytes
      && exists stop :: Ends(plan, sched, stop, r.value.Value())
  {
    ghost var kernels :| BuiltFrom(plan, kernels);
    PlanIsReady(plan, kernels);
    r := ExecuteReady(plan, kernels, sched);
  }

  method ExecuteReady(plan: Plan, ghost kernels: seq<Kernel>, sched: Schedule)
    returns (r: Result<DownloadOutcome, string>)
    requires Ready(plan, kernels)
    ensures r.Err? ==> exists stop :: Breaks(plan, sched, stop, r.error)
    ensures r.Ok? ==>
      && fresh(r.value) && r.value.expectedBytes == plan.expectedBytes
      && exists stop :: Ends(plan, sched, stop, r.value.Value())
  {
    var o := new DownloadOutcome(plan.expectedBytes);
    if sched.early {
      o.cancelled := true;
      AppendCancelledAfterRuntime(plan, o, 0);
      assert Ends(plan, sched, 0, o.Value());
      return Ok(o);
    }
    var flow := RunPhases(plan, kernels, sched, o);
    if flow.Abort? { return Err(flow.error); }
    return Ok(o);
  }
}
