/** What the report of a download says, whatever failed and whenever it was cancelled. */
module Reports {
  import opened Wrappers
  import opened Packages
  import opened Planner
  import opened Executor

  // ---------------------------------------------------------------------------------------------------
  // The story, member by member
  // ---------------------------------------------------------------------------------------------------

  lemma {:induction false} PassesAll(plan: Plan, sched: Schedule, k: nat, j: nat)
    requires Passes(plan, sched, k) && j < k
    ensures !Halts(plan, sched, j) && Passes(plan, sched, j)
  {
    if j < k - 1 {
      PassesAll(plan, sched, k - 1, j);
    }
  }

  lemma {:induction false} AfterAt(plan: Plan, sched: Schedule, k: nat, j: nat)
    requires j < k <= |plan.members|
    ensures |After(plan, sched, k).groups| == k && After(plan, sched, k).groups[j] == GroupAt(plan, sched, j)
  {
    AfterSizes(plan, sched, k - 1);
    if j < k - 1 {
      AfterAt(plan, sched, k - 1, j);
    }
  }

  ghost predicate Rising(calls: seq<nat>) {
    forall i, j | 0 <= i < j < |calls| :: calls[i] < calls[j]
  }

  ghost function SkipsOf(plan: Plan, sched: Schedule): int -> bool {
    j => Skips(plan, sched, j)
  }

  /** The transfers started are those of the members that are not skipped. */
  ghost predicate CallsAre(skips: int -> bool, k: nat, calls: seq<nat>) {
    forall j :: j in calls <==> 0 <= j < k && !skips(j)
  }

  ghost function CallsUpTo(skips: int -> bool, k: nat): seq<nat> {
    if k == 0 then [] else CallsUpTo(skips, k - 1) + if skips(k - 1) then [] else [k - 1]
  }

  lemma {:induction false} CallsUpToMeans(skips: int -> bool, k: nat)
    ensures CallsAre(skips, k, CallsUpTo(skips, k)) && Rising(CallsUpTo(skips, k))
  {
    if k > 0 {
      var before := CallsUpTo(skips, k - 1);
      CallsUpToMeans(skips, k - 1);
      forall i | 0 <= i < |before| ensures before[i] < k - 1 {
        assert before[i] in before;
      }
    }
  }

  lemma {:induction false} CallsOfAfter(plan: Plan, sched: Schedule, k: nat)
    requires k <= |plan.members|
    ensures After(plan, sched, k).calls == CallsUpTo(SkipsOf(plan, sched), k)
  {
    if k > 0 {
      CallsOfAfter(plan, sched, k - 1);
    }
  }

  lemma {:induction false} CallsAfter(plan: Plan, sched: Schedule, k: nat)
    requires k <= |plan.members|
    ensures var calls := After(plan, sched, k).calls; CallsAre(SkipsOf(plan, sched), k, calls) && Rising(calls)
  {
    CallsOfAfter(plan, sched, k);
    CallsUpToMeans(SkipsOf(plan, sched), k);
  }

  lemma {:induction false} RefusedMeans(plan: Plan, sched: Schedule, k: nat, id: string)
    requires k <= |plan.members|
    ensures id in RefusedKernels(plan, sched, k) <==>
            exists j | 0 <= j < k ::
              plan.members[j].KernelFile? && plan.members[j].kernel == id && sched.at(j).call.Refused?
  {
    if k > 0 {
      RefusedMeans(plan, sched, k - 1, id);
    }
  }

  lemma FirstHalt(plan: Plan, sched: Schedule, a: nat, b: nat)
    requires Passes(plan, sched, a) && Passes(plan, sched, b)
    requires a <= |plan.members| && (a < |plan.members| ==> Halts(plan, sched, a))
    requires b <= |plan.members| && (b < |plan.members| ==> Halts(plan, sched, b))
    ensures a == b
  {
    if a < b {
      PassesAll(plan, sched, b, a);
    } else if b < a {
      PassesAll(plan, sched, a, b);
    }
  }

  /** A plan and a schedule have one story: one report, or an error, never both. */
  lemma OneStory(plan: Plan, sched: Schedule, a: nat, r: Report)
    requires Ends(plan, sched, a, r)
    ensures forall b: nat, q | Ends(plan, sched, b, q) :: b == a && q == r
    ensures forall b: nat, e :: !Breaks(plan, sched, b, e)
  {
    forall b: nat, q | Ends(plan, sched, b, q) ensures b == a && q == r {
      FirstHalt(plan, sched, a, b);
    }
    forall b: nat, e | Breaks(plan, sched, b, e) ensures false {
      FirstHalt(plan, sched, a, b);
    }
  }

  // ---------------------------------------------------------------------------------------------------
  // The report agrees with the plan
  // ---------------------------------------------------------------------------------------------------

  lemma GroupsOf(plan: Plan, sched: Schedule, stop: nat, r: Report, i: nat)
    requires Ends(plan, sched, stop, r) && i < |plan.members|
    ensures i < stop ==> i < |r.groups| && r.groups[i] == GroupAt(plan, sched, i)
    ensures i >= stop && r.cancelled ==> i < |r.groups| && r.groups[i] == Cancelled(Name(plan.members[i]))
    ensures i == stop && !r.cancelled ==> i < |r.groups| && r.groups[i] == GroupAt(plan, sched, i)
    ensures |r.groups| == if stop < |plan.members| && !r.cancelled then stop + 1 else |plan.members|
    ensures r.cancelled <==> stop < |plan.members| && CancelledAt(plan, sched, stop)
  {
    AfterSizes(plan, sched, stop);
    if i < stop {
      AfterAt(plan, sched, stop, i);
    }
  }

  /**
    Each group says what happened to its member: verified or failed exactly when its transfer was started and ended
    so, skipped when its kernel failed, and cancelled otherwise.
  */
  lemma GroupsSayWhatHappened(plan: Plan, sched: Schedule, stop: nat, r: Report, i: nat)
    requires Ends(plan, sched, stop, r) && i < |r.groups| && i < |plan.members|
    ensures r.groups[i].Verified? <==> i in r.calls && sched.at(i).call.Finished?
    ensures r.groups[i].Verified? ==> r.groups[i].availability == AvailabilityOf(sched.at(i).call.files)
    ensures r.groups[i].Failed? <==> i in r.calls && sched.at(i).call.Refused?
    ensures r.groups[i].Failed? ==> r.groups[i].reason == sched.at(i).call.reason
    ensures r.groups[i].Skipped? ==> i !in r.calls && Images(plan) <= i && r.groups[i].kernel == KernelFor(plan, i)
    ensures r.groups[i].Cancelled? ==> i !in r.calls || sched.at(i).call.Interrupted?
  {
    GroupsOf(plan, sched, stop, r, i);
    CallsOf(plan, sched, stop, r);
    CalledStart(plan, sched, stop, r, i);
    if i < stop {
      PassesAll(plan, sched, stop, i);
    }
  }

  /** The member at which the run stopped was called exactly if its transfer starts. */
  lemma CalledStart(plan: Plan, sched: Schedule, stop: nat, r: Report, i: nat)
    requires Ends(plan, sched, stop, r) && i < |plan.members|
    ensures i > stop ==> i !in r.calls
    ensures i == stop ==> (i in r.calls <==> Starts(plan, sched, i))
    ensures i < stop ==> (i in r.calls <==> !Skips(plan, sched, i))
  {
    CallsAfter(plan, sched, stop);
  }

  /** The labels of the groups are those of the members, in order, as far as the groups go. */
  ghost predicate LabelsMatch(plan: Plan, r: Report) {
    |r.groups| <= |plan.members| && forall i | 0 <= i < |r.groups| :: r.groups[i].of == Name(plan.members[i])
  }

  /**
    One group per member, in order. They are all there unless a runtime package failed, whose group is then the
    last; and a cancelled run names at least one member as cancelled.
  */
  lemma GroupsFollowThePlan(plan: Plan, sched: Schedule, stop: nat, r: Report)
    requires Ends(plan, sched, stop, r) && plan.members != []
    ensures LabelsMatch(plan, r) && r.groups != []
    ensures |r.groups| == |plan.members|
            || (plan.members[|r.groups| - 1].RuntimeBinary? && r.groups[|r.groups| - 1].Failed?)
    ensures r.cancelled ==> |r.groups| == |plan.members| && r.groups[|r.groups| - 1].Cancelled?
  {
    GroupsOf(plan, sched, stop, r, 0);
    forall i | 0 <= i < |r.groups| ensures r.groups[i].of == Name(plan.members[i]) {
      GroupsOf(plan, sched, stop, r, i);
    }
    GroupsOf(plan, sched, stop, r, |r.groups| - 1);
  }

  lemma AvailableIsVerified(plan: Plan, sched: Schedule, stop: nat, r: Report)
    requires Ends(plan, sched, stop, r)
    ensures |r.groups| <= |plan.members| && r.availableBytes == VerifiedBytes(plan.members, r.groups)
  {
    AfterSizes(plan, sched, stop);
    var before := After(plan, sched, stop).groups;
    if stop < |plan.members| {
      UnverifiedAddNothing(plan.members, before, CancelledFrom(plan.members, stop));
      if !r.cancelled {
        UnverifiedAddNothing(plan.members, before, [GroupAt(plan, sched, stop)]);
      }
    }
  }

  /** The available bytes are those of the verified members, and never more than the plan expects. */
  lemma BytesAreExact(plan: Plan, sched: Schedule, stop: nat, r: Report)
    requires Ends(plan, sched, stop, r)
    ensures |r.groups| <= |plan.members|
    ensures r.availableBytes == VerifiedBytes(plan.members, r.groups) <= TotalBytes(plan.members)
    ensures |r.groups| == |plan.members| && AllVerified(r.groups) ==>
              r.availableBytes == TotalBytes(plan.members)
  {
    AvailableIsVerified(plan, sched, stop, r);
    VerifiedFits(plan.members, r.groups);
    PrefixTotal(plan.members, |r.groups|);
    assert plan.members[..|plan.members|] == plan.members;
  }

  ghost predicate AllVerified(groups: seq<MemberOutcome>) {
    forall i | 0 <= i < |groups| :: groups[i].Verified?
  }

  /** `exit_code`, of a report. */
  ghost function ExitCodeOf(r: Report): nat {
    if r.cancelled then 130 else if AllVerified(r.groups) then 0 else 1
  }

  ghost predicate SomeCancelled(groups: seq<MemberOutcome>) {
    exists i | 0 <= i < |groups| :: groups[i].Cancelled?
  }

  lemma ReportCodeIsExact(plan: Plan, sched: Schedule, stop: nat, r: Report)
    requires Ends(plan, sched, stop, r) && plan.members != []
    ensures ExitCodeOf(r) == 0 <==> |r.groups| == |plan.members| && AllVerified(r.groups)
    ensures ExitCodeOf(r) == 130 <==> SomeCancelled(r.groups)
  {
    GroupsFollowThePlan(plan, sched, stop, r);
    CancelledMeansInterrupted(plan, sched, stop, r);
    LastDecides(r);
  }

  /** What the last group of a run says about the whole. */
  lemma LastDecides(r: Report)
    requires r.groups != []
    ensures AllVerified(r.groups) ==> r.groups[|r.groups| - 1].Verified?
    ensures r.groups[|r.groups| - 1].Cancelled? ==> SomeCancelled(r.groups)
  {
  }

  /**
    The exit code: zero exactly when every member of the plan was verified, and then every expected byte is
    available; 130 exactly when some member is reported as cancelled.
  */
  lemma ExitCodeIsExact(plan: Plan, sched: Schedule, stop: nat, o: DownloadOutcome)
    requires BuiltPlan(plan) && Ends(plan, sched, stop, o.Value())
    ensures o.ExitCode() == 0 <==> |o.groups| == |plan.members| && AllVerified(o.groups)
    ensures o.ExitCode() == 130 <==> SomeCancelled(o.groups)
    ensures o.ExitCode() == 0 ==> o.availableBytes == plan.expectedBytes
    ensures o.availableBytes <= plan.expectedBytes
  {
    BuiltHasMembers(plan);
    ReportCodeIsExact(plan, sched, stop, o.Value());
    BytesAreExact(plan, sched, stop, o.Value());
    assert o.ExitCode() == ExitCodeOf(o.Value());
  }

  lemma BuiltHasMembers(plan: Plan)
    requires BuiltPlan(plan)
    ensures plan.members != [] && plan.expectedBytes == TotalBytes(plan.members)
  {
    var kernels :| BuiltFrom(plan, kernels);
    PlanIsPlaced(plan, kernels);
  }

  lemma CancelledMeansInterrupted(plan: Plan, sched: Schedule, stop: nat, r: Report)
    requires Ends(plan, sched, stop, r)
    ensures !r.cancelled ==> forall i | 0 <= i < |r.groups| :: !r.groups[i].Cancelled?
  {
    forall i | 0 <= i < |r.groups| && !r.cancelled ensures !r.groups[i].Cancelled? {
      AfterSizes(plan, sched, stop);
      GroupsOf(plan, sched, stop, r, i);
      if i < stop {
        PassesAll(plan, sched, stop, i);
      }
    }
  }

  // ---------------------------------------------------------------------------------------------------
  // What waits for what
  // ---------------------------------------------------------------------------------------------------

  lemma CallsOf(plan: Plan, sched: Schedule, stop: nat, r: Report)
    requires Ends(plan, sched, stop, r)
    ensures forall j | j in r.calls :: j <= stop && j < |plan.members| && !Skips(plan, sched, j)
    ensures forall j | 0 <= j < stop && !Skips(plan, sched, j) :: j in r.calls
    ensures Rising(r.calls)
  {
    CallsAfter(plan, sched, stop);
    var before := After(plan, sched, stop).calls;
    forall i | 0 <= i < |before| ensures before[i] < stop {
      assert before[i] in before;
    }
  }

  /** A member that the run got past, was not skipped and did not fail, was transferred and verified. */
  lemma PassedWasVerified(plan: Plan, sched: Schedule, stop: nat, r: Report, j: nat)
    requires Ends(plan, sched, stop, r) && j < stop
    requires !Skips(plan, sched, j) && !sched.at(j).call.Refused?
    ensures j < |r.groups| && r.groups[j].Verified? && j in r.calls
  {
    PassesAll(plan, sched, stop, j);
    GroupsOf(plan, sched, stop, r, j);
    CallsOf(plan, sched, stop, r);
  }

  /** Where the kernel of an image is. */
  lemma KernelIndex(plan: Plan, kernels: seq<Kernel>, k: nat) returns (j: nat)
    requires Placed(plan, kernels) && KernelsOf(plan.selections, kernels) && Images(plan) <= k < |plan.members|
    ensures |plan.runtime.packages| <= j < Images(plan)
    ensures plan.members[j].KernelFile? && plan.members[j].kernel == KernelFor(plan, k)
  {
    var s := plan.selections[k - Images(plan)];
    assert s in plan.selections;
    var i :| 0 <= i < |kernels| && kernels[i] == s.kernel;
    j := |plan.runtime.packages| + i;
    assert plan.members[j] == KernelFile(kernels[i].id, kernels[i].size);
  }

  lemma OneKernel(plan: Plan, kernels: seq<Kernel>, i: nat, j: nat)
    requires BuiltFrom(plan, kernels) && i < |plan.members| && j < |plan.members|
    requires plan.members[i].KernelFile? && plan.members[j].KernelFile?
    requires plan.members[i].kernel == plan.members[j].kernel
    ensures i == j
  {
    assert SameArtifact(plan.members[i], plan.members[j]) && SameArtifact(plan.members[j], plan.members[i]);
  }

  lemma CalledBefore(calls: seq<nat>, at: nat, j: nat)
    requires at < |calls| && j in calls && j < calls[at]
    requires Rising(calls)
    ensures j in calls[..at]
  {
    var i :| 0 <= i < |calls| && calls[i] == j;
    assert i < at;
    assert calls[..at][i] == j;
  }

  /** Member `j` was verified, by a transfer made before the one at position `at`. */
  ghost predicate VerifiedBefore(r: Report, at: nat, j: int)
    requires at <= |r.calls|
  {
    j in r.calls[..at] && 0 <= j < |r.groups| && r.groups[j].Verified?
  }

  lemma NeededIsVerified(plan: Plan, sched: Schedule, stop: nat, r: Report, at: nat, j: nat)
    requires Ends(plan, sched, stop, r) && at < |r.calls| && j < r.calls[at] <= |plan.members| && j < Images(plan)
    requires plan.members[j].RuntimeBinary? || !sched.at(j).call.Refused?
    ensures VerifiedBefore(r, at, j)
  {
    CallsOf(plan, sched, stop, r);
    assert r.calls[at] in r.calls;
    PassesAll(plan, sched, stop, j);
    PassedWasVerified(plan, sched, stop, r, j);
    CalledBefore(r.calls, at, j);
  }

  lemma SkipsExactly(plan: Plan, kernels: seq<Kernel>, sched: Schedule, k: nat, j: nat)
    requires BuiltFrom(plan, kernels) && Images(plan) <= k < |plan.members| && j < |plan.members|
    requires plan.members[j].KernelFile? && plan.members[j].kernel == KernelFor(plan, k)
    ensures Skips(plan, sched, k) <==> sched.at(j).call.Refused?
  {
    RefusedMeans(plan, sched, |plan.members|, KernelFor(plan, k));
    if i :| 0 <= i < |plan.members| && plan.members[i].KernelFile? && plan.members[i].kernel == KernelFor(plan, k)
            && sched.at(i).call.Refused?
    {
      OneKernel(plan, kernels, i, j);
    }
  }

  /**
    When the transfer of an image starts, every runtime package and the image's own kernel have been transferred
    before it, and verified.
  */
  lemma ImagesWait(plan: Plan, sched: Schedule, stop: nat, r: Report, at: nat)
    requires BuiltPlan(plan) && Ends(plan, sched, stop, r)
    requires at < |r.calls| && Images(plan) <= r.calls[at] < |plan.members|
    ensures forall j | 0 <= j < |plan.members| && plan.members[j].RuntimeBinary? :: VerifiedBefore(r, at, j)
    ensures forall j | 0 <= j < |plan.members| && plan.members[j] in KernelsNamed(plan, KernelFor(plan, r.calls[at])) ::
              VerifiedBefore(r, at, j)
    ensures KernelsNamed(plan, KernelFor(plan, r.calls[at])) != {}
  {
    var kernels :| BuiltFrom(plan, kernels);
    var k := r.calls[at];
    CallsOf(plan, sched, stop, r);
    assert k in r.calls;
    PlanIsPlaced(plan, kernels);
    NothingElseAfter(plan, kernels);
    forall j | 0 <= j < |plan.members| && plan.members[j].RuntimeBinary? ensures VerifiedBefore(r, at, j) {
      NeededIsVerified(plan, sched, stop, r, at, j);
    }
    forall j | 0 <= j < |plan.members| && plan.members[j] in KernelsNamed(plan, KernelFor(plan, k))
      ensures VerifiedBefore(r, at, j)
    {
      SkipsExactly(plan, kernels, sched, k, j);
      NeededIsVerified(plan, sched, stop, r, at, j);
    }
    var j := KernelIndex(plan, kernels, k);
    assert plan.members[j] in KernelsNamed(plan, KernelFor(plan, k));
  }

  /** The members of the plan for a kernel. */
  ghost function KernelsNamed(plan: Plan, id: string): set<Member> {
    set m | m in plan.members && m.KernelFile? && m.kernel == id
  }

  lemma NothingElseAfter(plan: Plan, kernels: seq<Kernel>)
    requires Placed(plan, kernels)
    ensures forall k | Images(plan) <= k < |plan.members| :: plan.members[k].DistributionImage?
  {
    forall k | Images(plan) <= k < |plan.members| ensures plan.members[k].DistributionImage? {
      assert plan.members[k] == ImageMember(plan.selections[k - Images(plan)]);
    }
  }

  /** An image that the run reached is skipped exactly when its own kernel failed. */
  lemma SkippedExactly(plan: Plan, sched: Schedule, stop: nat, r: Report, k: nat, j: nat)
    requires BuiltPlan(plan) && Ends(plan, sched, stop, r)
    requires Images(plan) <= k <= stop && k < |plan.members| && j < |plan.members|
    requires plan.members[j] == KernelFile(KernelFor(plan, k), plan.members[j].bytes)
    ensures k < |r.groups| && j < |r.groups|
    ensures r.groups[k].Skipped? <==> r.groups[j].Failed?
  {
    var kernels :| BuiltFrom(plan, kernels);
    PlanIsPlaced(plan, kernels);
    NothingElseAfter(plan, kernels);
    SkipsExactly(plan, kernels, sched, k, j);
    SkippedByCall(plan, sched, stop, r, k, j);
  }

  lemma SkippedByCall(plan: Plan, sched: Schedule, stop: nat, r: Report, k: nat, j: nat)
    requires Ends(plan, sched, stop, r) && j < Images(plan) <= k <= stop && k < |plan.members|
    requires plan.members[k].DistributionImage? && (Skips(plan, sched, k) <==> sched.at(j).call.Refused?)
    ensures k < |r.groups| && j < |r.groups|
    ensures r.groups[k].Skipped? <==> r.groups[j].Failed?
  {
    GroupsOf(plan, sched, stop, r, k);
    GroupsOf(plan, sched, stop, r, j);
  }
}
