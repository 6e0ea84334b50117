/**
  Whole runs of lifecycle calls on one VM: any sequence of start, stop and update, each run to its end or cut
  short by a crash of the SDK at one of its instants, with any port failing and the process exiting by itself.
*/
module Runs {
  import opened Wrappers
  import opened Host
  import Lifecycle
  import Update

  datatype Call =
    | Start
    | Stop
    | Change(request: Update.Request, manifest: Option<Update.Requirements>)

  datatype Reply =
    | Started(start: Result<nat, Lifecycle.Error>)
    | Halted(stop: Result<bool, Lifecycle.Error>)
    | Changed(change: Result<Update.Updated, Update.Error>)
    | Crashed

  /** A process is alive, and the row says that nothing runs. */
  ghost predicate Untracked(w: World) {
    w.live != {} && w.runtime.Some? && w.runtime.value.pid.None?
  }

  /** The only replies after which a process may be untracked. */
  ghost predicate MayLoseTrack(call: Call, reply: Reply) {
    call.Start? && (reply.Crashed? || (reply.Started? && Lifecycle.LosesIdentity(reply.start)))
  }

  /** What holds at an instant of a tracked run: at most one process, never without its mapping, a sound disk. */
  ghost predicate SafeInstant(e: Entry) {
    && AtMostOne(e.world.live)
    && (e.world.live != {} ==> e.world.mapped)
    && DiskSound(e.world)
    && (e.event.Released? ==> e.world.live == {})
    && (e.event.Launched? ==>
          e.world.live == {e.event.process} && e.world.mapped && e.world.fileLen == e.world.resources.diskBytes)
  }

  /** The call-level safety of a trace is safety at each of its instants. */
  lemma SafeTraceIsSafe(t: seq<Entry>, from: nat, launched: Option<Process>)
    requires AllSafe(t, from, launched)
    ensures forall i | from <= i < |t| :: SafeInstant(t[i])
  {
    forall i | from <= i < |t| ensures SafeInstant(t[i]) {
      if Guarded(t[i]) {
        assert AtMostOne(t[i].world.live) by {
          forall p, q | p in t[i].world.live && q in t[i].world.live ensures p == q {
            assert Names(t[i].world.runtime, p) && Names(t[i].world.runtime, q);
          }
        }
      } else if t[i].event.Launched? {
        assert t[i].world.live == {t[i].event.process};
      }
    }
  }

  /** One call, run to its end. */
  method Perform(h: Host, call: Call) returns (reply: Reply, ghost launched: Option<Process>)
    modifies h
    ensures old(h.trace) <= h.trace
    ensures reply.Started? <==> call.Start?
    ensures !reply.Crashed?
    ensures launched.Some? ==> call.Start?
    ensures Inv(old(h.w)) ==> AllSafe(h.trace, |old(h.trace)|, launched)
    ensures Inv(old(h.w)) ==> (Inv(h.w) <==> !(MayLoseTrack(call, reply) && h.w.live != {}))
    ensures Inv(old(h.w)) ==> Inv(h.w) || Untracked(h.w)
  {
    launched := None;
    match call {
      case Start =>
        var r;
        r, launched := Lifecycle.Start(h);
        reply := Started(r);
      case Stop =>
        var r := Lifecycle.Stop(h);
        reply := Halted(r);
      case Change(request, manifest) =>
        var r := Update.Update(h, request, manifest);
        reply := Changed(r);
    }
  }

  /**
    One call, run to its end or cut short by a crash. Everything after the instant of the crash never
    happened, so the crashed call leaves the world its trace shows at that instant.
  */
  method PerformOrCrash(h: Host, call: Call, crashes: bool) returns (reply: Reply)
    modifies h
    ensures old(h.trace) <= h.trace
    ensures Inv(old(h.w)) ==> forall i | |old(h.trace)| <= i < |h.trace| :: SafeInstant(h.trace[i])
    ensures reply.Crashed? ==> |h.trace| > |old(h.trace)| && h.w == h.trace[|h.trace| - 1].world
    ensures Inv(old(h.w)) ==> Inv(h.w) || (MayLoseTrack(call, reply) && Untracked(h.w))
  {
    var from := |h.trace|;
    ghost var launched;
    reply, launched := Perform(h, call);
    if Inv(old(h.w)) {
      SafeTraceIsSafe(h.trace, from, launched);
    }
    if crashes && from < |h.trace| {
      var instant := *;
      if from <= instant < |h.trace| {
        var cut := h.trace[..instant + 1];
        assert Inv(old(h.w)) ==>
          || Guarded(h.trace[instant])
          || (launched.Some? && Unrecorded(h.trace[instant], launched.value));
        h.w := h.trace[instant].world;
        h.trace := cut;
        reply := Crashed;
      }
    }
  }

  /**
    A row write that outlives its dropped call is not a move of these runs. When one lands, the invariant survives
    exactly if the late row names every process that is alive; the `stopped` row of a dropped stop never does.
  */
  lemma LateRowKeepsTrackExactly(w: World, late: Runtime)
    requires Inv(w)
    ensures Inv(w.(runtime := Some(late))) <==> forall p | p in w.live :: Names(Some(late), p)
    ensures w.live != {} && late == Lifecycle.StoppedRow(late.tools) ==>
              Untracked(w.(runtime := Some(late))) && !Inv(w.(runtime := Some(late)))
  {
    if w.live != {} {
      var p :| p in w.live;
      assert Names(Some(late), p) ==> late.pid == Some(p.pid);
    }
  }

  /**
    The main theorem on runs. From a world that satisfies the invariant, through any calls that end or crash, and any
    failures and exits: the invariant holds at every call boundary, and at every instant at most one process is alive
    and never without its mapping, for as long as no start lost track of its process; and nothing but a start that
    reported the loss, or crashed, ever does.
  */
  method Run(h: Host, calls: seq<Call>, crashes: seq<bool>)
    returns (replies: seq<Reply>, ghost boundaries: seq<World>)
    requires |crashes| == |calls|
    modifies h
    ensures |replies| == |calls| && |boundaries| == |calls| + 1
    ensures boundaries[0] == old(h.w) && boundaries[|calls|] == h.w
    ensures old(h.trace) <= h.trace
    ensures forall k | 0 <= k < |calls| && Inv(boundaries[k]) ::
              Inv(boundaries[k + 1]) || (MayLoseTrack(calls[k], replies[k]) && Untracked(boundaries[k + 1]))
    ensures Inv(old(h.w)) && (forall k | 0 <= k < |boundaries| :: !Untracked(boundaries[k])) ==>
              && (forall k | 0 <= k < |boundaries| :: Inv(boundaries[k]))
              && (forall i | |old(h.trace)| <= i < |h.trace| :: SafeInstant(h.trace[i]))
  {
    replies, boundaries := [], [h.w];
    ghost var from := |h.trace|;
    for k := 0 to |calls|
      invariant |replies| == k && |boundaries| == k + 1
      invariant boundaries[0] == old(h.w) && boundaries[k] == h.w
      invariant old(h.trace) <= h.trace
      invariant forall j | 0 <= j < k && Inv(boundaries[j]) ::
                  Inv(boundaries[j + 1]) || (MayLoseTrack(calls[j], replies[j]) && Untracked(boundaries[j + 1]))
      invariant Inv(old(h.w)) && (forall j | 0 <= j <= k :: !Untracked(boundaries[j])) ==>
                  && (forall j | 0 <= j <= k :: Inv(boundaries[j]))
                  && (forall i | from <= i < |h.trace| :: SafeInstant(h.trace[i]))
    {
      var reply := PerformOrCrash(h, calls[k], crashes[k]);
      ghost var was := boundaries;
      replies, boundaries := replies + [reply], boundaries + [h.w];
      assert forall j | 0 <= j <= k :: boundaries[j] == was[j];
    }
  }
}
