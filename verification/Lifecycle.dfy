/**
  `start_microvm` and `stop_microvm` of the SDK manager, step by step over the fallible ports of `Host`.

  Each call runs under the per-VM lifecycle lock, so nothing else touches the rows or the mapping while it
  runs; the process itself may exit at any point.
*/
module Lifecycle {
  import opened Wrappers
  import opened Host

  /** The point at which a call gave up. */
  datatype Step =
    | Lookup | Incomplete | Validation | BootArtifacts
    | SocketProbe | ReferenceCheck | StillAlive
    | Unmanaged | NotAdoptable | Adoption
    | ReleaseMapping | RemoveSocket | ResetRow
    | HostCheck | Network | Request | EnsureMapping
    | Launch | InvalidPid
    | PersistStarting | Readiness | PersistRunning | Reread | ResultRejected
    | Terminate | RetainIdentity | NotConfirmedStopped
    | Shutdown | NotConfirmed | Wait | NoIdentity | UnknownIdentity | SurvivedKill

  datatype Error = Failed(step: Step) | Cleanup(primary: Step, failures: seq<Step>)

  /** The runtime row of a stopped VM. */
  function StoppedRow(tools: Tools): Runtime {
    Runtime(None, Stopped, tools)
  }

  /** Nothing runs, nothing is attached, no socket entry is left and the row says so. */
  ghost predicate FullyStopped(w: World, tools: Tools) {
    && w.live == {}
    && !w.mapped
    && !w.socketEntry
    && w.runtime == Some(Runtime(None, Stopped, tools))
  }

  /**
    The one outcome that loses track of a process: neither the first `starting` write nor its retry during
    cleanup reached the row, and the process could not be confirmed dead. A caller reads it off the error.
  */
  predicate LosesIdentity(r: Result<nat, Error>) {
    && r.Err?
    && r.error.Cleanup?
    && r.error.primary == PersistStarting
    && RetainIdentity in r.error.failures
  }

  /** The call saw this process alive, or dead. */
  ghost predicate Observed(t: seq<Entry>, from: nat, p: Process, alive: bool) {
    exists k | from <= k < |t| :: t[k].event == Referenced(p, alive)
  }

  /** The control socket answered during the call. */
  ghost predicate Heard(t: seq<Entry>, from: nat) {
    exists k | from <= k < |t| :: t[k].event == Probed(true)
  }

  ghost predicate Signals(t: seq<Entry>, from: nat) {
    exists i | from <= i < |t| :: t[i].event.Signalled?
  }

  /** The control socket was silent when it was probed. */
  ghost predicate Silent(t: seq<Entry>, from: nat) {
    exists k | from <= k < |t| :: t[k].event == Probed(false)
  }

  /** The call asked the guest to shut down. */
  ghost predicate Asks(t: seq<Entry>, from: nat) {
    exists k | from <= k < |t| :: t[k].event.Asked?
  }

  ghost predicate NoAsk(t: seq<Entry>, from: nat) {
    forall i | from <= i < |t| :: !t[i].event.Asked?
  }

  /** The event happened. */
  ghost predicate Occurs(t: seq<Entry>, from: nat, e: Event) {
    from < |t| && (t[|t| - 1].event == e || Occurs(t[..|t| - 1], from, e))
  }

  /** The first of these events came before the second. */
  ghost predicate Then(t: seq<Entry>, from: nat, first: Event, second: Event) {
    && from < |t|
    && (|| (t[|t| - 1].event == second && Occurs(t[..|t| - 1], from, first))
        || Then(t[..|t| - 1], from, first, second))
  }

  lemma {:induction false} OccursAt(t: seq<Entry>, from: nat, i: nat)
    requires from <= i < |t|
    ensures Occurs(t, from, t[i].event)
  {
    if i < |t| - 1 {
      OccursAt(t[..|t| - 1], from, i);
    }
  }

  lemma {:induction false} OccursLasts(t: seq<Entry>, t': seq<Entry>, from: nat, e: Event)
    requires t <= t' && Occurs(t, from, e)
    ensures Occurs(t', from, e)
  {
    if |t| < |t'| {
      OccursLasts(t, t'[..|t'| - 1], from, e);
    } else {
      assert t == t';
    }
  }

  lemma {:induction false} ThenAt(t: seq<Entry>, from: nat, i: nat, j: nat)
    requires from <= i < j < |t|
    ensures Then(t, from, t[i].event, t[j].event)
  {
    if j < |t| - 1 {
      ThenAt(t[..|t| - 1], from, i, j);
    } else {
      OccursAt(t[..|t| - 1], from, i);
    }
  }

  /** The last event and the one after it. */
  lemma {:induction false} ThenNext(t: seq<Entry>, e: Entry, from: nat)
    requires from < |t|
    ensures Then(t + [e], from, t[|t| - 1].event, e.event)
  {
    assert (t + [e])[..|t|] == t;
  }

  lemma {:induction false} ThenLasts(t: seq<Entry>, t': seq<Entry>, from: nat, first: Event, second: Event)
    requires t <= t'
    ensures Then(t, from, first, second) ==> Then(t', from, first, second)
  {
    if |t| < |t'| {
      ThenLasts(t, t'[..|t'| - 1], from, first, second);
    } else {
      assert t == t';
    }
  }

  /** What it means, by positions. */
  lemma {:induction false} ThenMeans(t: seq<Entry>, from: nat, first: Event, second: Event)
    ensures Then(t, from, first, second) <==>
            exists i, j | from <= i < j < |t| :: t[i].event == first && t[j].event == second
  {
    if Then(t, from, first, second) {
      ThenHasPositions(t, from, first, second);
    }
    if i, j :| from <= i < j < |t| && t[i].event == first && t[j].event == second {
      ThenAt(t, from, i, j);
    }
  }

  lemma {:induction false} OccursHasPosition(t: seq<Entry>, from: nat, e: Event)
    requires Occurs(t, from, e)
    ensures exists i | from <= i < |t| :: t[i].event == e
  {
    if t[|t| - 1].event != e {
      OccursHasPosition(t[..|t| - 1], from, e);
      var i :| from <= i < |t| - 1 && t[..|t| - 1][i].event == e;
      assert t[i].event == e;
    }
  }

  lemma {:induction false} ThenHasPositions(t: seq<Entry>, from: nat, first: Event, second: Event)
    requires Then(t, from, first, second)
    ensures exists i, j | from <= i < j < |t| :: t[i].event == first && t[j].event == second
  {
    var front := t[..|t| - 1];
    if t[|t| - 1].event == second && Occurs(front, from, first) {
      OccursHasPosition(front, from, first);
      var i :| from <= i < |front| && front[i].event == first;
      assert t[i].event == first && t[|t| - 1].event == second;
    } else {
      ThenHasPositions(front, from, first, second);
      var i, j :| from <= i < j < |front| && front[i].event == first && front[j].event == second;
      assert t[i].event == first && t[j].event == second;
    }
  }

  /** The call launched a process and then found its socket silent. */
  ghost predicate SilentLaunch(t: seq<Entry>, from: nat) {
    exists i, j | from <= i < j < |t| :: t[i].event.Launched? && t[j].event == Probed(false)
  }

  /** The row names a process. */
  ghost predicate Recorded(a: World) {
    a.runtime.Some? && a.runtime.value.pid.Some?
  }

  ghost function RecordedProcess(a: World): Process
    requires Recorded(a)
  {
    Process(a.runtime.value.pid.value, a.runtime.value.tools)
  }

  /** The guest took the request and did not stop in time. */
  ghost predicate Overdue(t: seq<Entry>, from: nat) {
    Then(t, from, Asked(true), Waited(true, false))
  }

  ghost predicate ObservedRecorded(a: World, t: seq<Entry>, from: nat, alive: bool) {
    && a.runtime.Some? && a.runtime.value.pid.Some?
    && Observed(t, from, Process(a.runtime.value.pid.value, a.runtime.value.tools), alive)
  }

  /** The reason there must be for giving up at this step: `faulty` says that a port failed during the call. */
  ghost predicate Excused(a: World, step: Step, t: seq<Entry>, from: nat, faulty: bool) {
    match step
    case Incomplete => a.runtime.None?
    case NoIdentity => a.runtime.Some? && a.runtime.value.pid.None? && Overdue(t, from)
    case NotAdoptable => a.runtime.Some? && a.runtime.value.state == Stopped
    case ResultRejected => !a.pathsInVolume
    case Validation => faulty || a.fileLen != a.resources.diskBytes || !a.pathsInVolume
    case StillAlive => Recorded(a) && Then(t, from, Probed(false), Referenced(RecordedProcess(a), true))
    case Unmanaged => a.runtime.Some? && (a.runtime.value.pid.None? || ObservedRecorded(a, t, from, false))
    case NotConfirmed => Then(t, from, Asked(false), Probed(true))
    case UnknownIdentity =>
      Overdue(t, from) && Recorded(a) && Then(t, from, Referenced(RecordedProcess(a), false), Probed(true))
    case RemoveSocket => faulty || Heard(t, from)
    case SurvivedKill => Recorded(a) && Then(t, from, Signalled(RecordedProcess(a).pid), Waited(true, false))
    case Readiness => faulty || SilentLaunch(t, from)
    case _ => faulty
  }

  /** The step that a start failed at. */
  function Reason(e: Error): Step {
    if e.Failed? then e.step else e.primary
  }

  /** The reason there must be for a failed start, and for its cleanup being incomplete. */
  ghost predicate StartExcused(a: World, e: Error, t: seq<Entry>, from: nat, faulty: bool) {
    && Excused(a, Reason(e), t, from, faulty)
    && (e.Cleanup? ==> NotConfirmedStopped in e.failures || faulty || Heard(t, from))
  }

  /** The reason there must be for finishing a stop without force: nothing runs, or the guest stopped when asked. */
  ghost predicate SeenGone(a: World, t: seq<Entry>, from: nat) {
    || (Silent(t, from) && a.runtime.Some? && (a.runtime.value.pid.None? || ObservedRecorded(a, t, from, false)))
    || Then(t, from, Asked(true), Waited(true, true))
  }

  /** The reason there must be for every answer of a stop. */
  ghost predicate StopJustified(a: World, r: Result<bool, Error>, t: seq<Entry>, from: nat, faulty: bool) {
    match r
    case Ok(forced) =>
      !faulty &&
      if forced then Recorded(a) && Then(t, from, Signalled(RecordedProcess(a).pid), Waited(true, true))
      else SeenGone(a, t, from)
    case Err(e) => e.Failed? && Excused(a, e.step, t, from, faulty)
  }

  lemma ExcuseLasts(a: World, step: Step, t: seq<Entry>, t': seq<Entry>, from: nat, faulty: bool, faulty': bool)
    requires Excused(a, step, t, from, faulty) && t <= t' && (faulty ==> faulty')
    ensures Excused(a, step, t', from, faulty')
  {
    ThenLasts(t, t', from, Asked(true), Waited(true, false));
    ThenLasts(t, t', from, Asked(false), Probed(true));
    if Recorded(a) {
      var p := RecordedProcess(a);
      ThenLasts(t, t', from, Probed(false), Referenced(p, true));
      ThenLasts(t, t', from, Referenced(p, false), Probed(true));
      ThenLasts(t, t', from, Signalled(p.pid), Waited(true, false));
    }
    if SilentLaunch(t, from) {
      var i, j :| from <= i < j < |t| && t[i].event.Launched? && t[j].event == Probed(false);
      assert t'[i].event.Launched? && t'[j].event == Probed(false);
    }
  }

  lemma GoneLasts(a: World, t: seq<Entry>, t': seq<Entry>, from: nat)
    requires SeenGone(a, t, from) && t <= t'
    ensures SeenGone(a, t', from)
  {
    ThenLasts(t, t', from, Asked(true), Waited(true, true));
    if Silent(t, from) {
      var k :| from <= k < |t| && t[k].event == Probed(false);
      assert t'[k].event == Probed(false);
    }
    if ObservedRecorded(a, t, from, false) {
      var k :| from <= k < |t| && t[k].event == Referenced(RecordedProcess(a), false);
      assert t'[k].event == Referenced(RecordedProcess(a), false);
    }
  }

  /** A socket entry is removed only right after the socket was found silent. */
  ghost predicate RemovedIfSilent(t: seq<Entry>, from: nat) {
    forall i | from <= i < |t| && t[i].event == EntryRemoved :: i > from && t[i - 1].event == Probed(false)
  }

  /** `remove_stale_socket`. */
  method RemoveStaleSocket(h: Host) returns (ok: bool)
    modifies h
    ensures old(h.trace) <= h.trace
    ensures NoLaunch(h.trace, |old(h.trace)|) && NoSignal(h.trace, |old(h.trace)|) && NoAsk(h.trace, |old(h.trace)|)
    ensures Drifts(old(h.w).(socketEntry := h.w.socketEntry), h.w)
    ensures ok && old(h.w.live) == {} ==> !h.w.socketEntry
    ensures !ok && old(h.w.live) == {} ==> h.w == old(h.w)
    ensures old(h.w.live) == {} && DiskSound(old(h.w)) ==> AllGuarded(h.trace, |old(h.trace)|)
    ensures h.faults >= old(h.faults)
    ensures !ok ==> h.faults > old(h.faults) || Heard(h.trace, |old(h.trace)|)
    ensures ok ==> h.faults == old(h.faults)
    ensures RemovedIfSilent(h.trace, |old(h.trace)|)
  {
    var present;
    ok, present := h.EntryExists();
    if !ok || !present {
      return;
    }
    var answered;
    ok, answered := h.SocketAnswers();
    assert h.trace[|h.trace| - 1].event == Probed(answered);
    if !ok || answered {
      return false;
    }
    ok := h.RemoveEntry();
  }

  /** `verify_recorded_process_exited`. */
  method VerifyRecordedProcessExited(h: Host, runtime: Runtime) returns (r: Result<(), Error>)
    modifies h
    ensures Drifts(old(h.w), h.w)
    ensures runtime.pid.None? ==> r.Ok? && h.trace == old(h.trace)
    ensures runtime.pid.Some? ==>
              var p := Process(runtime.pid.value, runtime.tools);
              && h.trace == old(h.trace) + [Entry(Referenced(p, p in h.w.live), h.w)]
              && (r.Ok? ==> p !in h.w.live)
    ensures r.Err? ==> r.error in {Failed(ReferenceCheck), Failed(StillAlive)}
    ensures h.faults >= old(h.faults)
    ensures r == Err(Failed(ReferenceCheck)) ==> h.faults > old(h.faults)
    ensures r == Err(Failed(StillAlive)) ==> runtime.pid.Some? && Process(runtime.pid.value, runtime.tools) in h.w.live
    ensures Inv(old(h.w)) ==> AllGuarded(h.trace, |old(h.trace)|)
    ensures r.Ok? ==> h.faults == old(h.faults)
  {
    if runtime.pid.None? {
      return Ok(());
    }
    var ok, alive := h.ProcessReferences(Process(runtime.pid.value, runtime.tools));
    assert h.trace[|h.trace| - 1].event == Referenced(Process(runtime.pid.value, runtime.tools), alive);
    if !ok {
      return Err(Failed(ReferenceCheck));
    }
    if alive {
      return Err(Failed(StillAlive));
    }
    return Ok(());
  }

  /** `finish_stopped_vm`: the mapping goes first, the durable row last. */
  method FinishStopped(h: Host, tools: Tools, pathsInVolume: bool, forced: bool) returns (r: Result<bool, Error>)
    modifies h
    ensures old(h.trace) <= h.trace
    ensures NoLaunch(h.trace, |old(h.trace)|) && NoSignal(h.trace, |old(h.trace)|) && NoAsk(h.trace, |old(h.trace)|)
    ensures old(h.w.live) == {} && DiskSound(old(h.w)) ==> AllGuarded(h.trace, |old(h.trace)|)
    ensures h.w.live <= old(h.w.live)
    ensures Drifts(old(h.w).(mapped := h.w.mapped, socketEntry := h.w.socketEntry, runtime := h.w.runtime), h.w)
    ensures r.Ok? ==> r.value == forced && pathsInVolume && !h.w.mapped
    ensures r.Ok? ==> h.w.runtime == Some(StoppedRow(tools))
    ensures r.Ok? && old(h.w.live) == {} ==> FullyStopped(h.w, tools)
    ensures r.Err? ==> r.error.Failed? && r.error.step in {ReleaseMapping, RemoveSocket, ResetRow, ResultRejected}
    ensures r.Err? && r.error.step != ResultRejected ==> h.w.runtime == old(h.w.runtime)
    ensures r.Err? && r.error.step == ResultRejected ==>
              !pathsInVolume && !h.w.mapped && h.w.runtime == Some(StoppedRow(tools))
    ensures h.faults >= old(h.faults)
    ensures r.Err? && r.error.step != ResultRejected ==>
      || h.faults > old(h.faults)
      || (r.error.step == RemoveSocket && Heard(h.trace, |old(h.trace)|))
    ensures r.Ok? ==> h.faults == old(h.faults)
  {
    var ok := h.ReleaseMapping();
    if !ok {
      return Err(Failed(ReleaseMapping));
    }
    ok := RemoveStaleSocket(h);
    if !ok {
      return Err(Failed(RemoveSocket));
    }
    ok := h.PersistRuntime(StoppedRow(tools));
    if !ok {
      return Err(Failed(ResetRow));
    }
    if !pathsInVolume {
      return Err(Failed(ResultRejected));
    }
    return Ok(forced);
  }

  /**
    Every signal of a stop call goes to a process that the step before confirmed to be this VM's, after the
    guest had accepted a graceful shutdown request and a wait for it to stop had ended in vain.
  */
  ghost predicate SignalsConfirmed(t: seq<Entry>, from: nat, tools: Tools) {
    forall i | from <= i < |t| && t[i].event.Signalled? ::
      && i >= from + 3
      && t[i - 3].event == Asked(true)
      && t[i - 2].event == Waited(true, false)
      && t[i - 1].event == Referenced(Process(t[i].event.pid, tools), true)
  }

  /** What a stop call promises, between the world before and after it and over its own trace. */
  ghost predicate StopContract(a: World, b: World, r: Result<bool, Error>, t: seq<Entry>, from: nat) {
    && (Inv(a) ==> Inv(b) && AllGuarded(t, from))
    && NoLaunch(t, from)
    && b.live <= a.live
    && b.resources == a.resources
    && b.fileLen == a.fileLen
    && (a.runtime.None? ==> r.Err? && b.runtime == a.runtime && !Signals(t, from))
    && (a.runtime.Some? ==> SignalsConfirmed(t, from, a.runtime.value.tools))
    && (r.Ok? ==>
          && a.runtime.Some?
          && a.pathsInVolume
          && (r.value <==> Signals(t, from))
          && b.runtime == Some(StoppedRow(a.runtime.value.tools))
          && !b.mapped
          && (Inv(a) ==> FullyStopped(b, a.runtime.value.tools)))
    && (r.Err? && b.live != {} && Inv(a) ==> b.runtime == a.runtime)
    && (r.Err? ==> r.error.Failed?)
    && (r.Err? && r.error.step != ResultRejected ==> b.runtime == a.runtime)
    && (r.Err? && r.error.step == ResultRejected ==> !a.pathsInVolume && !b.mapped)
  }

  /** A call that has only looked so far. */
  ghost predicate OnlyLooked(a: World, b: World, t: seq<Entry>, from: nat) {
    && Drifts(a, b)
    && from <= |t|
    && NoLaunch(t, from)
    && NoSignal(t, from)
    && (Inv(a) ==> AllGuarded(t, from))
  }

  /** Giving up after only looking keeps the stop contract. */
  lemma RefusalKeepsStopContract(a: World, b: World, t: seq<Entry>, from: nat, step: Step)
    requires OnlyLooked(a, b, t, from) && step != ResultRejected
    ensures StopContract(a, b, Err(Failed(step)), t, from)
  {
  }

  /** `stop_microvm`. */
  method Stop(h: Host) returns (r: Result<bool, Error>)
    modifies h
    ensures old(h.trace) <= h.trace
    ensures StopContract(old(h.w), h.w, r, h.trace, |old(h.trace)|)
    ensures StopJustified(old(h.w), r, h.trace, |old(h.trace)|, h.faults > old(h.faults))
    ensures FirstProbe(h.trace, |old(h.trace)|, true) ==> h.faults > old(h.faults) || Asks(h.trace, |old(h.trace)|)
    ensures FirstProbe(h.trace, |old(h.trace)|, false) ==> NoAsk(h.trace, |old(h.trace)|)
  {
    ghost var a, from, f := h.w, |h.trace|, h.faults;
    var ok, stored, _, pathsInVolume := h.Find();
    if !ok {
      return Err(Failed(Lookup));
    }
    if stored.None? {
      return Err(Failed(Incomplete));
    }
    var answered;
    ok, answered := h.SocketAnswers();
    assert h.trace[from + 1].event == Probed(answered) && !h.trace[from].event.Probed?;
    if !ok {
      return Err(Failed(SocketProbe));
    }
    if !answered {
      r := FinishIfExited(h, stored.value, pathsInVolume, a, from, f);
    } else {
      r := AskToStop(h, stored.value, pathsInVolume, a, from, f);
    }
  }

  /** Where a stop stands between its steps: it has only looked, or asked, at the machine this row describes. */
  ghost predicate Stopping(h: Host, runtime: Runtime, pathsInVolume: bool, a: World, from: nat, f: nat)
    reads h
  {
    && OnlyLooked(a, h.w, h.trace, from) && f <= h.faults
    && a.runtime == Some(runtime) && a.pathsInVolume == pathsInVolume
  }

  /** Probe the socket during a stop. */
  method ProbeSocket(h: Host, runtime: Runtime, pathsInVolume: bool, ghost a: World, ghost from: nat, ghost f: nat)
    returns (ok: bool, answered: bool)
    requires Stopping(h, runtime, pathsInVolume, a, from, f)
    modifies h
    ensures Stopping(h, runtime, pathsInVolume, a, from, f) && h.w.live <= old(h.w.live)
    ensures h.trace == old(h.trace) + [Entry(Probed(answered), h.w)]
    ensures h.faults == old(h.faults) + if ok then 0 else 1
  {
    ok, answered := h.SocketAnswers();
  }

  /** Check a process during a stop. */
  method CheckProcess(h: Host, p: Process, runtime: Runtime, pathsInVolume: bool, ghost a: World, ghost from: nat,
                      ghost f: nat)
    returns (ok: bool, alive: bool)
    requires Stopping(h, runtime, pathsInVolume, a, from, f)
    modifies h
    ensures Stopping(h, runtime, pathsInVolume, a, from, f) && alive == (p in h.w.live)
    ensures h.trace == old(h.trace) + [Entry(Referenced(p, alive), h.w)]
    ensures h.faults == old(h.faults) + if ok then 0 else 1
  {
    ok, alive := h.ProcessReferences(p);
  }

  /** Wait during a stop. */
  method AwaitStop(h: Host, p: Option<Process>, runtime: Runtime, pathsInVolume: bool, ghost a: World, ghost from: nat,
                   ghost f: nat)
    returns (ok: bool, stopped: bool)
    requires Stopping(h, runtime, pathsInVolume, a, from, f)
    modifies h
    ensures Stopping(h, runtime, pathsInVolume, a, from, f)
    ensures ok && stopped && p.Some? ==> p.value !in h.w.live
    ensures h.trace == old(h.trace) + [Entry(Waited(ok, stopped), h.w)]
    ensures h.faults == old(h.faults) + if ok then 0 else 1
  {
    ok, stopped := h.WaitForStop(p);
  }

  /** A refusal after only looking, with its reason. */
  lemma Refuses(h: Host, runtime: Runtime, pathsInVolume: bool, a: World, from: nat, f: nat, step: Step)
    requires Stopping(h, runtime, pathsInVolume, a, from, f) && step != ResultRejected
    requires Excused(a, step, h.trace, from, h.faults > f)
    ensures StopContract(a, h.w, Err(Failed(step)), h.trace, from)
    ensures StopJustified(a, Err(Failed(step)), h.trace, from, h.faults > f)
  {
    RefusalKeepsStopContract(a, h.w, h.trace, from, step);
  }

  /** A finish that fails has its reason. */
  lemma FinishIsExcused(a: World, step: Step, t: seq<Entry>, t': seq<Entry>, from: nat, faulty: bool)
    requires from <= |t| && t <= t' && step in {ReleaseMapping, RemoveSocket, ResetRow, ResultRejected}
    requires if step == ResultRejected then !a.pathsInVolume else faulty || (step == RemoveSocket && Heard(t', |t|))
    ensures Excused(a, step, t', from, faulty)
  {
    if Heard(t', |t|) {
      var k :| |t| <= k < |t'| && t'[k].event == Probed(true);
      assert from <= k;
    }
  }

  /** The silent-socket path of stop. */
  method FinishIfExited(h: Host, runtime: Runtime, pathsInVolume: bool, ghost a: World, ghost from: nat, ghost f: nat)
    returns (r: Result<bool, Error>)
    requires Stopping(h, runtime, pathsInVolume, a, from, f)
    requires from < |h.trace| && h.trace[|h.trace| - 1].event == Probed(false)
    requires f == h.faults
    modifies h
    ensures old(h.trace) <= h.trace && NoAsk(h.trace, |old(h.trace)|)
    ensures StopContract(a, h.w, r, h.trace, from)
    ensures StopJustified(a, r, h.trace, from, h.faults > f)
  {
    ghost var silent := |h.trace| - 1;
    if runtime.pid.None? {
      r := FinishExited(h, runtime, pathsInVolume, a, from, f);
      return;
    }
    var refusal := RefuseIfAlive(h, runtime, pathsInVolume, a, from, f);
    if refusal.Some? {
      return Err(Failed(refusal.value));
    }
    r := FinishExited(h, runtime, pathsInVolume, a, from, f);
  }

  /** `verify_recorded_process_exited` on the silent-socket path, where the row names a process. */
  method RefuseIfAlive(h: Host, runtime: Runtime, pathsInVolume: bool, ghost a: World, ghost from: nat, ghost f: nat)
    returns (refusal: Option<Step>)
    requires Stopping(h, runtime, pathsInVolume, a, from, f) && runtime.pid.Some?
    requires from < |h.trace| && h.trace[|h.trace| - 1].event == Probed(false)
    requires f == h.faults
    modifies h
    ensures old(h.trace) <= h.trace && NoAsk(h.trace, |old(h.trace)|)
    ensures refusal.None? ==>
      && Stopping(h, runtime, pathsInVolume, a, from, f) && SeenGone(a, h.trace, from) && f == h.faults
      && RecordedProcess(a) !in h.w.live
    ensures refusal.Some? ==>
      && StopContract(a, h.w, Err(Failed(refusal.value)), h.trace, from)
      && StopJustified(a, Err(Failed(refusal.value)), h.trace, from, h.faults > f)
  {
    ghost var silent := |h.trace| - 1;
    var exited := VerifyExited(h, runtime, pathsInVolume, a, from, f);
    if exited.Err? {
      ThenAt(h.trace, from, silent, silent + 1);
      Refuses(h, runtime, pathsInVolume, a, from, f, exited.error.step);
      return Some(exited.error.step);
    }
    assert h.trace[silent].event == Probed(false);
    assert h.trace[silent + 1].event == Referenced(RecordedProcess(a), false);
    return None;
  }

  method VerifyExited(h: Host, runtime: Runtime, pathsInVolume: bool, ghost a: World, ghost from: nat, ghost f: nat)
    returns (r: Result<(), Error>)
    requires Stopping(h, runtime, pathsInVolume, a, from, f) && runtime.pid.Some?
    modifies h
    ensures Stopping(h, runtime, pathsInVolume, a, from, f)
    ensures h.trace == old(h.trace) + [Entry(Referenced(RecordedProcess(a), RecordedProcess(a) in h.w.live), h.w)]
    ensures r.Ok? ==> RecordedProcess(a) !in h.w.live
    ensures r.Err? ==> r.error in {Failed(ReferenceCheck), Failed(StillAlive)}
    ensures r == Err(Failed(StillAlive)) ==> RecordedProcess(a) in h.w.live
    ensures h.faults >= old(h.faults) && (r == Err(Failed(ReferenceCheck)) ==> h.faults > old(h.faults))
    ensures r.Ok? ==> h.faults == old(h.faults)
  {
    r := VerifyRecordedProcessExited(h, runtime);
  }

  /** An unforced stop of a VM whose recorded process, if any, is gone. */
  method FinishExited(h: Host, runtime: Runtime, pathsInVolume: bool, ghost a: World, ghost from: nat, ghost f: nat)
    returns (r: Result<bool, Error>)
    requires Stopping(h, runtime, pathsInVolume, a, from, f) && SeenGone(a, h.trace, from)
    requires runtime.pid.Some? ==> Process(runtime.pid.value, runtime.tools) !in h.w.live
    requires f == h.faults
    modifies h
    ensures old(h.trace) <= h.trace && NoAsk(h.trace, |old(h.trace)|)
    ensures StopContract(a, h.w, r, h.trace, from)
    ensures StopJustified(a, r, h.trace, from, h.faults > f)
  {
    r := FinishStopped(h, runtime.tools, pathsInVolume, false);
    if r.Err? {
      FinishIsExcused(a, r.error.step, old(h.trace), h.trace, from, h.faults > f);
    } else {
      GoneLasts(a, old(h.trace), h.trace, from);
    }
  }

  /** The answering-socket path of stop: a graceful request comes before anything else. */
  method AskToStop(h: Host, runtime: Runtime, pathsInVolume: bool, ghost a: World, ghost from: nat, ghost f: nat)
    returns (r: Result<bool, Error>)
    requires Stopping(h, runtime, pathsInVolume, a, from, f)
    requires f == h.faults
    modifies h
    ensures old(h.trace) <= h.trace && Asks(h.trace, from)
    ensures StopContract(a, h.w, r, h.trace, from)
    ensures StopJustified(a, r, h.trace, from, h.faults > f)
  {
    ghost var asked := |h.trace|;
    var ok, delivered := h.RequestShutdown();
    assert Stopping(h, runtime, pathsInVolume, a, from, f) && h.trace[asked].event.Asked?;
    if !ok {
      RefusalKeepsStopContract(a, h.w, h.trace, from, Shutdown);
      return Err(Failed(Shutdown));
    }
    if delivered {
      r := AwaitOrForce(h, runtime, pathsInVolume, a, from, f);
    } else {
      r := FinishUnlessHeard(h, runtime, pathsInVolume, a, from, f);
    }
    assert h.trace[asked].event.Asked?;
  }

  /** The guest did not take the request: finish only if the socket is silent and the recorded process gone. */
  method FinishUnlessHeard(h: Host, runtime: Runtime, pathsInVolume: bool, ghost a: World, ghost from: nat,
                           ghost f: nat)
    returns (r: Result<bool, Error>)
    requires Stopping(h, runtime, pathsInVolume, a, from, f)
    requires from < |h.trace| && h.trace[|h.trace| - 1].event == Asked(false)
    requires f == h.faults
    modifies h
    ensures old(h.trace) <= h.trace
    ensures StopContract(a, h.w, r, h.trace, from)
    ensures StopJustified(a, r, h.trace, from, h.faults > f)
  {
    var ok, answered := ProbeSocket(h, runtime, pathsInVolume, a, from, f);
    if !ok {
      Refuses(h, runtime, pathsInVolume, a, from, f, SocketProbe);
      return Err(Failed(SocketProbe));
    }
    if answered {
      ThenAt(h.trace, from, |h.trace| - 2, |h.trace| - 1);
      Refuses(h, runtime, pathsInVolume, a, from, f, NotConfirmed);
      return Err(Failed(NotConfirmed));
    }
    r := FinishIfExited(h, runtime, pathsInVolume, a, from, f);
  }

  /** After the guest accepted the request: wait, and force only a process confirmed to be this VM's. */
  method AwaitOrForce(h: Host, runtime: Runtime, pathsInVolume: bool, ghost a: World, ghost from: nat, ghost f: nat)
    returns (r: Result<bool, Error>)
    requires Stopping(h, runtime, pathsInVolume, a, from, f)
    requires from < |h.trace| && h.trace[|h.trace| - 1].event == Asked(true)
    requires f == h.faults
    modifies h
    ensures old(h.trace) <= h.trace
    ensures StopContract(a, h.w, r, h.trace, from)
    ensures StopJustified(a, r, h.trace, from, h.faults > f)
  {
    ghost var asked := |h.trace| - 1;
    var recorded := if runtime.pid.Some? then Some(Process(runtime.pid.value, runtime.tools)) else None;
    var ok, stopped := AwaitStop(h, recorded, runtime, pathsInVolume, a, from, f);
    ThenAt(h.trace, from, asked, asked + 1);
    if !ok {
      Refuses(h, runtime, pathsInVolume, a, from, f, Wait);
      return Err(Failed(Wait));
    }
    if stopped {
      r := FinishExited(h, runtime, pathsInVolume, a, from, f);
      return;
    }
    if recorded.None? {
      Refuses(h, runtime, pathsInVolume, a, from, f, NoIdentity);
      return Err(Failed(NoIdentity));
    }
    r := ForceIfAlive(h, runtime, pathsInVolume, a, from, f);
  }

  /** The last two steps were the accepted request and a wait that ended in vain. */
  ghost predicate JustOverdue(t: seq<Entry>, from: nat) {
    from + 1 < |t| && t[|t| - 2].event == Asked(true) && t[|t| - 1].event == Waited(true, false)
  }

  /** The process did not stop in time: force it if it is confirmed, at this moment, to be this VM's. */
  method ForceIfAlive(h: Host, runtime: Runtime, pathsInVolume: bool, ghost a: World, ghost from: nat, ghost f: nat)
    returns (r: Result<bool, Error>)
    requires Stopping(h, runtime, pathsInVolume, a, from, f) && runtime.pid.Some? && JustOverdue(h.trace, from)
    requires f == h.faults
    modifies h
    ensures old(h.trace) <= h.trace
    ensures StopContract(a, h.w, r, h.trace, from)
    ensures StopJustified(a, r, h.trace, from, h.faults > f)
  {
    var p := Process(runtime.pid.value, runtime.tools);
    ghost var n := |h.trace|;
    var ok, alive := CheckProcess(h, p, runtime, pathsInVolume, a, from, f);
    assert h.trace[..|h.trace| - 1] == old(h.trace);
    if !ok {
      Refuses(h, runtime, pathsInVolume, a, from, f, ReferenceCheck);
      return Err(Failed(ReferenceCheck));
    }
    if alive {
      r := Force(h, p, pathsInVolume, a, from, f);
    } else {
      ThenAt(h.trace, from, n - 2, n - 1);
      r := FinishUnlessAnswering(h, runtime, pathsInVolume, a, from, f);
    }
  }

  /** The recorded process is gone: finish, unless something still answers on the socket. */
  method FinishUnlessAnswering(h: Host, runtime: Runtime, pathsInVolume: bool, ghost a: World, ghost from: nat,
                               ghost f: nat)
    returns (r: Result<bool, Error>)
    requires Stopping(h, runtime, pathsInVolume, a, from, f) && runtime.pid.Some? && Overdue(h.trace, from)
    requires from < |h.trace| && h.trace[|h.trace| - 1].event == Referenced(RecordedProcess(a), false)
    requires RecordedProcess(a) !in h.w.live
    requires f == h.faults
    modifies h
    ensures old(h.trace) <= h.trace
    ensures StopContract(a, h.w, r, h.trace, from)
    ensures StopJustified(a, r, h.trace, from, h.faults > f)
  {
    ghost var dead := |h.trace| - 1;
    var ok, answered := ProbeSocket(h, runtime, pathsInVolume, a, from, f);
    if !ok {
      Refuses(h, runtime, pathsInVolume, a, from, f, SocketProbe);
      return Err(Failed(SocketProbe));
    }
    if answered {
      ThenLasts(old(h.trace), h.trace, from, Asked(true), Waited(true, false));
      ThenAt(h.trace, from, dead, dead + 1);
      Refuses(h, runtime, pathsInVolume, a, from, f, UnknownIdentity);
      return Err(Failed(UnknownIdentity));
    }
    assert h.trace[dead].event == Referenced(RecordedProcess(a), false) && h.trace[dead + 1].event == Probed(false);
    r := FinishExited(h, runtime, pathsInVolume, a, from, f);
  }

  /** The call has signalled the recorded process, once confirmed, and changed nothing else. */
  ghost predicate Struck(a: World, b: World, t: seq<Entry>, from: nat, p: Process) {
    && Recorded(a) && RecordedProcess(a) == p
    && Drifts(a, b)
    && from <= |t|
    && NoLaunch(t, from)
    && SignalsConfirmed(t, from, p.tools)
    && Signals(t, from)
    && (Inv(a) ==> AllGuarded(t, from))
  }

  /** Giving up after the signal keeps the stop contract. */
  lemma StruckKeepsStopContract(a: World, b: World, t: seq<Entry>, from: nat, p: Process, step: Step)
    requires Struck(a, b, t, from, p) && step != ResultRejected
    ensures StopContract(a, b, Err(Failed(step)), t, from)
  {
  }

  /** The signal itself. */
  method Strike(h: Host, p: Process, ghost a: World, ghost from: nat) returns (ok: bool)
    requires OnlyLooked(a, h.w, h.trace, from) && Recorded(a) && RecordedProcess(a) == p
    requires from + 2 < |h.trace| && h.trace[|h.trace| - 1].event == Referenced(p, true)
    requires JustOverdue(h.trace[..|h.trace| - 1], from)
    modifies h
    ensures old(h.trace) <= h.trace && |h.trace| == |old(h.trace)| + 1
    ensures h.trace[|h.trace| - 1].event == Signalled(p.pid)
    ensures Struck(a, h.w, h.trace, from, p)
    ensures h.faults == old(h.faults) + if ok then 0 else 1
  {
    ghost var n := |h.trace|;
    ok := h.Terminate(p.pid);
    assert h.trace[n].event.Signalled? && h.trace[n - 3].event == Asked(true);
  }

  /** The wait after the signal. */
  method AwaitDeath(h: Host, p: Process, ghost a: World, ghost from: nat) returns (ok: bool, stopped: bool)
    requires Struck(a, h.w, h.trace, from, p)
    requires from < |h.trace| && h.trace[|h.trace| - 1].event == Signalled(p.pid)
    modifies h
    ensures old(h.trace) <= h.trace
    ensures Struck(a, h.w, h.trace, from, p) && Then(h.trace, from, Signalled(p.pid), Waited(ok, stopped))
    ensures ok && stopped ==> p !in h.w.live
    ensures h.faults == old(h.faults) + if ok then 0 else 1
  {
    ok, stopped := WaitStruck(h, p, a, from);
    ThenNext(old(h.trace), Entry(Waited(ok, stopped), h.w), from);
  }

  method WaitStruck(h: Host, p: Process, ghost a: World, ghost from: nat) returns (ok: bool, stopped: bool)
    requires Struck(a, h.w, h.trace, from, p)
    modifies h
    ensures Struck(a, h.w, h.trace, from, p)
    ensures h.trace == old(h.trace) + [Entry(Waited(ok, stopped), h.w)]
    ensures ok && stopped ==> p !in h.w.live
    ensures h.faults == old(h.faults) + if ok then 0 else 1
  {
    ok, stopped := h.WaitForStop(Some(p));
    SignalsStay(old(h.trace), h.trace, from, p.tools);
  }

  lemma SignalsStay(t: seq<Entry>, t': seq<Entry>, from: nat, tools: Tools)
    requires t <= t' && from <= |t| && SignalsConfirmed(t, from, tools) && Signals(t, from) && NoSignal(t', |t|)
    ensures SignalsConfirmed(t', from, tools) && Signals(t', from)
  {
    forall i | from <= i < |t'| && t'[i].event.Signalled?
      ensures i >= from + 3 && t'[i - 3].event == Asked(true) && t'[i - 2].event == Waited(true, false)
      ensures i >= from + 3 && t'[i - 1].event == Referenced(Process(t'[i].event.pid, tools), true)
    {
      assert t[i].event.Signalled?;
    }
    var k :| from <= k < |t| && t[k].event.Signalled?;
    assert t'[k].event.Signalled?;
  }

  /** A forced stop, once the process is gone. */
  method FinishStruck(h: Host, p: Process, pathsInVolume: bool, ghost a: World, ghost from: nat, ghost f: nat)
    returns (r: Result<bool, Error>)
    requires Struck(a, h.w, h.trace, from, p) && a.pathsInVolume == pathsInVolume && p !in h.w.live
    requires f == h.faults && Then(h.trace, from, Signalled(p.pid), Waited(true, true))
    modifies h
    ensures old(h.trace) <= h.trace
    ensures StopContract(a, h.w, r, h.trace, from)
    ensures StopJustified(a, r, h.trace, from, h.faults > f)
  {
    r := FinishStopped(h, p.tools, pathsInVolume, true);
    SignalsStay(old(h.trace), h.trace, from, p.tools);
    if r.Err? {
      FinishIsExcused(a, r.error.step, old(h.trace), h.trace, from, h.faults > f);
    } else {
      ThenLasts(old(h.trace), h.trace, from, Signalled(p.pid), Waited(true, true));
    }
  }

  /** The SIGKILL escalation of stop. */
  method Force(h: Host, p: Process, pathsInVolume: bool, ghost a: World, ghost from: nat, ghost f: nat)
    returns (r: Result<bool, Error>)
    requires OnlyLooked(a, h.w, h.trace, from) && a.pathsInVolume == pathsInVolume && f == h.faults
    requires Recorded(a) && RecordedProcess(a) == p
    requires from + 2 < |h.trace| && h.trace[|h.trace| - 1].event == Referenced(p, true)
    requires JustOverdue(h.trace[..|h.trace| - 1], from)
    modifies h
    ensures old(h.trace) <= h.trace
    ensures StopContract(a, h.w, r, h.trace, from)
    ensures StopJustified(a, r, h.trace, from, h.faults > f)
  {
    var ok := Strike(h, p, a, from);
    if !ok {
      StruckKeepsStopContract(a, h.w, h.trace, from, p, Terminate);
      return Err(Failed(Terminate));
    }
    r := FinishIfStruck(h, p, pathsInVolume, a, from, f);
  }

  /** Wait for the signalled process, and finish once it is gone. */
  method FinishIfStruck(h: Host, p: Process, pathsInVolume: bool, ghost a: World, ghost from: nat, ghost f: nat)
    returns (r: Result<bool, Error>)
    requires Struck(a, h.w, h.trace, from, p) && a.pathsInVolume == pathsInVolume && f == h.faults
    requires from < |h.trace| && h.trace[|h.trace| - 1].event == Signalled(p.pid)
    modifies h
    ensures old(h.trace) <= h.trace
    ensures StopContract(a, h.w, r, h.trace, from)
    ensures StopJustified(a, r, h.trace, from, h.faults > f)
  {
    var ok, stopped := AwaitDeath(h, p, a, from);
    if !ok {
      StruckKeepsStopContract(a, h.w, h.trace, from, p, Wait);
      return Err(Failed(Wait));
    }
    if !stopped {
      StruckKeepsStopContract(a, h.w, h.trace, from, p, SurvivedKill);
      return Err(Failed(SurvivedKill));
    }
    r := FinishStruck(h, p, pathsInVolume, a, from, f);
  }

  // ---------------------------------------------------------------------------------------------------
  // Start
  // ---------------------------------------------------------------------------------------------------

  /** The first control-socket probe of the call gave this answer. */
  ghost predicate FirstProbe(t: seq<Entry>, from: nat, answered: bool) {
    exists k | from <= k < |t| ::
      && t[k].event == Probed(answered)
      && forall j | from <= j < k :: !t[j].event.Probed?
  }

  /** The call launched exactly `launched`, and signalled nothing else. */
  ghost predicate LaunchesOnly(t: seq<Entry>, from: nat, launched: Option<Process>) {
    && (forall i | from <= i < |t| && t[i].event.Launched? :: launched == Some(t[i].event.process))
    && (forall i, j | from <= i < j < |t| :: !(t[i].event.Launched? && t[j].event.Launched?))
    && (forall i | from <= i < |t| && t[i].event.Signalled? ::
          launched.Some? && launched.value.pid == t[i].event.pid)
    && (launched.Some? ==> exists i | from <= i < |t| :: t[i].event == Launched(launched.value))
  }

  /** What a start call promises, between the world before and after it and over its own trace. */
  ghost predicate StartContract(
    a: World, b: World, r: Result<nat, Error>, t: seq<Entry>, from: nat, launched: Option<Process>)
  {
    && LaunchesOnly(t, from, launched)
    && b.resources == a.resources
    && b.fileLen == a.fileLen
    && (Inv(a) ==> AllSafe(t, from, launched))
    && (Inv(a) ==> (Inv(b) <==> !(LosesIdentity(r) && b.live != {})))
    && (launched.Some? ==> a.runtime.Some? && FirstProbe(t, from, false))
    && (launched.Some? && a.runtime.value.pid.Some? ==>
          Observed(t, from, Process(a.runtime.value.pid.value, a.runtime.value.tools), false))
    && (r.Ok? && launched.None? ==>
          && a.runtime.Some?
          && a.runtime.value.state != Stopped
          && a.runtime.value.pid == Some(r.value)
          && Observed(t, from, Process(r.value, a.runtime.value.tools), true)
          && b.runtime == Some(a.runtime.value.(state := Running)))
    && (r.Ok? && launched.Some? ==>
          && r.value == launched.value.pid
          && b.runtime == Some(Runtime(Some(r.value), Running, launched.value.tools)))
    && (r.Err? && launched.None? ==> RefusedBeforeLaunch(a, b, r.error))
    && (r.Err? && launched.Some? ==> FailedAfterLaunch(a, b, r.error, launched.value))
  }

  /** A start that launched nothing leaves the row alone, or stopped once the recorded process was gone. */
  ghost predicate RefusedBeforeLaunch(a: World, b: World, e: Error) {
    && b.live <= a.live
    && (b.runtime != a.runtime ==>
          && a.runtime.Some?
          && b.runtime == Some(StoppedRow(a.runtime.value.tools))
          && (Inv(a) ==> b.live == {} && !b.socketEntry))
    && (e.Failed? && e.step in {Launch, InvalidPid} ==>
          && a.runtime.Some?
          && b.runtime == Some(StoppedRow(a.runtime.value.tools))
          && !b.mapped)
    && (e.Failed? ==> e.step !in {PersistStarting, Readiness, PersistRunning, Reread, ResultRejected})
    && (e.Cleanup? ==> e.primary in {Launch, InvalidPid})
  }

  /**
    A start that failed after launching: unless it is a cleanup error, or one of the two steps after
    readiness failed, everything the launch made is gone again.
  */
  ghost predicate FailedAfterLaunch(a: World, b: World, e: Error, p: Process) {
    && (e == Failed(PersistRunning) ==> b.runtime == Some(Runtime(Some(p.pid), Starting, p.tools)))
    && (e == Failed(Reread) ==> b.runtime == Some(Runtime(Some(p.pid), Running, p.tools)))
    && (e.Failed? && e.step !in {PersistRunning, Reread} ==>
          && a.runtime.Some?
          && e.step in {PersistStarting, Readiness}
          && (Inv(a) ==> FullyStopped(b, a.runtime.value.tools)))
    && (e.Cleanup? ==> e.primary in {PersistStarting, Readiness} && e.failures != [])
    && (LosesIdentity(Err(e)) ==> a.runtime.Some? && b.runtime == Some(StoppedRow(a.runtime.value.tools)))
    && (Inv(a) ==> b.live <= {p})
  }

  /** Giving up after only looking keeps the start contract. */
  lemma RefusalKeepsStartContract(a: World, b: World, t: seq<Entry>, from: nat, step: Step)
    requires OnlyLooked(a, b, t, from)
    requires step !in {Launch, InvalidPid, PersistStarting, Readiness, PersistRunning, Reread, ResultRejected}
    ensures StartContract(a, b, Err(Failed(step)), t, from, None)
  {
  }

  /**
    Adoption: if the first probe of the call answered, nothing is launched, and a live process that the row
    names is handed back, unless a port failed.
  */
  ghost predicate AdoptsWhenAnswering(
    a: World, b: World, r: Result<nat, Error>, t: seq<Entry>, from: nat, launched: Option<Process>)
  {
    FirstProbe(t, from, true) ==>
      && launched.None?
      && forall p | Names(a.runtime, p) && p in b.live ::
           r == Ok(p.pid) || (r.Err? && r.error in {Failed(SocketProbe), Failed(ReferenceCheck), Failed(Adoption)})
  }

  /** A call that has probed nothing, or whose first probe was silent, adopts nothing. */
  lemma NoAnswerNoAdoption(
    a: World, b: World, r: Result<nat, Error>, t: seq<Entry>, from: nat, launched: Option<Process>)
    requires
      || (forall i | from <= i < |t| :: !t[i].event.Probed?)
      || FirstProbe(t, from, false)
    ensures AdoptsWhenAnswering(a, b, r, t, from, launched)
  {
  }

  /** Everything that must have been checked before a launch, and with what result the executables were verified. */
  ghost predicate WellPrepared(t: seq<Entry>, from: nat, p: Process) {
    && Then(t, from, Passed(StartData), Launched(p))
    && Then(t, from, Verified(p.tools), Launched(p))
    && Then(t, from, Passed(HostFit), Launched(p))
    && Then(t, from, Passed(NetworkReady), Launched(p))
    && Then(t, from, Passed(LaunchPlan), Launched(p))
    && Then(t, from, Released, Launched(p))
  }

  lemma PreparationLasts(t: seq<Entry>, t': seq<Entry>, from: nat, p: Process)
    requires WellPrepared(t, from, p) && t <= t'
    ensures WellPrepared(t', from, p)
  {
    ThenLasts(t, t', from, Passed(StartData), Launched(p));
    ThenLasts(t, t', from, Verified(p.tools), Launched(p));
    ThenLasts(t, t', from, Passed(HostFit), Launched(p));
    ThenLasts(t, t', from, Passed(NetworkReady), Launched(p));
    ThenLasts(t, t', from, Passed(LaunchPlan), Launched(p));
    ThenLasts(t, t', from, Released, Launched(p));
  }

  /** The wait for the signalled process ended with an error, or in vain. */
  ghost predicate InVain(t: seq<Entry>, from: nat, pid: nat) {
    || Then(t, from, Signalled(pid), Waited(true, false))
    || Then(t, from, Signalled(pid), Waited(false, true))
    || Then(t, from, Signalled(pid), Waited(false, false))
  }

  /** A launch that is given up was signalled, and waited for, with the result that the error reports. */
  ghost predicate GivenUp(t: seq<Entry>, from: nat, p: Process, e: Error) {
    && Then(t, from, Launched(p), Signalled(p.pid))
    && if e.Cleanup? && NotConfirmedStopped in e.failures then InVain(t, from, p.pid)
       else Then(t, from, Signalled(p.pid), Waited(true, true))
  }

  /** The reason there must be for the answer of a start that launched `p`. */
  ghost predicate LaunchJustified(t: seq<Entry>, from: nat, r: Result<nat, Error>, p: Process) {
    && (r.Ok? ==> Then(t, from, Launched(p), Probed(true)))
    && (r.Err? && Reason(r.error) in {PersistStarting, Readiness} ==> GivenUp(t, from, p, r.error))
  }

  /** The reason there must be for a launch, and for every success. */
  ghost predicate StartJustified(t: seq<Entry>, from: nat, r: Result<nat, Error>, launched: Option<Process>) {
    && (launched.Some? ==> WellPrepared(t, from, launched.value) && LaunchJustified(t, from, r, launched.value))
    && (launched.None? && r.Ok? ==> FirstProbe(t, from, true))
    && (launched.None? && r.Err? && r.error.Failed? && (r.error.step == Launch || r.error.step == InvalidPid) ==>
          JustUndone(t, from))
  }

  /** The last two steps released the mapping and wrote a stopped row. */
  ghost predicate JustUndone(t: seq<Entry>, from: nat) {
    && |t| >= from + 2 && t[|t| - 2].event == Released
    && t[|t| - 1].event.Wrote? && t[|t| - 1].event.runtime.pid.None? && t[|t| - 1].event.runtime.state == Stopped
  }

  /** `start_microvm`. */
  method Start(h: Host) returns (r: Result<nat, Error>, ghost launched: Option<Process>)
    modifies h
    ensures old(h.trace) <= h.trace
    ensures StartContract(old(h.w), h.w, r, h.trace, |old(h.trace)|, launched)
    ensures AdoptsWhenAnswering(old(h.w), h.w, r, h.trace, |old(h.trace)|, launched)
    ensures r.Err? ==> StartExcused(old(h.w), r.error, h.trace, |old(h.trace)|, h.faults > old(h.faults))
    ensures StartJustified(h.trace, |old(h.trace)|, r, launched)
    ensures r.Ok? ==> h.faults == old(h.faults)
  {
    launched := None;
    ghost var a, from, f := h.w, |h.trace|, h.faults;
    var refusal, stored, pathsInVolume, boot := Prerequisites(h);
    if refusal.Some? {
      r := Err(Failed(refusal.value));
      RefusalKeepsStartContract(a, h.w, h.trace, from, refusal.value);
      NoAnswerNoAdoption(a, h.w, r, h.trace, from, None);
      return;
    }
    r, launched := StartChecked(h, stored.value, pathsInVolume, boot, a, from, f);
  }

  /** The machine's data and executables are in order: adopt what answers, or launch. */
  method StartChecked(h: Host, runtime: Runtime, pathsInVolume: bool, boot: Tools, ghost a: World, ghost from: nat,
                      ghost f: nat)
    returns (r: Result<nat, Error>, ghost launched: Option<Process>)
    requires OnlyLooked(a, h.w, h.trace, from) && a.runtime == Some(runtime) && pathsInVolume && h.w.pathsInVolume
    requires h.w.fileLen == h.w.resources.diskBytes && f == h.faults
    requires |h.trace| == from + 3 && ReadyToBoot(h.trace, from, boot)
    requires forall j | from <= j < from + 3 :: !h.trace[j].event.Probed?
    modifies h
    ensures old(h.trace) <= h.trace
    ensures StartContract(a, h.w, r, h.trace, from, launched)
    ensures AdoptsWhenAnswering(a, h.w, r, h.trace, from, launched)
    ensures r.Err? ==> StartExcused(a, r.error, h.trace, from, h.faults > f)
    ensures r.Ok? ==> h.faults == f
    ensures StartJustified(h.trace, from, r, launched)
  {
    launched := None;
    var ok, answered := h.SocketAnswers();
    assert OnlyLooked(a, h.w, h.trace, from);
    assert h.trace[from + 3].event == Probed(answered);
    if !ok {
      RefusalKeepsStartContract(a, h.w, h.trace, from, SocketProbe);
      return Err(Failed(SocketProbe)), None;
    }
    if answered {
      r := Adopt(h, runtime, pathsInVolume, a, from, f);
      assert h.trace[from + 3].event == Probed(true);
    } else {
      r, launched := Relaunch(h, runtime, boot, a, from, f);
      assert h.trace[from + 3].event == Probed(false);
      NoAnswerNoAdoption(a, h.w, r, h.trace, from, launched);
    }
  }

  /** The second and third steps of the call checked the machine's data and verified these executables. */
  ghost predicate ReadyToBoot(t: seq<Entry>, from: nat, boot: Tools) {
    from + 2 < |t| && t[from + 1].event == Passed(StartData) && t[from + 2].event == Verified(boot)
  }

  /** The checks a start makes before it probes the socket. */
  method Prerequisites(h: Host)
    returns (refusal: Option<Step>, stored: Option<Runtime>, pathsInVolume: bool, boot: Tools)
    modifies h
    ensures old(h.trace) <= h.trace
    ensures OnlyLooked(old(h.w), h.w, h.trace, |old(h.trace)|)
    ensures forall i | |old(h.trace)| <= i < |h.trace| :: !h.trace[i].event.Probed?
    ensures refusal.None? ==>
              && |h.trace| == |old(h.trace)| + 3
              && stored.Some? && stored == old(h.w).runtime
              && pathsInVolume && h.w.pathsInVolume
              && h.w.fileLen == h.w.resources.diskBytes
              && ReadyToBoot(h.trace, |old(h.trace)|, boot)
    ensures refusal.Some? ==> refusal.value in {Lookup, Incomplete, Validation, BootArtifacts}
    ensures h.faults >= old(h.faults)
    ensures refusal.Some? ==>
      Excused(old(h.w), refusal.value, h.trace, |old(h.trace)|, h.faults > old(h.faults))
    ensures refusal.None? ==> h.faults == old(h.faults)
  {
    boot := Tools("", "");
    var ok, resources;
    ok, stored, resources, pathsInVolume := h.Find();
    if !ok {
      return Some(Lookup), stored, pathsInVolume, boot;
    }
    if stored.None? {
      return Some(Incomplete), stored, pathsInVolume, boot;
    }
    ok := h.ValidateStart();
    if !ok {
      return Some(Validation), stored, pathsInVolume, boot;
    }
    ok, boot := h.VerifyBoot();
    refusal := if ok then None else Some(BootArtifacts);
  }

  /** The already-running path of start: adopt the recorded process or refuse, never launch. */
  method Adopt(h: Host, runtime: Runtime, pathsInVolume: bool, ghost a: World, ghost from: nat, ghost f: nat)
    returns (r: Result<nat, Error>)
    requires OnlyLooked(a, h.w, h.trace, from) && a.runtime == Some(runtime) && pathsInVolume
    requires f == h.faults
    modifies h
    ensures old(h.trace) <= h.trace
    ensures StartContract(a, h.w, r, h.trace, from, None)
    ensures r.Err? && runtime.pid.Some? && Names(a.runtime, Process(runtime.pid.value, runtime.tools))
              && Process(runtime.pid.value, runtime.tools) in h.w.live ==>
              r.error in {Failed(ReferenceCheck), Failed(Adoption)}
    ensures r.Err? ==> StartExcused(a, r.error, h.trace, from, h.faults > f)
    ensures r.Ok? ==> h.faults == f
    ensures r.Err? ==> r.error.Failed? && r.error.step != Launch && r.error.step != InvalidPid
  {
    if runtime.pid.None? {
      RefusalKeepsStartContract(a, h.w, h.trace, from, Unmanaged);
      return Err(Failed(Unmanaged));
    }
    if runtime.state == Stopped {
      RefusalKeepsStartContract(a, h.w, h.trace, from, NotAdoptable);
      return Err(Failed(NotAdoptable));
    }
    var p := Process(runtime.pid.value, runtime.tools);
    var ok, alive := h.ProcessReferences(p);
    assert OnlyLooked(a, h.w, h.trace, from) && h.trace[|h.trace| - 1].event == Referenced(p, alive);
    if !ok {
      RefusalKeepsStartContract(a, h.w, h.trace, from, ReferenceCheck);
      return Err(Failed(ReferenceCheck));
    }
    if !alive {
      RefusalKeepsStartContract(a, h.w, h.trace, from, Unmanaged);
      return Err(Failed(Unmanaged));
    }
    r := AdoptAlive(h, runtime, p, a, from, f);
  }

  /** The recorded process was seen alive: it is the running machine. */
  method AdoptAlive(h: Host, runtime: Runtime, p: Process, ghost a: World, ghost from: nat, ghost f: nat)
    returns (r: Result<nat, Error>)
    requires OnlyLooked(a, h.w, h.trace, from) && a.runtime == Some(runtime) && f == h.faults
    requires runtime.pid == Some(p.pid) && runtime.tools == p.tools && runtime.state != Stopped
    requires from < |h.trace| && h.trace[|h.trace| - 1].event == Referenced(p, true)
    modifies h
    ensures old(h.trace) <= h.trace
    ensures StartContract(a, h.w, r, h.trace, from, None)
    ensures r.Err? ==> r.error == Failed(Adoption) && h.faults > f
    ensures r.Ok? ==> h.faults == f
  {
    ghost var seen := |h.trace| - 1;
    if runtime.state == Starting {
      var ok := h.PersistRuntime(runtime.(state := Running));
      if !ok {
        assert OnlyLooked(a, h.w, h.trace, from);
        RefusalKeepsStartContract(a, h.w, h.trace, from, Adoption);
        return Err(Failed(Adoption));
      }
    }
    assert h.trace[seen].event == Referenced(p, true);
    return Ok(p.pid);
  }

  /** The socket was silent at the fourth step of the call, and the recorded process, if any, dead at the fifth. */
  ghost predicate SilentAndDead(t: seq<Entry>, from: nat, runtime: Runtime) {
    && from + 3 < |t|
    && t[from + 3].event == Probed(false)
    && (forall j | from <= j < from + 3 :: !t[j].event.Probed?)
    && (runtime.pid.Some? ==>
          && from + 4 < |t|
          && t[from + 4].event == Referenced(Process(runtime.pid.value, runtime.tools), false))
  }

  /** The way to a launch is clear: no process, no socket entry, a stopped row. */
  ghost predicate Cleared(a: World, b: World, t: seq<Entry>, from: nat, runtime: Runtime) {
    && a.runtime == Some(runtime)
    && a.pathsInVolume
    && b == a.(live := b.live, socketEntry := b.socketEntry, mapped := b.mapped, runtime := b.runtime, used := b.used)
    && b.live <= a.live
    && b.runtime == Some(StoppedRow(runtime.tools))
    && b.fileLen == b.resources.diskBytes
    && SilentAndDead(t, from, runtime)
    && NoLaunch(t, from)
    && NoSignal(t, from)
    && (Inv(a) ==> AllGuarded(t, from) && b.live == {} && !b.socketEntry && DiskSound(b))
  }

  /** Entry `at` launches `p`; nothing else is launched and nothing else is signalled. */
  ghost predicate LaunchedAt(t: seq<Entry>, from: nat, p: Process, at: nat) {
    && from <= at < |t|
    && t[at].event == Launched(p)
    && (forall i | from <= i < |t| && i != at :: !t[i].event.Launched?)
    && (forall i | from <= i < |t| && t[i].event.Signalled? :: t[i].event.pid == p.pid)
  }

  /** The call's trace since it launched `p` at `at`. */
  ghost predicate Trail(a: World, t: seq<Entry>, from: nat, runtime: Runtime, p: Process, at: nat) {
    && SilentAndDead(t, from, runtime)
    && LaunchedAt(t, from, p, at)
    && (Inv(a) ==> AllSafe(t, from, Some(p)))
  }

  /** Steps that launch nothing and signal only `p` extend the trail. */
  lemma TrailExtends(a: World, t: seq<Entry>, t': seq<Entry>, from: nat, runtime: Runtime, p: Process, at: nat)
    requires Trail(a, t, from, runtime, p, at)
    requires t <= t' && NoLaunch(t', |t|)
    requires forall i | |t| <= i < |t'| && t'[i].event.Signalled? :: t'[i].event.pid == p.pid
    requires Inv(a) ==> AllSafe(t', |t|, Some(p))
    ensures Trail(a, t', from, runtime, p, at)
  {
  }

  /** `p` was launched over an attached mapping; the row is still stopped, or names `p`. */
  ghost predicate Spawned(a: World, b: World, runtime: Runtime, p: Process) {
    && a.runtime == Some(runtime)
    && a.pathsInVolume
    && b == a.(live := b.live, socketEntry := b.socketEntry, mapped := b.mapped, runtime := b.runtime, used := b.used)
    && (b.runtime == Some(StoppedRow(runtime.tools)) || b.runtime == Some(Runtime(Some(p.pid), Starting, p.tools)))
    && (Inv(a) ==> b.live <= {p} && b.mapped && DiskSound(b))
  }

  /** Giving up with the way clear keeps the start contract. */
  lemma ClearedKeepsStartContract(a: World, b: World, t: seq<Entry>, from: nat, runtime: Runtime, e: Error)
    requires Cleared(a, b, t, from, runtime)
    requires e.Failed? ==> e.step !in {PersistStarting, Readiness, PersistRunning, Reread, ResultRejected}
    requires e.Failed? && e.step in {Launch, InvalidPid} ==> !b.mapped
    requires e.Cleanup? ==> e.primary in {Launch, InvalidPid}
    ensures StartContract(a, b, Err(e), t, from, None)
  {
  }

  /** Failing after a launch keeps the start contract. */
  lemma FailureKeepsStartContract(
    a: World, b: World, t: seq<Entry>, from: nat, runtime: Runtime, p: Process, at: nat, e: Error)
    requires Trail(a, t, from, runtime, p, at) && a.runtime == Some(runtime)
    requires b.resources == a.resources && b.fileLen == a.fileLen
    requires FailedAfterLaunch(a, b, e, p)
    requires Inv(a) ==> (Inv(b) <==> !(LosesIdentity(Err(e)) && b.live != {}))
    ensures StartContract(a, b, Err(e), t, from, Some(p))
  {
    LaunchIsWitnessed(t, from, runtime, p, at);
  }

  /** The existential parts of the start contract, from the positions at which they happened. */
  lemma LaunchIsWitnessed(t: seq<Entry>, from: nat, runtime: Runtime, p: Process, at: nat)
    requires SilentAndDead(t, from, runtime) && LaunchedAt(t, from, p, at)
    ensures LaunchesOnly(t, from, Some(p))
    ensures FirstProbe(t, from, false)
    ensures runtime.pid.Some? ==> Observed(t, from, Process(runtime.pid.value, runtime.tools), false)
  {
    assert t[from + 3].event == Probed(false);
    assert t[at].event == Launched(p);
  }

  /** The silent-socket path of start: refuse while the recorded process lives, else clear the way. */
  method Relaunch(h: Host, runtime: Runtime, boot: Tools, ghost a: World, ghost from: nat, ghost f: nat)
    returns (r: Result<nat, Error>, ghost launched: Option<Process>)
    requires OnlyLooked(a, h.w, h.trace, from) && a.runtime == Some(runtime)
    requires h.w.fileLen == h.w.resources.diskBytes && h.w.pathsInVolume
    requires |h.trace| == from + 4 && h.trace[from + 3].event == Probed(false)
    requires forall j | from <= j < from + 3 :: !h.trace[j].event.Probed?
    requires ReadyToBoot(h.trace, from, boot)
    requires f == h.faults
    modifies h
    ensures old(h.trace) <= h.trace
    ensures StartContract(a, h.w, r, h.trace, from, launched)
    ensures r.Err? ==> StartExcused(a, r.error, h.trace, from, h.faults > f)
    ensures r.Ok? ==> h.faults == f
    ensures StartJustified(h.trace, from, r, launched) && (r.Ok? ==> launched.Some?)
  {
    var refusal := RefuseWhileAlive(h, runtime, boot, a, from, f);
    if refusal.Some? {
      return Err(Failed(refusal.value)), None;
    }
    r, launched := ClearAndBoot(h, runtime, boot, a, from, f);
  }

  /** The check that the recorded process is gone, before anything is cleared. */
  method RefuseWhileAlive(h: Host, runtime: Runtime, boot: Tools, ghost a: World, ghost from: nat, ghost f: nat)
    returns (refusal: Option<Step>)
    requires OnlyLooked(a, h.w, h.trace, from) && a.runtime == Some(runtime)
    requires h.w.fileLen == h.w.resources.diskBytes && h.w.pathsInVolume
    requires |h.trace| == from + 4 && h.trace[from + 3].event == Probed(false)
    requires forall j | from <= j < from + 3 :: !h.trace[j].event.Probed?
    requires ReadyToBoot(h.trace, from, boot) && f == h.faults
    modifies h
    ensures old(h.trace) <= h.trace
    ensures refusal.None? ==>
      Clearing(a, h.w, h.trace, from, runtime) && ReadyToBoot(h.trace, from, boot) && f == h.faults
    ensures refusal.Some? ==>
      && StartContract(a, h.w, Err(Failed(refusal.value)), h.trace, from, None)
      && Excused(a, refusal.value, h.trace, from, h.faults > f)
    ensures refusal.Some? ==> refusal.value == ReferenceCheck || refusal.value == StillAlive
  {
    var exited := VerifyRecordedProcessExited(h, runtime);
    assert OnlyLooked(a, h.w, h.trace, from) && h.trace[from + 3].event == Probed(false);
    if exited.Err? {
      ThenAt(h.trace, from, from + 3, from + 4);
      RefusalKeepsStartContract(a, h.w, h.trace, from, exited.error.step);
      return Some(exited.error.step);
    }
    return None;
  }

  /** The recorded process is gone: clear the way and boot. */
  method ClearAndBoot(h: Host, runtime: Runtime, boot: Tools, ghost a: World, ghost from: nat, ghost f: nat)
    returns (r: Result<nat, Error>, ghost launched: Option<Process>)
    requires Clearing(a, h.w, h.trace, from, runtime) && ReadyToBoot(h.trace, from, boot) && f == h.faults
    modifies h
    ensures old(h.trace) <= h.trace
    ensures StartContract(a, h.w, r, h.trace, from, launched)
    ensures r.Err? ==> StartExcused(a, r.error, h.trace, from, h.faults > f)
    ensures r.Ok? ==> h.faults == f
    ensures StartJustified(h.trace, from, r, launched) && (r.Ok? ==> launched.Some?)
  {
    var step := ClearTheWay(h, runtime, a, from, f);
    if step.Some? {
      return Err(Failed(step.value)), None;
    }
    r, launched := Boot(h, runtime, boot, a, from, f);
  }

  /** The recorded process is gone, and so far only its mapping and socket entry were touched. */
  ghost predicate Clearing(a: World, b: World, t: seq<Entry>, from: nat, runtime: Runtime) {
    && a.runtime == Some(runtime)
    && a.pathsInVolume
    && b == a.(live := b.live, socketEntry := b.socketEntry, mapped := b.mapped, used := b.used)
    && b.live <= a.live
    && b.fileLen == b.resources.diskBytes
    && SilentAndDead(t, from, runtime)
    && NoLaunch(t, from)
    && NoSignal(t, from)
    && (Inv(a) ==> AllGuarded(t, from) && b.live == {} && DiskSound(b))
  }

  lemma ClearingKeepsStartContract(a: World, b: World, t: seq<Entry>, from: nat, runtime: Runtime, step: Step)
    requires Clearing(a, b, t, from, runtime)
    requires step in {ReleaseMapping, RemoveSocket, ResetRow}
    ensures StartContract(a, b, Err(Failed(step)), t, from, None)
  {
  }

  /** Release the mapping, remove a stale socket entry, reset the row. */
  method ClearTheWay(h: Host, runtime: Runtime, ghost a: World, ghost from: nat, ghost f: nat)
    returns (step: Option<Step>)
    requires Clearing(a, h.w, h.trace, from, runtime)
    requires f == h.faults
    modifies h
    ensures old(h.trace) <= h.trace
    ensures step.Some? ==> StartContract(a, h.w, Err(Failed(step.value)), h.trace, from, None)
    ensures step.None? ==> Cleared(a, h.w, h.trace, from, runtime)
    ensures f <= h.faults && (step.None? ==> f == h.faults)
    ensures step.Some? ==> Excused(a, step.value, h.trace, from, h.faults > f)
    ensures step.None? ==> Occurs(h.trace, from, Released)
    ensures step.Some? ==> step.value == ReleaseMapping || step.value == RemoveSocket || step.value == ResetRow
  {
    ghost var released := |h.trace|;
    var ok := ReleaseFirst(h, runtime, a, from);
    if !ok {
      ClearingKeepsStartContract(a, h.w, h.trace, from, runtime, ReleaseMapping);
      return Some(ReleaseMapping);
    }
    ok := RemoveLeftover(h, runtime, a, from);
    if !ok {
      ClearingKeepsStartContract(a, h.w, h.trace, from, runtime, RemoveSocket);
      return Some(RemoveSocket);
    }
    ok := ResetRowForStart(h, runtime, a, from);
    if !ok {
      ClearingKeepsStartContract(a, h.w, h.trace, from, runtime, ResetRow);
      return Some(ResetRow);
    }
    OccursAt(h.trace, from, released);
    return None;
  }

  method ReleaseFirst(h: Host, runtime: Runtime, ghost a: World, ghost from: nat) returns (ok: bool)
    requires Clearing(a, h.w, h.trace, from, runtime)
    modifies h
    ensures Clearing(a, h.w, h.trace, from, runtime)
    ensures h.trace == old(h.trace) + [Entry(Released, h.w)]
    ensures h.faults == old(h.faults) + if ok then 0 else 1
  {
    ok := h.ReleaseMapping();
  }

  method RemoveLeftover(h: Host, runtime: Runtime, ghost a: World, ghost from: nat) returns (ok: bool)
    requires Clearing(a, h.w, h.trace, from, runtime)
    modifies h
    ensures old(h.trace) <= h.trace && h.faults >= old(h.faults)
    ensures Clearing(a, h.w, h.trace, from, runtime)
    ensures ok && Inv(a) ==> !h.w.socketEntry
    ensures !ok ==> h.faults > old(h.faults) || Heard(h.trace, from)
    ensures ok ==> h.faults == old(h.faults)
  {
    ok := RemoveStaleSocket(h);
    if !ok && Heard(h.trace, |old(h.trace)|) {
      ghost var k :| |old(h.trace)| <= k < |h.trace| && h.trace[k].event == Probed(true);
      assert from <= k;
    }
  }

  method ResetRowForStart(h: Host, runtime: Runtime, ghost a: World, ghost from: nat) returns (ok: bool)
    requires Clearing(a, h.w, h.trace, from, runtime) && (Inv(a) ==> !h.w.socketEntry)
    modifies h
    ensures old(h.trace) <= h.trace
    ensures if ok then Cleared(a, h.w, h.trace, from, runtime) else Clearing(a, h.w, h.trace, from, runtime)
    ensures h.faults == old(h.faults) + if ok then 0 else 1
  {
    ok := h.PersistRuntime(StoppedRow(runtime.tools));
  }

  /** Host check, network, launch request, mapping. */
  method PrepareHost(h: Host, runtime: Runtime, ghost a: World, ghost from: nat) returns (refusal: Option<Step>)
    requires Cleared(a, h.w, h.trace, from, runtime)
    modifies h
    ensures old(h.trace) <= h.trace
    ensures Cleared(a, h.w, h.trace, from, runtime)
    ensures refusal.None? ==> h.w.mapped && h.faults == old(h.faults) && HostIsReady(h.trace, |old(h.trace)|)
    ensures refusal.Some? ==>
      refusal.value in {HostCheck, Network, Request, EnsureMapping} && h.faults > old(h.faults)
  {
    var ok := h.Attempt(HostFit);
    if !ok {
      return Some(HostCheck);
    }
    ok := h.Attempt(NetworkReady);
    if !ok {
      return Some(Network);
    }
    ok := h.Attempt(LaunchPlan);
    if !ok {
      return Some(Request);
    }
    ok := h.EnsureMapping();
    return if ok then None else Some(EnsureMapping);
  }

  /** The host was checked, its network prepared, the launch request built and the mapping ensured, in this order. */
  ghost predicate HostIsReady(t: seq<Entry>, n: nat) {
    && |t| == n + 4
    && t[n].event == Passed(HostFit) && t[n + 1].event == Passed(NetworkReady) && t[n + 2].event == Passed(LaunchPlan)
  }

  lemma LaunchIsPrepared(t: seq<Entry>, from: nat, n: nat, p: Process)
    requires from + 2 < n && |t| == n + 5 && ReadyToBoot(t, from, p.tools) && HostIsReady(t[..n + 4], n)
    requires t[n + 4].event == Launched(p) && Occurs(t[..n + 4], from, Released)
    ensures WellPrepared(t, from, p)
  {
    ThenAt(t, from, from + 1, n + 4);
    ThenAt(t, from, from + 2, n + 4);
    ThenAt(t, from, n, n + 4);
    ThenAt(t, from, n + 1, n + 4);
    ThenAt(t, from, n + 2, n + 4);
    assert t[..|t| - 1] == t[..n + 4];
  }

  /** Prepare the host, launch. */
  method Boot(h: Host, runtime: Runtime, boot: Tools, ghost a: World, ghost from: nat, ghost f: nat)
    returns (r: Result<nat, Error>, ghost launched: Option<Process>)
    requires Cleared(a, h.w, h.trace, from, runtime) && ReadyToBoot(h.trace, from, boot)
    requires f == h.faults && Occurs(h.trace, from, Released)
    modifies h
    ensures old(h.trace) <= h.trace
    ensures StartContract(a, h.w, r, h.trace, from, launched)
    ensures r.Err? ==> StartExcused(a, r.error, h.trace, from, h.faults > f)
    ensures r.Ok? ==> h.faults == f
    ensures StartJustified(h.trace, from, r, launched) && (r.Ok? ==> launched.Some?)
  {
    launched := None;
    ghost var n := |h.trace|;
    var refusal := PrepareHost(h, runtime, a, from);
    if refusal.Some? {
      ClearedKeepsStartContract(a, h.w, h.trace, from, runtime, Failed(refusal.value));
      return Err(Failed(refusal.value)), None;
    }
    OccursLasts(old(h.trace), h.trace, from, Released);
    r, launched := LaunchAndCommit(h, runtime, boot, a, from, f, n);
  }

  /** The launch, on a prepared host. */
  method LaunchAndCommit(h: Host, runtime: Runtime, boot: Tools, ghost a: World, ghost from: nat, ghost f: nat,
                         ghost n: nat)
    returns (r: Result<nat, Error>, ghost launched: Option<Process>)
    requires Cleared(a, h.w, h.trace, from, runtime) && ReadyToBoot(h.trace, from, boot) && h.w.mapped
    requires f == h.faults && from + 2 < n && HostIsReady(h.trace, n) && Occurs(h.trace, from, Released)
    modifies h
    ensures old(h.trace) <= h.trace
    ensures StartContract(a, h.w, r, h.trace, from, launched)
    ensures r.Err? ==> StartExcused(a, r.error, h.trace, from, h.faults > f)
    ensures r.Ok? ==> h.faults == f
    ensures StartJustified(h.trace, from, r, launched) && (r.Ok? ==> launched.Some?)
  {
    launched := None;
    ghost var at := |h.trace|;
    var ok, pid := LaunchOnce(h, runtime, boot, a, from, n);
    if !ok || pid == 0 {
      var e := CleanupUnstarted(h, runtime, if !ok then Launch else InvalidPid, a, from, f);
      return Err(e), None;
    }
    var p := Process(pid, boot);
    launched := Some(p);
    ghost var t := h.trace;
    r := Commit(h, runtime, p, a, from, at, f);
    PreparationLasts(t, h.trace, from, p);
  }

  /** The launch itself. */
  method LaunchOnce(h: Host, runtime: Runtime, boot: Tools, ghost a: World, ghost from: nat, ghost n: nat)
    returns (ok: bool, pid: nat)
    requires Cleared(a, h.w, h.trace, from, runtime) && ReadyToBoot(h.trace, from, boot) && h.w.mapped
    requires from + 2 < n && HostIsReady(h.trace, n) && Occurs(h.trace, from, Released)
    modifies h
    ensures old(h.trace) <= h.trace
    ensures ok && pid != 0 ==>
      && var p := Process(pid, boot);
         && Spawned(a, h.w, runtime, p) && Trail(a, h.trace, from, runtime, p, |old(h.trace)|)
         && h.w.runtime == Some(StoppedRow(runtime.tools)) && WellPrepared(h.trace, from, p)
         && h.faults == old(h.faults)
    ensures !ok || pid == 0 ==> Cleared(a, h.w, h.trace, from, runtime) && h.faults > old(h.faults)
  {
    ok, pid := h.Launch(boot);
    if ok && pid != 0 {
      var p := Process(pid, boot);
      assert Inv(a) ==> h.w.live == {p};
      assert h.trace[..n + 4] == old(h.trace);
      LaunchIsPrepared(h.trace, from, n, p);
    }
  }

  /** `cleanup_unstarted_launch`. */
  method CleanupUnstarted(h: Host, runtime: Runtime, primary: Step, ghost a: World, ghost from: nat, ghost f: nat)
    returns (e: Error)
    requires Cleared(a, h.w, h.trace, from, runtime)
    requires primary in {Launch, InvalidPid}
    requires f < h.faults
    modifies h
    ensures old(h.trace) <= h.trace
    ensures StartContract(a, h.w, Err(e), h.trace, from, None)
    ensures StartExcused(a, e, h.trace, from, h.faults > f)
    ensures Reason(e) == primary && (e.Failed? ==> JustUndone(h.trace, from))
  {
    var failures := [];
    var ok := h.ReleaseMapping();
    if !ok {
      failures := failures + [ReleaseMapping];
    }
    if failures == [] {
      ok := h.PersistRuntime(StoppedRow(runtime.tools));
      if !ok {
        failures := failures + [ResetRow];
      }
    }
    e := if failures == [] then Failed(primary) else Cleanup(primary, failures);
    ClearedKeepsStartContract(a, h.w, h.trace, from, runtime, e);
  }

  /** Write the `starting` row of a launched process. */
  method RecordStarting(h: Host, runtime: Runtime, p: Process, ghost a: World, ghost from: nat, ghost at: nat)
    returns (ok: bool)
    requires Spawned(a, h.w, runtime, p) && Trail(a, h.trace, from, runtime, p, at)
    modifies h
    ensures old(h.trace) <= h.trace
    ensures Spawned(a, h.w, runtime, p) && Trail(a, h.trace, from, runtime, p, at)
    ensures h.w.runtime == if ok then Some(Runtime(Some(p.pid), Starting, p.tools)) else old(h.w.runtime)
    ensures h.faults == old(h.faults) + if ok then 0 else 1
  {
    ok := h.PersistRuntime(Runtime(Some(p.pid), Starting, p.tools));
    TrailExtends(a, old(h.trace), h.trace, from, runtime, p, at);
  }

  /** `wait_for_socket`. */
  method AwaitReady(h: Host, runtime: Runtime, p: Process, ghost a: World, ghost from: nat, ghost at: nat)
    returns (ready: bool)
    requires Spawned(a, h.w, runtime, p) && Trail(a, h.trace, from, runtime, p, at)
    modifies h
    ensures old(h.trace) <= h.trace
    ensures Spawned(a, h.w, runtime, p) && Trail(a, h.trace, from, runtime, p, at)
    ensures h.w.runtime == old(h.w.runtime)
    ensures h.faults >= old(h.faults)
    ensures !ready ==> h.faults > old(h.faults) || SilentLaunch(h.trace, from)
    ensures ready ==> Then(h.trace, from, Launched(p), Probed(true))
    ensures ready ==> h.faults == old(h.faults)
  {
    var ok, answered := h.SocketAnswers();
    ready := ok && answered;
    assert h.trace[at].event == Launched(p) && h.trace[|h.trace| - 1].event == Probed(answered);
    ThenAt(h.trace, from, at, |h.trace| - 1);
    TrailExtends(a, old(h.trace), h.trace, from, runtime, p, at);
  }

  /** After a launch: record the identity, wait for readiness, record that it runs, read it back. */
  method Commit(h: Host, runtime: Runtime, p: Process, ghost a: World, ghost from: nat, ghost at: nat, ghost f: nat)
    returns (r: Result<nat, Error>)
    requires Spawned(a, h.w, runtime, p) && Trail(a, h.trace, from, runtime, p, at)
    requires h.w.runtime == Some(StoppedRow(runtime.tools))
    requires f == h.faults
    modifies h
    ensures old(h.trace) <= h.trace
    ensures StartContract(a, h.w, r, h.trace, from, Some(p))
    ensures r.Err? ==> StartExcused(a, r.error, h.trace, from, h.faults > f)
    ensures r.Ok? ==> h.faults == f
    ensures LaunchJustified(h.trace, from, r, p)
  {
    var recorded := RecordStarting(h, runtime, p, a, from, at);
    if !recorded {
      var e := CleanupFailedLaunch(h, runtime, p, PersistStarting, a, from, at, f);
      return Err(e);
    }
    r := CommitRecorded(h, runtime, p, a, from, at, f);
  }

  /** The identity is recorded: wait for readiness, record that it runs, read it back. */
  method CommitRecorded(h: Host, runtime: Runtime, p: Process, ghost a: World, ghost from: nat, ghost at: nat,
                        ghost f: nat)
    returns (r: Result<nat, Error>)
    requires Spawned(a, h.w, runtime, p) && Trail(a, h.trace, from, runtime, p, at)
    requires h.w.runtime == Some(Runtime(Some(p.pid), Starting, p.tools))
    requires f == h.faults
    modifies h
    ensures old(h.trace) <= h.trace
    ensures StartContract(a, h.w, r, h.trace, from, Some(p))
    ensures r.Err? ==> StartExcused(a, r.error, h.trace, from, h.faults > f)
    ensures r.Ok? ==> h.faults == f
    ensures LaunchJustified(h.trace, from, r, p)
  {
    var ready := AwaitReady(h, runtime, p, a, from, at);
    if !ready {
      var e := CleanupFailedLaunch(h, runtime, p, Readiness, a, from, at, f);
      return Err(e);
    }
    ghost var t := h.trace;
    r := RecordRunning(h, runtime, p, a, from, at, f);
    ThenLasts(t, h.trace, from, Launched(p), Probed(true));
  }

  /** The two steps after readiness; a failure of either leaves the running process recorded. */
  method RecordRunning(h: Host, runtime: Runtime, p: Process, ghost a: World, ghost from: nat, ghost at: nat,
                       ghost f: nat)
    returns (r: Result<nat, Error>)
    requires Spawned(a, h.w, runtime, p) && Trail(a, h.trace, from, runtime, p, at)
    requires h.w.runtime == Some(Runtime(Some(p.pid), Starting, p.tools))
    requires f == h.faults
    modifies h
    ensures old(h.trace) <= h.trace
    ensures StartContract(a, h.w, r, h.trace, from, Some(p))
    ensures r.Err? ==> StartExcused(a, r.error, h.trace, from, h.faults > f)
    ensures r.Ok? ==> h.faults == f
    ensures r.Err? ==> r.error in {Failed(PersistRunning), Failed(Reread)}
  {
    var ok := h.PersistRuntime(Runtime(Some(p.pid), Running, p.tools));
    TrailExtends(a, old(h.trace), h.trace, from, runtime, p, at);
    if !ok {
      FailureKeepsStartContract(a, h.w, h.trace, from, runtime, p, at, Failed(PersistRunning));
      return Err(Failed(PersistRunning));
    }
    label committed:
    var found, stored, _, pathsInVolume := h.Find();
    TrailExtends(a, old@committed(h.trace), h.trace, from, runtime, p, at);
    if !found {
      FailureKeepsStartContract(a, h.w, h.trace, from, runtime, p, at, Failed(Reread));
      return Err(Failed(Reread));
    }
    LaunchIsWitnessed(h.trace, from, runtime, p, at);
    if stored.None? || stored.value.pid != Some(p.pid) || !pathsInVolume {
      return Err(Failed(ResultRejected));
    }
    return Ok(p.pid);
  }

  /** `cleanup_failed_launch`: an exit that cannot be confirmed keeps the identity and the mapping. */
  method CleanupFailedLaunch(
    h: Host, runtime: Runtime, p: Process, primary: Step, ghost a: World, ghost from: nat, ghost at: nat, ghost f: nat)
    returns (e: Error)
    requires Spawned(a, h.w, runtime, p) && Trail(a, h.trace, from, runtime, p, at)
    requires primary in {PersistStarting, Readiness}
    requires primary == Readiness ==> h.w.runtime == Some(Runtime(Some(p.pid), Starting, p.tools))
    requires primary == PersistStarting ==> h.w.runtime == Some(StoppedRow(runtime.tools))
    requires f <= h.faults && Excused(a, primary, h.trace, from, h.faults > f)
    modifies h
    ensures old(h.trace) <= h.trace
    ensures StartContract(a, h.w, Err(e), h.trace, from, Some(p))
    ensures StartExcused(a, e, h.trace, from, h.faults > f)
    ensures Reason(e) == primary && GivenUp(h.trace, from, p, e)
  {
    var failures, stopped := TerminateSpawned(h, runtime, p, a, from, at);
    ExcuseLasts(a, primary, old(h.trace), h.trace, from, old(h.faults) > f, h.faults > f);
    ghost var t := h.trace;
    if stopped {
      e := UndoLaunch(h, runtime, p, primary, failures, a, from, at, f);
    } else {
      e := RetainLaunch(h, runtime, p, primary, failures, a, from, at, f);
    }
    TerminationLasts(t, h.trace, from, p);
  }

  lemma TerminationLasts(t: seq<Entry>, t': seq<Entry>, from: nat, p: Process)
    requires t <= t'
    ensures Then(t, from, Launched(p), Signalled(p.pid)) ==> Then(t', from, Launched(p), Signalled(p.pid))
    ensures Then(t, from, Signalled(p.pid), Waited(true, true)) ==> Then(t', from, Signalled(p.pid), Waited(true, true))
    ensures InVain(t, from, p.pid) ==> InVain(t', from, p.pid)
  {
    ThenLasts(t, t', from, Launched(p), Signalled(p.pid));
    ThenLasts(t, t', from, Signalled(p.pid), Waited(true, true));
    ThenLasts(t, t', from, Signalled(p.pid), Waited(true, false));
    ThenLasts(t, t', from, Signalled(p.pid), Waited(false, true));
    ThenLasts(t, t', from, Signalled(p.pid), Waited(false, false));
  }

  /** Signal the launched process and wait for it to go. */
  method TerminateSpawned(h: Host, runtime: Runtime, p: Process, ghost a: World, ghost from: nat, ghost at: nat)
    returns (failures: seq<Step>, stopped: bool)
    requires Spawned(a, h.w, runtime, p) && Trail(a, h.trace, from, runtime, p, at)
    modifies h
    ensures old(h.trace) <= h.trace
    ensures Spawned(a, h.w, runtime, p) && Trail(a, h.trace, from, runtime, p, at)
    ensures h.w.runtime == old(h.w.runtime)
    ensures stopped ==> p !in h.w.live
    ensures RetainIdentity !in failures && NotConfirmedStopped !in failures
    ensures h.faults >= old(h.faults) && (failures != [] ==> h.faults > old(h.faults))
    ensures Then(h.trace, from, Launched(p), Signalled(p.pid))
    ensures if stopped then Then(h.trace, from, Signalled(p.pid), Waited(true, true)) else InVain(h.trace, from, p.pid)
  {
    ghost var n := |h.trace|;
    var ok := SignalSpawned(h, runtime, p, a, from, at);
    failures := if ok then [] else [Terminate];
    ok, stopped := WaitSpawned(h, runtime, p, a, from, at);
    assert h.trace[at].event == Launched(p) && h.trace[n].event == Signalled(p.pid);
    ThenAt(h.trace, from, at, n);
    ThenAt(h.trace, from, n, n + 1);
    stopped := ok && stopped;
  }

  method SignalSpawned(h: Host, runtime: Runtime, p: Process, ghost a: World, ghost from: nat, ghost at: nat)
    returns (ok: bool)
    requires Spawned(a, h.w, runtime, p) && Trail(a, h.trace, from, runtime, p, at)
    modifies h
    ensures Spawned(a, h.w, runtime, p) && Trail(a, h.trace, from, runtime, p, at)
    ensures h.w.runtime == old(h.w.runtime)
    ensures h.trace == old(h.trace) + [Entry(Signalled(p.pid), h.w)]
    ensures h.faults == old(h.faults) + if ok then 0 else 1
  {
    ok := h.Terminate(p.pid);
    TrailExtends(a, old(h.trace), h.trace, from, runtime, p, at);
  }

  method WaitSpawned(h: Host, runtime: Runtime, p: Process, ghost a: World, ghost from: nat, ghost at: nat)
    returns (ok: bool, stopped: bool)
    requires Spawned(a, h.w, runtime, p) && Trail(a, h.trace, from, runtime, p, at)
    modifies h
    ensures Spawned(a, h.w, runtime, p) && Trail(a, h.trace, from, runtime, p, at)
    ensures h.w.runtime == old(h.w.runtime)
    ensures ok && stopped ==> p !in h.w.live
    ensures h.trace == old(h.trace) + [Entry(Waited(ok, stopped), h.w)]
    ensures h.faults == old(h.faults) + if ok then 0 else 1
  {
    ok, stopped := h.WaitForStop(Some(p));
    TrailExtends(a, old(h.trace), h.trace, from, runtime, p, at);
  }

  /** The tail of the cleanup when the process may still run: its identity and mapping stay. */
  method RetainLaunch(
    h: Host, runtime: Runtime, p: Process, primary: Step, prior: seq<Step>,
    ghost a: World, ghost from: nat, ghost at: nat, ghost f: nat)
    returns (e: Error)
    requires Spawned(a, h.w, runtime, p) && Trail(a, h.trace, from, runtime, p, at)
    requires primary in {PersistStarting, Readiness} && RetainIdentity !in prior
    requires primary == Readiness ==> h.w.runtime == Some(Runtime(Some(p.pid), Starting, p.tools))
    requires primary == PersistStarting ==> h.w.runtime == Some(StoppedRow(runtime.tools))
    requires f <= h.faults && Excused(a, primary, h.trace, from, h.faults > f)
    modifies h
    ensures old(h.trace) <= h.trace
    ensures StartContract(a, h.w, Err(e), h.trace, from, Some(p))
    ensures StartExcused(a, e, h.trace, from, h.faults > f)
    ensures e.Cleanup? && e.primary == primary && NotConfirmedStopped in e.failures
  {
    var failures := prior;
    var ok := RecordStarting(h, runtime, p, a, from, at);
    if !ok {
      failures := failures + [RetainIdentity];
    }
    failures := failures + [NotConfirmedStopped];
    e := Cleanup(primary, failures);
    ExcuseLasts(a, primary, old(h.trace), h.trace, from, old(h.faults) > f, h.faults > f);
    FailureKeepsStartContract(a, h.w, h.trace, from, runtime, p, at, e);
  }

  /** The tail of the cleanup once the process is gone: mapping, socket entry, row. */
  method UndoLaunch(
    h: Host, runtime: Runtime, p: Process, primary: Step, prior: seq<Step>,
    ghost a: World, ghost from: nat, ghost at: nat, ghost f: nat)
    returns (e: Error)
    requires Spawned(a, h.w, runtime, p) && Trail(a, h.trace, from, runtime, p, at)
    requires primary in {PersistStarting, Readiness} && RetainIdentity !in prior && NotConfirmedStopped !in prior
    requires p !in h.w.live
    requires f <= h.faults && Excused(a, primary, h.trace, from, h.faults > f)
    requires prior != [] ==> h.faults > f
    modifies h
    ensures old(h.trace) <= h.trace
    ensures StartContract(a, h.w, Err(e), h.trace, from, Some(p))
    ensures StartExcused(a, e, h.trace, from, h.faults > f)
    ensures Reason(e) == primary && (e.Cleanup? ==> NotConfirmedStopped !in e.failures)
  {
    var failures := UndoSteps(h, runtime, p, prior, a, from, at, f);
    e := if failures == [] then Failed(primary) else Cleanup(primary, failures);
    ExcuseLasts(a, primary, old(h.trace), h.trace, from, old(h.faults) > f, h.faults > f);
    FailureKeepsStartContract(a, h.w, h.trace, from, runtime, p, at, e);
  }

  /** Each step is taken only while nothing has failed. */
  method UndoSteps(h: Host, runtime: Runtime, p: Process, prior: seq<Step>,
                   ghost a: World, ghost from: nat, ghost at: nat, ghost f: nat)
    returns (failures: seq<Step>)
    requires Spawned(a, h.w, runtime, p) && Trail(a, h.trace, from, runtime, p, at)
    requires RetainIdentity !in prior && NotConfirmedStopped !in prior && p !in h.w.live
    requires f <= h.faults && (prior != [] ==> h.faults > f)
    modifies h
    ensures old(h.trace) <= h.trace && old(h.faults) <= h.faults
    ensures Gone(a, h.w, runtime, p) && Trail(a, h.trace, from, runtime, p, at)
    ensures RetainIdentity !in failures && NotConfirmedStopped !in failures
    ensures failures == [] ==>
      !h.w.mapped && (Inv(a) ==> !h.w.socketEntry) && h.w.runtime == Some(StoppedRow(runtime.tools))
    ensures failures != [] ==> h.faults > f || Heard(h.trace, from)
  {
    failures := prior;
    var ok := ReleaseDead(h, runtime, p, a, from, at);
    if !ok {
      failures := failures + [ReleaseMapping];
    }
    if failures != [] {
      return;
    }
    ok := RemoveDeadSocket(h, runtime, p, a, from, at);
    if !ok {
      return [RemoveSocket];
    }
    ok := ResetDead(h, runtime, p, a, from, at);
    failures := if ok then [] else [ResetRow];
  }

  /** The launched process is gone; its mapping may be going. */
  ghost predicate Gone(a: World, b: World, runtime: Runtime, p: Process) {
    && a.runtime == Some(runtime)
    && a.pathsInVolume
    && b == a.(live := b.live, socketEntry := b.socketEntry, mapped := b.mapped, runtime := b.runtime, used := b.used)
    && (b.runtime == Some(StoppedRow(runtime.tools)) || b.runtime == Some(Runtime(Some(p.pid), Starting, p.tools)))
    && (Inv(a) ==> b.live == {} && DiskSound(b))
  }

  method ReleaseDead(h: Host, runtime: Runtime, p: Process, ghost a: World, ghost from: nat, ghost at: nat)
    returns (ok: bool)
    requires Spawned(a, h.w, runtime, p) && Trail(a, h.trace, from, runtime, p, at)
    requires p !in h.w.live
    modifies h
    ensures old(h.trace) <= h.trace
    ensures Gone(a, h.w, runtime, p) && Trail(a, h.trace, from, runtime, p, at)
    ensures ok ==> !h.w.mapped
    ensures h.faults == old(h.faults) + if ok then 0 else 1
  {
    ok := h.ReleaseMapping();
    TrailExtends(a, old(h.trace), h.trace, from, runtime, p, at);
  }

  method RemoveDeadSocket(h: Host, runtime: Runtime, p: Process, ghost a: World, ghost from: nat, ghost at: nat)
    returns (ok: bool)
    requires Gone(a, h.w, runtime, p) && Trail(a, h.trace, from, runtime, p, at)
    modifies h
    ensures old(h.trace) <= h.trace
    ensures Gone(a, h.w, runtime, p) && Trail(a, h.trace, from, runtime, p, at)
    ensures h.w.mapped == old(h.w.mapped)
    ensures ok && Inv(a) ==> !h.w.socketEntry
    ensures h.faults >= old(h.faults)
    ensures !ok ==> h.faults > old(h.faults) || Heard(h.trace, from)
  {
    ok := RemoveStaleSocket(h);
    TrailExtends(a, old(h.trace), h.trace, from, runtime, p, at);
  }

  method ResetDead(h: Host, runtime: Runtime, p: Process, ghost a: World, ghost from: nat, ghost at: nat)
    returns (ok: bool)
    requires Gone(a, h.w, runtime, p) && Trail(a, h.trace, from, runtime, p, at)
    modifies h
    ensures old(h.trace) <= h.trace
    ensures Gone(a, h.w, runtime, p) && Trail(a, h.trace, from, runtime, p, at)
    ensures h.w.mapped == old(h.w.mapped) && (Inv(a) ==> h.w.socketEntry == old(h.w.socketEntry))
    ensures h.w.runtime == if ok then Some(StoppedRow(runtime.tools)) else old(h.w.runtime)
    ensures h.faults == old(h.faults) + if ok then 0 else 1
  {
    ok := h.PersistRuntime(StoppedRow(runtime.tools));
    TrailExtends(a, old(h.trace), h.trace, from, runtime, p, at);
  }
}
