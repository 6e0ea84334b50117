/**
  The outside world of one MicroVM and the ports through which the SDK reaches it.

  A `World` holds the facts the lifecycle protocol argues about: the processes launched for the VM that
  are still alive, the control-socket entry, the Device Mapper mapping, the two persisted rows
  (`vm_runtime` and the resource columns of `microvms`) and the root disk. firectl and the Firecracker it
  supervises count as one process.

  Every port is a method that may fail, and before every port call time passes: a live process may exit,
  create its socket entry and write to its disk. The answer of the control socket is left entirely open,
  so nothing proved above this module relies on a socket telling the truth.
*/
module Host {
  import opened Wrappers

  /** The executables a process was launched with; they are part of its recorded identity. */
  datatype Tools = Tools(firectl: string, firecracker: string)

  datatype Process = Process(pid: nat, tools: Tools)

  datatype RunState = Stopped | Starting | Running

  /** The `vm_runtime` row. */
  datatype Runtime = Runtime(pid: Option<nat>, state: RunState, tools: Tools)

  /** The resizable columns of the `microvms` row. */
  datatype Resources = Resources(diskBytes: nat, memoryBytes: nat, memoryMib: nat, vcpus: nat)

  datatype World = World(
    live: set<Process>,
    socketEntry: bool,
    mapped: bool,
    runtime: Option<Runtime>,  // None: creation never completed
    resources: Resources,
    pathsInVolume: bool,       // rootfs and socket paths lie inside the VM volume
    fileLen: nat,              // length of rootfs.ext4
    fsBytes: nat,              // size of the ext4 filesystem inside it
    used: nat)                 // least size that filesystem could be shrunk to

  /** The checks that change nothing and that a start or a resize must pass. */
  datatype Check = StartData | HostFit | NetworkReady | LaunchPlan | Signature | Consistency | Usage | Other

  /** What one port call did, with the world at the instant it acted. */
  datatype Event =
    | Passed(check: Check)
    | Verified(tools: Tools)
    | Waited(ended: bool, stopped: bool)
    | Resized
    | EntryRemoved
    | Wrote(runtime: Runtime)
    | Probed(answered: bool)
    | Referenced(process: Process, alive: bool)
    | Released
    | Launched(process: Process)
    | Signalled(pid: nat)
    | Asked(delivered: bool)
    | Something

  datatype Entry = Entry(event: Event, world: World)

  /** What may happen to a world by itself. */
  ghost predicate Drifts(a: World, b: World) {
    && b == a.(live := b.live, socketEntry := b.socketEntry, used := b.used)
    && b.live <= a.live
    && (a.live == {} ==> b == a)
    && (a.used <= a.fsBytes ==> b.used <= b.fsBytes)
  }

  /** No filesystem content lies beyond the end of the disk file. */
  ghost predicate DiskSound(w: World) {
    w.used <= w.fsBytes <= w.fileLen
  }

  /** The process a runtime row names, if it names one. */
  ghost predicate Names(runtime: Option<Runtime>, p: Process) {
    && runtime.Some?
    && runtime.value.pid == Some(p.pid)
    && runtime.value.tools == p.tools
    && runtime.value.state != Stopped
  }

  /** The boundary invariant: a live process is the recorded one, and its disk is attached. */
  ghost predicate Inv(w: World) {
    && (forall p | p in w.live :: Names(w.runtime, p))
    && (w.live != {} ==> w.mapped)
    && DiskSound(w)
  }

  ghost predicate AtMostOne(live: set<Process>) {
    forall p, q | p in live && q in live :: p == q
  }

  /** The boundary invariant holds at this instant too, and no mapping is released under a live process. */
  ghost predicate Guarded(e: Entry) {
    && Inv(e.world)
    && (e.event.Released? ==> e.world.live == {})
    && !e.event.Launched?
  }

  /**
    An instant at which `p` may be alive while the row does not name it yet: nothing else is alive, the
    mapping is attached, and the launch itself found the disk at its recorded length.
  */
  ghost predicate Unrecorded(e: Entry, p: Process) {
    && e.world.live <= {p}
    && (e.world.live != {} ==> e.world.mapped)
    && DiskSound(e.world)
    && e.world.runtime.Some? && e.world.runtime.value.pid.None?
    && (e.event.Released? ==> e.world.live == {})
    && (e.event.Launched? ==>
          && e.event.process == p && p in e.world.live && p.pid != 0
          && e.world.fileLen == e.world.resources.diskBytes)
  }

  ghost predicate AllGuarded(t: seq<Entry>, from: nat) {
    forall i | from <= i < |t| :: Guarded(t[i])
  }

  ghost predicate AllSafe(t: seq<Entry>, from: nat, launched: Option<Process>) {
    forall i | from <= i < |t| :: Guarded(t[i]) || (launched.Some? && Unrecorded(t[i], launched.value))
  }

  /** No entry from `from` on launches anything. */
  ghost predicate NoLaunch(t: seq<Entry>, from: nat) {
    forall i | from <= i < |t| :: !t[i].event.Launched?
  }

  ghost predicate NoSignal(t: seq<Entry>, from: nat) {
    forall i | from <= i < |t| :: !t[i].event.Signalled?
  }

  class Host {
    var w: World
    var trace: seq<Entry>  // every port call so far
    ghost var faults: nat  // how many of them failed

    constructor (w: World)
      ensures this.w == w && trace == [] && faults == 0
    {
      this.w := w;
      trace, faults := [], 0;
    }

    /** Time passes: any live process may exit, and a live guest may touch its socket and disk. */
    method Elapse()
      modifies this`w
      ensures Drifts(old(w), w)
    {
      if w.live == {} {
        return;
      }
      var entry: bool, used: nat := *, *;
      if used <= w.fsBytes {
        w := w.(socketEntry := entry, used := used);
      }
      var pending := w.live;
      while pending != {}
        invariant w == old(w).(live := w.live, socketEntry := w.socketEntry, used := w.used)
        invariant w.live <= old(w).live
        invariant old(w).used <= old(w).fsBytes ==> w.used <= w.fsBytes
        decreases pending
      {
        var p :| p in pending;
        pending := pending - {p};
        if * {
          w := w.(live := w.live - {p});
        }
      }
    }

    /** A port call that only looks, or touches nothing modelled here; it may fail. */
    method Attempt(check: Check) returns (ok: bool)
      modifies this
      ensures Drifts(old(w), w)
      ensures trace == old(trace) + [Entry(if ok then Passed(check) else Something, w)]
      ensures faults == old(faults) + if ok then 0 else 1
    {
      Elapse();
      ok := *;
      if !ok { faults := faults + 1; }
      trace := trace + [Entry(if ok then Passed(check) else Something, w)];
    }

    /** `find_microvm`. */
    method Find() returns (ok: bool, runtime: Option<Runtime>, resources: Resources, pathsInVolume: bool)
      modifies this
      ensures Drifts(old(w), w)
      ensures runtime == w.runtime && resources == w.resources && pathsInVolume == w.pathsInVolume
      ensures trace == old(trace) + [Entry(if ok then Passed(Other) else Something, w)]
      ensures faults == old(faults) + if ok then 0 else 1
    {
      ok := Attempt(Other);
      runtime, resources, pathsInVolume := w.runtime, w.resources, w.pathsInVolume;
    }

    /** `validate_start_prerequisites` and `validate_persisted_network`. */
    method ValidateStart() returns (ok: bool)
      modifies this
      ensures Drifts(old(w), w)
      ensures ok ==> w.fileLen == w.resources.diskBytes && w.pathsInVolume
      ensures trace == old(trace) + [Entry(if ok then Passed(StartData) else Something, w)]
      ensures faults >= old(faults)
      ensures !ok ==> faults > old(faults) || w.fileLen != w.resources.diskBytes || !w.pathsInVolume
      ensures ok ==> faults == old(faults)
    {
      Elapse();
      var fails: bool := *;
      if fails { faults := faults + 1; }
      ok := !fails && w.fileLen == w.resources.diskBytes && w.pathsInVolume;
      trace := trace + [Entry(if ok then Passed(StartData) else Something, w)];
    }

    /** `verify_start_boot_artifacts`: the verified executables for the next launch. */
    method VerifyBoot() returns (ok: bool, tools: Tools)
      modifies this
      ensures Drifts(old(w), w)
      ensures trace == old(trace) + [Entry(if ok then Verified(tools) else Something, w)]
      ensures faults == old(faults) + if ok then 0 else 1
    {
      Elapse();
      ok, tools := *, *;
      if !ok { faults := faults + 1; }
      trace := trace + [Entry(if ok then Verified(tools) else Something, w)];
    }

    /** `socket_answers`: any answer is possible. */
    method SocketAnswers() returns (ok: bool, answered: bool)
      modifies this
      ensures Drifts(old(w), w)
      ensures trace == old(trace) + [Entry(Probed(answered), w)]
      ensures faults == old(faults) + if ok then 0 else 1
    {
      Elapse();
      ok, answered := *, *;
      if !ok { faults := faults + 1; }
      trace := trace + [Entry(Probed(answered), w)];
    }

    /** `process_references_vm`: whether this very process, with these executables, is alive now. */
    method ProcessReferences(p: Process) returns (ok: bool, alive: bool)
      modifies this
      ensures Drifts(old(w), w)
      ensures alive == (p in w.live)
      ensures trace == old(trace) + [Entry(Referenced(p, alive), w)]
      ensures faults == old(faults) + if ok then 0 else 1
    {
      Elapse();
      ok := *;
      if !ok { faults := faults + 1; }
      alive := p in w.live;
      trace := trace + [Entry(Referenced(p, alive), w)];
    }

    /** `request_shutdown`. */
    method RequestShutdown() returns (ok: bool, delivered: bool)
      modifies this
      ensures Drifts(old(w), w)
      ensures trace == old(trace) + [Entry(Asked(ok && delivered), w)]
      ensures faults == old(faults) + if ok then 0 else 1
    {
      Elapse();
      ok, delivered := *, *;
      if !ok { faults := faults + 1; }
      trace := trace + [Entry(Asked(ok && delivered), w)];
    }

    /** `wait_for_stop`: true only once the given process, if one is given, is gone. */
    method WaitForStop(p: Option<Process>) returns (ok: bool, stopped: bool)
      modifies this
      ensures Drifts(old(w), w)
      ensures ok && stopped && p.Some? ==> p.value !in w.live
      ensures trace == old(trace) + [Entry(Waited(ok, stopped), w)]
      ensures faults == old(faults) + if ok then 0 else 1
    {
      Elapse();
      ok, stopped := *, *;
      if !ok { faults := faults + 1; }
      stopped := stopped && (p.None? || p.value !in w.live);
      trace := trace + [Entry(Waited(ok, stopped), w)];
    }

    /** `terminate_spawned`: a signal, not a guarantee of death. */
    method Terminate(pid: nat) returns (ok: bool)
      modifies this
      ensures Drifts(old(w), w)
      ensures trace == old(trace) + [Entry(Signalled(pid), w)]
      ensures faults == old(faults) + if ok then 0 else 1
    {
      Elapse();
      ok := *;
      if !ok { faults := faults + 1; }
      trace := trace + [Entry(Signalled(pid), w)];
    }

    /** `release_mapping`: a failure may still have detached the mapping. */
    method ReleaseMapping() returns (ok: bool)
      modifies this
      ensures Drifts(old(w).(mapped := w.mapped), w)
      ensures ok ==> !w.mapped
      ensures trace == old(trace) + [Entry(Released, w)]
      ensures faults == old(faults) + if ok then 0 else 1
    {
      Elapse();
      ok := *;
      if !ok { faults := faults + 1; }
      var partly: bool := *;
      if ok || partly {
        w := w.(mapped := false);
      }
      trace := trace + [Entry(Released, w)];
    }

    /** `ensure_mapping`: a failure may leave the mapping in either state. */
    method EnsureMapping() returns (ok: bool)
      modifies this
      ensures Drifts(old(w).(mapped := w.mapped), w)
      ensures ok ==> w.mapped
      ensures trace == old(trace) + [Entry(Something, w)]
      ensures faults == old(faults) + if ok then 0 else 1
    {
      Elapse();
      ok := *;
      if !ok { faults := faults + 1; }
      var partly: bool := *;
      w := w.(mapped := ok || partly);
      trace := trace + [Entry(Something, w)];
    }

    /**
      `launch_detached`: a failure or a zero identifier means that no process was made; otherwise a new
      process with a fresh identifier is alive.
    */
    method Launch(tools: Tools) returns (ok: bool, pid: nat)
      modifies this
      ensures ok && pid != 0 ==>
                && Drifts(old(w), w.(live := w.live - {Process(pid, tools)}))
                && Process(pid, tools) in w.live
                && trace == old(trace) + [Entry(Launched(Process(pid, tools)), w)]
      ensures !ok || pid == 0 ==> Drifts(old(w), w) && trace == old(trace) + [Entry(Something, w)]
      ensures faults == old(faults) + if ok && pid != 0 then 0 else 1
    {
      Elapse();
      ok, pid := *, *;
      if ok && pid != 0 {
        var taken := exists p | p in w.live :: p.pid == pid;
        if taken {
          ok, faults := false, faults + 1;
          trace := trace + [Entry(Something, w)];
          return;
        }
        w := w.(live := w.live + {Process(pid, tools)});
        trace := trace + [Entry(Launched(Process(pid, tools)), w)];
      } else {
        faults := faults + 1;
        trace := trace + [Entry(Something, w)];
      }
    }

    /** `persist_runtime`: a failed write leaves the row as it was. */
    method PersistRuntime(runtime: Runtime) returns (ok: bool)
      modifies this
      ensures ok ==> Drifts(old(w).(runtime := Some(runtime)), w)
      ensures !ok ==> Drifts(old(w), w)
      ensures trace == old(trace) + [Entry(if ok then Wrote(runtime) else Something, w)]
      ensures faults == old(faults) + if ok then 0 else 1
    {
      Elapse();
      ok := *;
      if !ok { faults := faults + 1; }
      if ok {
        w := w.(runtime := Some(runtime));
      }
      trace := trace + [Entry(if ok then Wrote(runtime) else Something, w)];
    }

    /** Whether an entry exists at the socket path. */
    method EntryExists() returns (ok: bool, exists_: bool)
      modifies this
      ensures Drifts(old(w), w)
      ensures exists_ == w.socketEntry
      ensures trace == old(trace) + [Entry(if ok then Passed(Other) else Something, w)]
      ensures faults == old(faults) + if ok then 0 else 1
    {
      ok := Attempt(Other);
      exists_ := w.socketEntry;
    }

    /** `remove_file` on the socket path. */
    method RemoveEntry() returns (ok: bool)
      modifies this
      ensures ok ==> Drifts(old(w).(socketEntry := w.socketEntry), w) && !w.socketEntry
      ensures !ok ==> Drifts(old(w), w)
      ensures trace == old(trace) + [Entry(EntryRemoved, w)]
      ensures faults == old(faults) + if ok then 0 else 1
    {
      Elapse();
      ok := *;
      if !ok { faults := faults + 1; }
      if ok {
        w := w.(socketEntry := false);
      }
      trace := trace + [Entry(EntryRemoved, w)];
    }

    /** A look at the root disk: its file length, the size its superblock states, and its measured usage. */
    method InspectDisk(check: Check) returns (ok: bool, len: nat, fsBytes: nat, used: nat)
      modifies this
      ensures Drifts(old(w), w)
      ensures len == w.fileLen && fsBytes == w.fsBytes && used == w.used
      ensures trace == old(trace) + [Entry(if ok then Passed(check) else Something, w)]
      ensures faults == old(faults) + if ok then 0 else 1
    {
      ok := Attempt(check);
      len, fsBytes, used := w.fileLen, w.fsBytes, w.used;
    }

    /** `set_len` on the root disk file. */
    method SetLen(len: nat) returns (ok: bool)
      modifies this
      ensures ok ==> Drifts(old(w).(fileLen := len), w)
      ensures !ok ==> Drifts(old(w), w)
      ensures trace == old(trace) + [Entry(Something, w)]
      ensures faults == old(faults) + if ok then 0 else 1
    {
      Elapse();
      ok := *;
      if !ok { faults := faults + 1; }
      if ok {
        w := w.(fileLen := len);
      }
      trace := trace + [Entry(Something, w)];
    }

    /**
      resize2fs, of which only this is relied on, whether it succeeds or fails: it keeps the filesystem no
      smaller than its content and inside the file, and never lengthens the file.
    */
    method RunResize2fs() returns (ok: bool)
      modifies this
      ensures w == old(w).(live := w.live, socketEntry := w.socketEntry, used := w.used,
                           fileLen := w.fileLen, fsBytes := w.fsBytes)
      ensures w.live <= old(w.live)
      ensures old(w.live) == {} ==> w.socketEntry == old(w.socketEntry) && w.used == old(w.used)
      ensures DiskSound(old(w)) ==> DiskSound(w)
      ensures trace == old(trace) + [Entry(Resized, w)]
      ensures faults == old(faults) + if ok then 0 else 1
    {
      Elapse();
      ok := *;
      if !ok { faults := faults + 1; }
      var len: nat, bytes: nat := *, *;
      if w.used <= bytes <= len <= w.fileLen {
        w := w.(fileLen := len, fsBytes := bytes);
      }
      trace := trace + [Entry(Resized, w)];
    }

    /** `update_microvm_resources`: one statement, so a failure leaves the row as it was. */
    method WriteResources(resources: Resources) returns (ok: bool)
      modifies this
      ensures ok ==> Drifts(old(w).(resources := resources), w)
      ensures !ok ==> Drifts(old(w), w)
      ensures trace == old(trace) + [Entry(Something, w)]
      ensures faults == old(faults) + if ok then 0 else 1
    {
      Elapse();
      ok := *;
      if !ok { faults := faults + 1; }
      if ok {
        w := w.(resources := resources);
      }
      trace := trace + [Entry(Something, w)];
    }
  }
}
