/**
  `update_microvm`: resize a stopped VM's root disk and resource row so that a crash at any instant leaves a
  disk that still holds its filesystem, and a later update can converge it.
*/
module Update {
  import opened Wrappers
  import opened Bounds
  import opened Host
  import Lifecycle

  const BYTES_PER_MIB: nat := 1024 * 1024
  const SECTOR_BYTES: nat := 512

  datatype Request = Request(diskBytes: Option<nat>, memoryBytes: Option<nat>, vcpus: Option<nat>)

  /** The distribution requirements the registry manifest states, if it can be fetched and lists it. */
  datatype Requirements = Requirements(minMemoryMb: nat, minVcpus: nat)

  datatype Step =
    | InvalidRequest | Lookup | Incomplete | SocketProbe | StillRunning | NotExited
    | Manifest | Requirement | Inspect | Converge | Measure | BelowUsage
    | ReleaseMapping | Resize | WriteRow

  datatype Error = Failed(step: Step) | Cleanup(primary: Step)

  /** What a successful update reports. */
  datatype Updated = Updated(resources: Resources, resized: bool, changed: bool)

  function Wanted(request: Request, stored: Resources): Resources {
    var memory := if request.memoryBytes.Some? then request.memoryBytes.value else stored.memoryBytes;
    Resources(
      if request.diskBytes.Some? then request.diskBytes.value else stored.diskBytes,
      memory,
      (memory + BYTES_PER_MIB - 1) / BYTES_PER_MIB,
      if request.vcpus.Some? then request.vcpus.value else stored.vcpus)
  }

  /** The request checks made before any lock is taken. */
  predicate Acceptable(request: Request) {
    && (request.diskBytes.Some? || request.memoryBytes.Some? || request.vcpus.Some?)
    && (request.diskBytes.Some? ==> 0 < request.diskBytes.value <= I64_MAX)
    && (request.memoryBytes.Some? ==> 0 < request.memoryBytes.value <= I64_MAX)
    && (request.vcpus.Some? ==> 0 < request.vcpus.value)
  }

  /** The registry requirements and the range of the MiB conversion. */
  predicate Fits(wanted: Resources, needs: Requirements) {
    && needs.minMemoryMb * BYTES_PER_MIB <= U64_MAX
    && needs.minMemoryMb * BYTES_PER_MIB <= wanted.memoryBytes
    && needs.minVcpus <= wanted.vcpus
    && wanted.memoryBytes + BYTES_PER_MIB - 1 <= U64_MAX
    && 0 < wanted.memoryMib <= I64_MAX
  }

  /** The stored MiB value is the exact ceiling of the memory size. */
  lemma MebibytesAreTheCeiling(request: Request, stored: Resources)
    ensures var w := Wanted(request, stored);
            && (w.memoryMib - 1) * BYTES_PER_MIB < w.memoryBytes <= w.memoryMib * BYTES_PER_MIB
  {
    var w := Wanted(request, stored);
    var n := w.memoryBytes + BYTES_PER_MIB - 1;
    assert n == n / BYTES_PER_MIB * BYTES_PER_MIB + n % BYTES_PER_MIB;
  }

  /** Nothing was launched or signalled, and the resource row stayed as it was. */
  ghost predicate Quiet(t: seq<Entry>, from: nat, resources: Resources) {
    forall i | from <= i < |t| ::
      !t[i].event.Launched? && !t[i].event.Signalled? && t[i].world.resources == resources
  }

  /** The last steps checked the filesystem, perhaps with a change of the file's length after them. */
  ghost predicate JustChecked(t: seq<Entry>, from: nat) {
    var n := |t|;
    || (n >= from + 2 && t[n - 1].event == Passed(Consistency) && t[n - 2].event == Passed(Signature))
    || (n >= from + 3 && t[n - 2].event == Passed(Consistency) && t[n - 3].event == Passed(Signature))
  }

  /** A filesystem is resized only right after its signature and its consistency were checked. */
  ghost predicate ResizesAreChecked(t: seq<Entry>, from: nat) {
    |t| <= from ||
    var front := t[..|t| - 1];
    (t[|t| - 1].event.Resized? ==> JustChecked(front, from)) && ResizesAreChecked(front, from)
  }

  /** The last step found that the disk's content fits the wanted size. */
  ghost predicate JustMeasured(t: seq<Entry>, from: nat, wanted: nat) {
    from < |t| && t[|t| - 1].event == Passed(Usage) && t[|t| - 1].world.used <= wanted
  }

  /** The mapping is released only right after that. */
  ghost predicate ReleasesAreMeasured(t: seq<Entry>, from: nat, wanted: nat) {
    |t| <= from ||
    var front := t[..|t| - 1];
    (t[|t| - 1].event.Released? ==> JustMeasured(front, from, wanted)) && ReleasesAreMeasured(front, from, wanted)
  }

  /** What a call that wants this disk size, if any, may do to the disk. */
  ghost predicate IsCareful(wanted: Option<nat>, t: seq<Entry>, from: nat) {
    && ResizesAreChecked(t, from)
    && if wanted.Some? then ReleasesAreMeasured(t, from, wanted.value) else NoRelease(t, from)
  }

  lemma {:induction false} LookingIsCareful(wanted: Option<nat>, t: seq<Entry>, from: nat)
    requires from <= |t| && ResizesAreChecked(t, from) && NoRelease(t, from)
    ensures IsCareful(wanted, t, from)
  {
    if wanted.Some? {
      MeasuredStays(t[..from], t, from, wanted.value);
    }
  }

  ghost predicate NoResize(t: seq<Entry>, from: nat) {
    forall i | from <= i < |t| :: !t[i].event.Resized?
  }

  lemma {:induction false} CheckedStays(t: seq<Entry>, t': seq<Entry>, from: nat)
    requires t <= t' && from <= |t| && ResizesAreChecked(t, from) && NoResize(t', |t|)
    ensures ResizesAreChecked(t', from)
  {
    if |t| < |t'| {
      CheckedStays(t, t'[..|t'| - 1], from);
    } else {
      assert t == t';
    }
  }

  lemma {:induction false} MeasuredStays(t: seq<Entry>, t': seq<Entry>, from: nat, wanted: nat)
    requires t <= t' && from <= |t| && ReleasesAreMeasured(t, from, wanted) && NoRelease(t', |t|)
    ensures ReleasesAreMeasured(t', from, wanted)
  {
    if |t| < |t'| {
      MeasuredStays(t, t'[..|t'| - 1], from, wanted);
    } else {
      assert t == t';
    }
  }

  ghost predicate NoRelease(t: seq<Entry>, from: nat) {
    forall i | from <= i < |t| :: !t[i].event.Released?
  }

  /** The call has confirmed that nothing runs, and so far moved only the disk and its mapping. */
  ghost predicate Working(a: World, b: World, t: seq<Entry>, from: nat) {
    && from <= |t|
    && b == a.(live := b.live, socketEntry := b.socketEntry, used := b.used,
               fileLen := b.fileLen, fsBytes := b.fsBytes, mapped := b.mapped)
    && Quiet(t, from, a.resources)
    && ResizesAreChecked(t, from)
    && (Inv(a) ==> b.live == {} && DiskSound(b) && AllGuarded(t, from))
  }

  /** What the disk looks like. */
  datatype Disk = Disk(len: nat, fsBytes: nat, used: nat)

  /** Look at the disk, or run a tool that leaves its sizes alone. */
  method Look(h: Host, check: Check, ghost a: World, ghost from: nat) returns (ok: bool, disk: Disk)
    requires Working(a, h.w, h.trace, from)
    modifies h
    ensures old(h.trace) <= h.trace
    ensures Working(a, h.w, h.trace, from) && h.w.mapped == old(h.w.mapped)
    ensures disk == Disk(h.w.fileLen, h.w.fsBytes, h.w.used)
    ensures h.w.fileLen == old(h.w.fileLen) && h.w.fsBytes == old(h.w.fsBytes)
    ensures h.trace == old(h.trace) + [Entry(if ok then Passed(check) else Something, h.w)]
    ensures h.faults == old(h.faults) + if ok then 0 else 1
  {
    var len, fsBytes, used;
    ok, len, fsBytes, used := h.InspectDisk(check);
    disk := Disk(len, fsBytes, used);
    CheckedStays(old(h.trace), h.trace, from);
  }

  /** Change the length of the disk file, to no less than the filesystem in it. */
  method SetLength(h: Host, len: nat, ghost a: World, ghost from: nat) returns (ok: bool)
    requires Working(a, h.w, h.trace, from)
    requires DiskSound(h.w) ==> h.w.fsBytes <= len
    modifies h
    ensures old(h.trace) <= h.trace
    ensures Working(a, h.w, h.trace, from) && h.w.mapped == old(h.w.mapped)
    ensures h.w.fileLen == if ok then len else old(h.w.fileLen)
    ensures h.w.fsBytes == old(h.w.fsBytes)
    ensures h.faults == old(h.faults) + if ok then 0 else 1
    ensures NoRelease(h.trace, |old(h.trace)|)
    ensures |h.trace| == |old(h.trace)| + 1 && !h.trace[|h.trace| - 1].event.Resized?
  {
    ok := h.SetLen(len);
    CheckedStays(old(h.trace), h.trace, from);
  }

  method Resize2fs(h: Host, ghost a: World, ghost from: nat) returns (ok: bool)
    requires Working(a, h.w, h.trace, from)
    requires JustChecked(h.trace, from)
    modifies h
    ensures old(h.trace) <= h.trace
    ensures Working(a, h.w, h.trace, from) && h.w.mapped == old(h.w.mapped)
    ensures h.faults == old(h.faults) + if ok then 0 else 1
    ensures NoRelease(h.trace, |old(h.trace)|)
  {
    ok := h.RunResize2fs();
    assert h.trace[..|h.trace| - 1] == old(h.trace);
  }

  /** The filesystem does not fit the wanted size, or its size does not fit 64 bits. */
  ghost predicate Oversized(w: World, target: nat) {
    w.fsBytes > target || w.fsBytes > U64_MAX
  }

  /** The call saw such a filesystem. */
  ghost predicate SeenOversized(t: seq<Entry>, from: nat, target: nat) {
    exists i | from <= i < |t| :: Oversized(t[i].world, target)
  }

  /** The reason there must be for a failed resize. */
  ghost predicate CannotResize(t: seq<Entry>, from: nat, target: nat, faulty: bool) {
    faulty || target < SECTOR_BYTES || SeenOversized(t, from, target)
  }

  /** What every part of a resize keeps. */
  twostate predicate Resizing(h: Host, a: World, from: nat)
    reads h
  {
    && old(h.trace) <= h.trace && NoRelease(h.trace, |old(h.trace)|) && old(h.faults) <= h.faults
    && Working(a, h.w, h.trace, from) && h.w.mapped == old(h.w.mapped)
  }

  /** `resize_rootfs_file` of the ext4 adapter. */
  method ResizeRootfs(h: Host, target: nat, ghost a: World, ghost from: nat) returns (ok: bool)
    requires Working(a, h.w, h.trace, from)
    modifies h
    ensures Resizing(h, a, from)
    ensures ok ==> h.w.fileLen == target
    ensures !ok ==> CannotResize(h.trace, from, target, h.faults > old(h.faults))
    ensures ok ==> h.faults == old(h.faults)
  {
    if target == 0 {
      return false;
    }
    var before;
    ok, before := Look(h, Other, a, from);
    if !ok || before.len == target {
      return;
    }
    ok := ResizeFrom(h, before.len, target, a, from);
  }

  /** The file has another length than the target. */
  method ResizeFrom(h: Host, len: nat, target: nat, ghost a: World, ghost from: nat) returns (ok: bool)
    requires Working(a, h.w, h.trace, from) && h.w.fileLen == len
    modifies h
    ensures Resizing(h, a, from)
    ensures ok ==> h.w.fileLen == target
    ensures !ok ==> CannotResize(h.trace, from, target, h.faults > old(h.faults))
    ensures ok ==> h.faults == old(h.faults)
    ensures ok ==> JustVerified(h.trace, |old(h.trace)|)
  {
    ok := CheckFilesystem(h, a, from);
    if !ok {
      return;
    }
    if target > len {
      ok := SetLength(h, target, a, from);
      if !ok {
        return;
      }
    } else if target / SECTOR_BYTES == 0 {
      return false;
    }
    ok := Resize2fs(h, a, from);
    if !ok {
      return;
    }
    ok := SettleLength(h, target, a, from);
  }

  /** The last steps checked the signature and the length once more. */
  ghost predicate JustVerified(t: seq<Entry>, from: nat) {
    |t| >= from + 2 && t[|t| - 2].event == Passed(Signature)
  }

  /** The ext4 signature and e2fsck. */
  method CheckFilesystem(h: Host, ghost a: World, ghost from: nat) returns (ok: bool)
    requires Working(a, h.w, h.trace, from)
    modifies h
    ensures Resizing(h, a, from)
    ensures h.w.fileLen == old(h.w.fileLen) && h.w.fsBytes == old(h.w.fsBytes)
    ensures ok ==> h.faults == old(h.faults) && |h.trace| == |old(h.trace)| + 2
    ensures ok ==> h.trace[|h.trace| - 2].event == Passed(Signature)
    ensures ok ==> h.trace[|h.trace| - 1].event == Passed(Consistency)
    ensures !ok ==> h.faults > old(h.faults)
  {
    var disk;
    ok, disk := Look(h, Signature, a, from);
    if !ok {
      return;
    }
    ok, disk := Look(h, Consistency, a, from);
  }

  /** The tail of the resize: set the file to exactly the target, but never below the filesystem. */
  method SettleLength(h: Host, target: nat, ghost a: World, ghost from: nat) returns (ok: bool)
    requires Working(a, h.w, h.trace, from)
    modifies h
    ensures Resizing(h, a, from)
    ensures ok ==> h.w.fileLen == target
    ensures !ok ==> CannotResize(h.trace, from, target, h.faults > old(h.faults))
    ensures ok ==> h.faults == old(h.faults)
    ensures ok ==> JustVerified(h.trace, |old(h.trace)|)
  {
    var disk;
    ok, disk := Look(h, Other, a, from);
    if !ok {
      return;
    }
    if disk.fsBytes > U64_MAX || disk.fsBytes > target {
      assert h.trace[|h.trace| - 1].world == h.w;
      return false;
    }
    ok := FitFile(h, target, a, from);
  }

  /** The filesystem fits: make the file fit it, and check both once more. */
  method FitFile(h: Host, target: nat, ghost a: World, ghost from: nat) returns (ok: bool)
    requires Working(a, h.w, h.trace, from) && h.w.fsBytes <= target
    modifies h
    ensures Resizing(h, a, from)
    ensures ok ==> h.w.fileLen == target
    ensures !ok ==> h.faults > old(h.faults)
    ensures ok ==> h.faults == old(h.faults)
    ensures ok ==> JustVerified(h.trace, |old(h.trace)|)
  {
    var disk;
    ok, disk := Look(h, Other, a, from);
    if !ok {
      return;
    }
    if disk.len != target {
      ok := SetLength(h, target, a, from);
      if !ok {
        return;
      }
    }
    ok := VerifyFitted(h, target, a, from);
  }

  method VerifyFitted(h: Host, target: nat, ghost a: World, ghost from: nat) returns (ok: bool)
    requires Working(a, h.w, h.trace, from) && h.w.fileLen == target
    modifies h
    ensures Resizing(h, a, from) && h.w.fileLen == target
    ensures !ok ==> h.faults > old(h.faults)
    ensures ok ==> |h.trace| == |old(h.trace)| + 2 && h.trace[|h.trace| - 2].event == Passed(Signature)
    ensures ok ==> h.faults == old(h.faults)
  {
    var disk;
    ok, disk := Look(h, Signature, a, from);
    if !ok {
      return;
    }
    ok, disk := Look(h, Other, a, from);
    ok := ok && disk.len == target;
  }

  /** The steps that follow the convergence of the file to its recorded size. */
  predicate AfterConverge(step: Step) {
    step in {Measure, BelowUsage, ReleaseMapping, Resize, WriteRow}
  }

  /** What an update promises, between the world before and after it and over its own trace. */
  ghost predicate UpdateContract(
    request: Request, a: World, b: World, r: Result<Updated, Error>, t: seq<Entry>, from: nat)
  {
    && NoLaunch(t, from) && NoSignal(t, from)
    && (Inv(a) ==> Inv(b) && AllGuarded(t, from))
    && (forall i | from <= i < |t| :: t[i].world.resources in {a.resources, Wanted(request, a.resources)})
    && b.runtime == a.runtime
    && (r.Ok? ==>
          && Acceptable(request)
          && r.value.resources == b.resources
          && r.value.resized == (b.resources.diskBytes != a.resources.diskBytes)
          && r.value.changed == (b.resources != a.resources))
    && (r.Ok? && r.value.changed ==>
          && b.resources == Wanted(request, a.resources)
          && b.fileLen == b.resources.diskBytes
          && (r.value.resized ==> !b.mapped))
    && (r.Ok? && !r.value.changed ==> b.fileLen == a.fileLen)
    && (r.Err? ==> b.resources == a.resources)
    && (r.Err? && r.error.Failed? && AfterConverge(r.error.step) ==> b.fileLen == a.resources.diskBytes)
    && (r.Err? && r.error.Failed? && !AfterConverge(r.error.step) && r.error.step != Converge ==>
          b.fileLen == a.fileLen)
    && (r.Err? && r.error.Cleanup? ==> r.error.primary in {Resize, WriteRow})
  }

  /** What was asked for is there, what was not is as before, and the memory in MiB is its ceiling if any changed. */
  ghost predicate IsGranted(request: Request, old_: Resources, new_: Resources) {
    && (request.diskBytes.Some? || request.memoryBytes.Some? || request.vcpus.Some?)
    && (match request.diskBytes case Some(n) => new_.diskBytes == n > 0 case None => new_.diskBytes == old_.diskBytes)
    && (match request.memoryBytes
        case Some(n) => new_.memoryBytes == n > 0
        case None => new_.memoryBytes == old_.memoryBytes)
    && (match request.vcpus case Some(n) => new_.vcpus == n > 0 case None => new_.vcpus == old_.vcpus)
    && (|| new_ == old_
        || (new_.memoryMib - 1) * BYTES_PER_MIB < new_.memoryBytes <= new_.memoryMib * BYTES_PER_MIB)
  }

  predicate OutOfRange(n: Option<nat>, limit: nat) {
    n.Some? && (n.value == 0 || n.value > limit)
  }

  /** The distribution's minimums are met. */
  ghost predicate Suffices(r: Resources, needs: Requirements) {
    r.memoryBytes >= needs.minMemoryMb * BYTES_PER_MIB && r.vcpus >= needs.minVcpus
  }

  /** The second step found the socket silent, and the third the recorded process alive. */
  ghost predicate SilentButAlive(a: World, t: seq<Entry>, from: nat) {
    && from + 2 < |t| && Lifecycle.Recorded(a)
    && t[from + 1].event == Probed(false) && t[from + 2].event == Referenced(Lifecycle.RecordedProcess(a), true)
  }

  /** The second step found the socket silent and the third, if a process is recorded, found it dead. */
  ghost predicate SeenStopped(a: World, t: seq<Entry>, from: nat) {
    && from + 1 < |t| && a.runtime.Some? && t[from + 1].event == Probed(false)
    && (Lifecycle.Recorded(a) ==>
          from + 2 < |t| && t[from + 2].event == Referenced(Lifecycle.RecordedProcess(a), false))
  }

  /** The answers given before the machine is known to be stopped. */
  predicate IsEarly(r: Result<Updated, Error>) {
    r.Err? && r.error.Failed?
    && r.error.step in {InvalidRequest, Lookup, Incomplete, SocketProbe, StillRunning, NotExited}
  }

  /** The reason there must be for a failed update: `faulty` says that a port failed during the call. */
  ghost predicate Excused(request: Request, manifest: Option<Requirements>, a: World, b: World, e: Error,
                          t: seq<Entry>, from: nat, faulty: bool) {
    match if e.Failed? then e.step else e.primary
    case InvalidRequest =>
      || (request.diskBytes.None? && request.memoryBytes.None? && request.vcpus.None?)
      || OutOfRange(request.diskBytes, I64_MAX) || OutOfRange(request.memoryBytes, I64_MAX) || request.vcpus == Some(0)
    case Incomplete => a.runtime.None?
    case StillRunning => Lifecycle.Heard(t, from)
    case NotExited => faulty || SilentButAlive(a, t, from)
    case Manifest => manifest.None?
    case Requirement => manifest.Some? && var w := Wanted(request, a.resources);
      || !Suffices(w, manifest.value)
      || manifest.value.minMemoryMb * BYTES_PER_MIB > U64_MAX || w.memoryBytes + BYTES_PER_MIB > U64_MAX + 1
      || w.memoryBytes == 0 || w.memoryMib > I64_MAX
    case Converge => CannotResize(t, from, a.resources.diskBytes, faulty)
    case BelowUsage => Wanted(request, a.resources).diskBytes < b.used
    case Resize => CannotResize(t, from, Wanted(request, a.resources).diskBytes, faulty)
    case _ => faulty
  }

  /** `update_microvm`; `manifest` is what the registry answers for the VM's distribution. */
  method Update(h: Host, request: Request, manifest: Option<Requirements>) returns (r: Result<Updated, Error>)
    modifies h
    ensures old(h.trace) <= h.trace
    ensures UpdateContract(request, old(h.w), h.w, r, h.trace, |old(h.trace)|)
    ensures r.Err? ==>
      Excused(request, manifest, old(h.w), h.w, r.error, h.trace, |old(h.trace)|, h.faults > old(h.faults))
    ensures r.Ok? ==> IsGranted(request, old(h.w.resources), h.w.resources)
    ensures r.Ok? ==> manifest.Some? && Suffices(h.w.resources, manifest.value)
    ensures IsCareful(request.diskBytes, h.trace, |old(h.trace)|)
    ensures IsEarly(r) || SeenStopped(old(h.w), h.trace, |old(h.trace)|)
    ensures r.Ok? ==> h.faults == old(h.faults)
  {
    ghost var a, from, f := h.w, |h.trace|, h.faults;
    if !Acceptable(request) {
      return Err(Failed(InvalidRequest));
    }
    var confirmed, stored := ConfirmStopped(h);
    LookingIsCareful(request.diskBytes, h.trace, from);
    if confirmed.Some? {
      return Err(Failed(confirmed.value));
    }
    r := UpdateStopped(h, request, manifest, stored, a, from, f);
  }

  /** The machine is known to be stopped: check the request against the registry, and grant it. */
  method UpdateStopped(h: Host, request: Request, manifest: Option<Requirements>, stored: Resources, ghost a: World,
                       ghost from: nat, ghost f: nat)
    returns (r: Result<Updated, Error>)
    requires Working(a, h.w, h.trace, from) && a.resources == stored && h.w.fileLen == a.fileLen
    requires Acceptable(request) && NoRelease(h.trace, from) && f == h.faults
    modifies h
    ensures old(h.trace) <= h.trace
    ensures UpdateContract(request, a, h.w, r, h.trace, from)
    ensures r.Err? ==> Excused(request, manifest, a, h.w, r.error, h.trace, from, h.faults > f)
    ensures r.Ok? ==> IsGranted(request, stored, h.w.resources)
    ensures r.Ok? ==> manifest.Some? && Suffices(h.w.resources, manifest.value)
    ensures IsCareful(request.diskBytes, h.trace, from)
    ensures r.Ok? ==> h.faults == f
  {
    LookingIsCareful(request.diskBytes, h.trace, from);
    if manifest.None? {
      return Err(Failed(Manifest));
    }
    var wanted := Wanted(request, stored);
    if !Fits(wanted, manifest.value) {
      return Err(Failed(Requirement));
    }
    if && wanted.diskBytes == stored.diskBytes && wanted.memoryBytes == stored.memoryBytes
       && wanted.vcpus == stored.vcpus {
      return Ok(Updated(stored, false, false));
    }
    MebibytesAreTheCeiling(request, stored);
    r := ConvergeAndApply(h, request, stored, wanted, a, from, f, manifest);
  }

  /** The part of the update that touches the disk. */
  method ConvergeAndApply(h: Host, request: Request, stored: Resources, wanted: Resources, ghost a: World,
                          ghost from: nat, ghost f: nat, ghost manifest: Option<Requirements>)
    returns (r: Result<Updated, Error>)
    requires Working(a, h.w, h.trace, from) && a.resources == stored && wanted == Wanted(request, stored)
    requires Acceptable(request) && wanted != stored && NoRelease(h.trace, from) && h.w.fileLen == a.fileLen
    requires f == h.faults
    modifies h
    ensures old(h.trace) <= h.trace
    ensures UpdateContract(request, a, h.w, r, h.trace, from)
    ensures r.Err? ==> Excused(request, manifest, a, h.w, r.error, h.trace, from, h.faults > f)
    ensures r.Ok? ==> r.value.changed
    ensures IsCareful(request.diskBytes, h.trace, from)
    ensures r.Ok? ==> h.faults == f
  {
    var failed := ConvergeDisk(h, stored.diskBytes, a, from);
    LookingIsCareful(request.diskBytes, h.trace, from);
    if failed.Some? {
      return Err(Failed(failed.value));
    }
    r := Apply(h, request, stored, wanted, a, from, f, manifest);
  }

  /** Bring the file to its recorded size, should an earlier update have been cut short. */
  method ConvergeDisk(h: Host, recorded: nat, ghost a: World, ghost from: nat) returns (failed: Option<Step>)
    requires Working(a, h.w, h.trace, from)
    modifies h
    ensures old(h.trace) <= h.trace
    ensures Working(a, h.w, h.trace, from) && h.faults >= old(h.faults)
    ensures failed.None? ==> h.w.fileLen == recorded
    ensures failed.Some? ==>
      || (failed.value == Inspect && h.w.fileLen == old(h.w.fileLen) && h.faults > old(h.faults))
      || (failed.value == Converge && CannotResize(h.trace, from, recorded, h.faults > old(h.faults)))
    ensures NoRelease(h.trace, |old(h.trace)|)
    ensures failed.None? ==> h.faults == old(h.faults)
  {
    var ok, disk := Look(h, Other, a, from);
    if !ok {
      return Some(Inspect);
    }
    if disk.len != recorded {
      ok := ResizeRootfs(h, recorded, a, from);
      if !ok {
        return Some(Converge);
      }
    }
    return None;
  }

  /** Look the VM up and refuse unless it is complete, silent and without a live recorded process. */
  method ConfirmStopped(h: Host) returns (refusal: Option<Step>, resources: Resources)
    modifies h
    ensures old(h.trace) <= h.trace
    ensures Drifts(old(h.w), h.w)
    ensures Quiet(h.trace, |old(h.trace)|, old(h.w.resources))
    ensures Inv(old(h.w)) ==> Inv(h.w) && AllGuarded(h.trace, |old(h.trace)|)
    ensures refusal.None? ==> Working(old(h.w), h.w, h.trace, |old(h.trace)|) && resources == h.w.resources
    ensures refusal.Some? ==> refusal.value in {Lookup, Incomplete, SocketProbe, StillRunning, NotExited}
    ensures h.faults >= old(h.faults)
    ensures refusal.Some? ==>
      match refusal.value
      case Incomplete => old(h.w).runtime.None?
      case StillRunning => Lifecycle.Heard(h.trace, |old(h.trace)|)
      case NotExited => h.faults > old(h.faults) || SilentButAlive(old(h.w), h.trace, |old(h.trace)|)
      case _ => h.faults > old(h.faults)
    ensures NoRelease(h.trace, |old(h.trace)|) && ResizesAreChecked(h.trace, |old(h.trace)|)
    ensures refusal.None? ==> SeenStopped(old(h.w), h.trace, |old(h.trace)|)
    ensures refusal.None? ==> h.faults == old(h.faults)
  {
    refusal, resources := LookForRefusal(h);
    CheckedStays(old(h.trace), h.trace, |old(h.trace)|);
  }

  method LookForRefusal(h: Host) returns (refusal: Option<Step>, resources: Resources)
    modifies h
    ensures old(h.trace) <= h.trace
    ensures Drifts(old(h.w), h.w)
    ensures Quiet(h.trace, |old(h.trace)|, old(h.w.resources))
    ensures NoRelease(h.trace, |old(h.trace)|) && NoResize(h.trace, |old(h.trace)|)
    ensures Inv(old(h.w)) ==> Inv(h.w) && AllGuarded(h.trace, |old(h.trace)|)
    ensures refusal.None? ==> resources == h.w.resources && (Inv(old(h.w)) ==> h.w.live == {})
    ensures refusal.Some? ==> refusal.value in {Lookup, Incomplete, SocketProbe, StillRunning, NotExited}
    ensures h.faults >= old(h.faults)
    ensures refusal.Some? ==>
      match refusal.value
      case Incomplete => old(h.w).runtime.None?
      case StillRunning => Lifecycle.Heard(h.trace, |old(h.trace)|)
      case NotExited => h.faults > old(h.faults) || SilentButAlive(old(h.w), h.trace, |old(h.trace)|)
      case _ => h.faults > old(h.faults)
    ensures refusal.None? ==> SeenStopped(old(h.w), h.trace, |old(h.trace)|)
    ensures refusal.None? ==> h.faults == old(h.faults)
  {
    var ok, stored, stated, _ := h.Find();
    resources := stated;
    if !ok {
      return Some(Lookup), resources;
    }
    if stored.None? {
      return Some(Incomplete), resources;
    }
    var answered;
    ok, answered := h.SocketAnswers();
    assert h.trace[|old(h.trace)| + 1].event == Probed(answered);
    if !ok {
      return Some(SocketProbe), resources;
    }
    if answered {
      return Some(StillRunning), resources;
    }
    var exited := Lifecycle.VerifyRecordedProcessExited(h, stored.value);
    return if exited.Err? then Some(NotExited) else None, resources;
  }

  /** The converged part of the update: resize first, write the row second, roll the disk back on failure. */
  method Apply(h: Host, request: Request, stored: Resources, wanted: Resources, ghost a: World, ghost from: nat,
               ghost f: nat, ghost manifest: Option<Requirements>)
    returns (r: Result<Updated, Error>)
    requires Working(a, h.w, h.trace, from) && a.resources == stored && wanted == Wanted(request, stored)
    requires Acceptable(request) && h.w.fileLen == stored.diskBytes
    requires wanted != stored && NoRelease(h.trace, from)
    requires f == h.faults
    modifies h
    ensures old(h.trace) <= h.trace
    ensures UpdateContract(request, a, h.w, r, h.trace, from)
    ensures r.Err? ==> Excused(request, manifest, a, h.w, r.error, h.trace, from, h.faults > f)
    ensures r.Ok? ==> r.value.changed
    ensures IsCareful(request.diskBytes, h.trace, from)
    ensures r.Ok? ==> h.faults == f
  {
    var diskChanged := wanted.diskBytes != stored.diskBytes;
    LookingIsCareful(request.diskBytes, h.trace, from);
    if diskChanged {
      var failed := ChangeDisk(h, stored.diskBytes, wanted.diskBytes, a, from);
      if failed.Some? {
        return Err(failed.value);
      }
    }
    r := CommitRow(h, request, stored, wanted, a, from, f, manifest);
  }

  /** Measure, release the mapping, resize, and resize back if that fails. */
  method ChangeDisk(h: Host, previous: nat, target: nat, ghost a: World, ghost from: nat)
    returns (failed: Option<Error>)
    requires Working(a, h.w, h.trace, from) && h.w.fileLen == previous && NoRelease(h.trace, from)
    modifies h
    ensures old(h.trace) <= h.trace
    ensures Working(a, h.w, h.trace, from)
    ensures failed.None? ==> h.w.fileLen == target && !h.w.mapped
    ensures failed.Some? && failed.value.Failed? ==> AfterConverge(failed.value.step) && h.w.fileLen == previous
    ensures failed.Some? && failed.value.Cleanup? ==> failed.value.primary == Resize
    ensures h.faults >= old(h.faults)
    ensures failed.Some? ==>
      match if failed.value.Failed? then failed.value.step else failed.value.primary
      case BelowUsage => target < h.w.used
      case Resize => CannotResize(h.trace, from, target, h.faults > old(h.faults))
      case Measure => h.faults > old(h.faults)
      case ReleaseMapping => h.faults > old(h.faults)
      case _ => false
    ensures ReleasesAreMeasured(h.trace, from, target)
    ensures failed.None? ==> h.faults == old(h.faults)
  {
    var ok, disk := Look(h, Usage, a, from);
    LookingIsCareful(Some(target), h.trace, from);
    if !ok {
      return Some(Failed(Measure));
    }
    if target < disk.used {
      return Some(Failed(BelowUsage));
    }
    ghost var t := h.trace;
    ok := Release(h, a, from);
    assert h.trace[..|h.trace| - 1] == t;
    if !ok {
      return Some(Failed(ReleaseMapping));
    }
    failed := ResizeOrBack(h, previous, target, a, from);
  }

  /** Resize, and resize back if that fails. */
  method ResizeOrBack(h: Host, previous: nat, target: nat, ghost a: World, ghost from: nat)
    returns (failed: Option<Error>)
    requires Working(a, h.w, h.trace, from) && !h.w.mapped && ReleasesAreMeasured(h.trace, from, target)
    modifies h
    ensures old(h.trace) <= h.trace && h.faults >= old(h.faults)
    ensures Working(a, h.w, h.trace, from) && ReleasesAreMeasured(h.trace, from, target)
    ensures failed.None? ==> h.w.fileLen == target && !h.w.mapped
    ensures failed.Some? ==>
      && failed.value in {Failed(Resize), Cleanup(Resize)} && (failed.value.Failed? ==> h.w.fileLen == previous)
      && CannotResize(h.trace, from, target, h.faults > old(h.faults))
    ensures failed.None? ==> h.faults == old(h.faults)
  {
    var ok := ResizeRootfs(h, target, a, from);
    if !ok {
      ghost var t := h.trace;
      ok := ResizeRootfs(h, previous, a, from);
      SightLasts(t, h.trace, from, target);
      failed := Some(if ok then Failed(Resize) else Cleanup(Resize));
    } else {
      failed := None;
    }
    MeasuredStays(old(h.trace), h.trace, from, target);
  }

  lemma SightLasts(t: seq<Entry>, t': seq<Entry>, from: nat, target: nat)
    requires t <= t'
    ensures SeenOversized(t, from, target) ==> SeenOversized(t', from, target)
  {
    if SeenOversized(t, from, target) {
      var i :| from <= i < |t| && Oversized(t[i].world, target);
      assert Oversized(t'[i].world, target);
    }
  }

  method Release(h: Host, ghost a: World, ghost from: nat) returns (ok: bool)
    requires Working(a, h.w, h.trace, from)
    modifies h
    ensures old(h.trace) <= h.trace
    ensures Working(a, h.w, h.trace, from)
    ensures h.w.fileLen == old(h.w.fileLen)
    ensures ok ==> !h.w.mapped
    ensures h.faults == old(h.faults) + if ok then 0 else 1
    ensures h.trace == old(h.trace) + [Entry(Released, h.w)]
  {
    ok := h.ReleaseMapping();
    CheckedStays(old(h.trace), h.trace, from);
  }

  method CommitRow(h: Host, request: Request, stored: Resources, wanted: Resources, ghost a: World, ghost from: nat,
               ghost f: nat, ghost manifest: Option<Requirements>)
    returns (r: Result<Updated, Error>)
    requires Working(a, h.w, h.trace, from) && a.resources == stored && wanted == Wanted(request, stored)
    requires Acceptable(request) && h.w.fileLen == wanted.diskBytes && wanted != stored
    requires wanted.diskBytes != stored.diskBytes ==> !h.w.mapped
    requires IsCareful(request.diskBytes, h.trace, from)
    requires f == h.faults
    modifies h
    ensures old(h.trace) <= h.trace
    ensures UpdateContract(request, a, h.w, r, h.trace, from)
    ensures r.Err? ==> Excused(request, manifest, a, h.w, r.error, h.trace, from, h.faults > f)
    ensures r.Ok? ==> r.value.changed
    ensures IsCareful(request.diskBytes, h.trace, from)
    ensures r.Ok? ==> h.faults == f
  {
    var ok := PutRow(h, wanted, a, from);
    CareLasts(request.diskBytes, old(h.trace), h.trace, from);
    if ok {
      return Ok(Updated(wanted, wanted.diskBytes != stored.diskBytes, true));
    }
    if wanted.diskBytes != stored.diskBytes {
      ok := ResizeRootfs(h, stored.diskBytes, a, from);
      CareLasts(request.diskBytes, old(h.trace), h.trace, from);
      if !ok {
        return Err(Cleanup(WriteRow));
      }
    }
    return Err(Failed(WriteRow));
  }

  method PutRow(h: Host, wanted: Resources, ghost a: World, ghost from: nat) returns (ok: bool)
    requires Working(a, h.w, h.trace, from)
    modifies h
    ensures h.trace == old(h.trace) + [Entry(Something, h.w)]
    ensures h.faults == old(h.faults) + if ok then 0 else 1
    ensures ResizesAreChecked(h.trace, from)
    ensures !ok ==> Working(a, h.w, h.trace, from) && h.w.fileLen == old(h.w.fileLen) && h.w.mapped == old(h.w.mapped)
    ensures ok ==> Drifts(old(h.w).(resources := wanted), h.w) && h.w.resources == wanted
    ensures ok && Inv(a) ==> Inv(h.w) && AllGuarded(h.trace, from)
  {
    ok := h.WriteResources(wanted);
    CheckedStays(old(h.trace), h.trace, from);
  }

  lemma {:induction false} CareLasts(wanted: Option<nat>, t: seq<Entry>, t': seq<Entry>, from: nat)
    requires IsCareful(wanted, t, from) && t <= t' && from <= |t| && NoRelease(t', |t|) && ResizesAreChecked(t', from)
    ensures IsCareful(wanted, t', from)
  {
    if wanted.Some? {
      MeasuredStays(t, t', from, wanted.value);
    }
  }
}
