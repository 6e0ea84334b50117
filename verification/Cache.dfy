/**
  The artifact cache: any number of `download_member` and prune tasks interleaving on one artifact target.

  Tasks share the target file, its inventory row and the per-target lock. Each task is a little program whose
  steps interleave freely with those of the others; a step may fail, a task may be cancelled or dropped between any
  two steps, and the whole SDK may crash there, which leaves only the file and the row. Nothing else changes the
  file. `LateWrites` adds the operations that outlive a dropped task.

  A file is modelled by what the code can see of it: its size and SHA-256 digest.
*/
module Cache {
  import opened Wrappers
  import opened Bounds

  datatype Integrity = Integrity(size: nat, sha256: string)

  /** What lies at the target path; `Irregular` is a directory, a symlink or a device. */
  datatype Target = Absent | Regular(integrity: Integrity) | Irregular

  /** `origin` stands for the registry and path columns that `inspect_member` compares one by one. */
  datatype Spec = Spec(origin: string, expected: Integrity)

  /** A `downloads` row, and whether the member row that refers to it exists. */
  datatype Row = Row(origin: string, expected: Integrity, actual: Integrity, member: bool)

  datatype InventoryState = Missing | Incomplete | Complete

  datatype CacheDecision = Replace | Adopt | Skip

  /** `inspect_member` without a hash. */
  function Inspect(spec: Spec, row: Option<Row>): InventoryState {
    if row.None? then Missing
    else if !(row.value.origin == spec.origin && row.value.expected == spec.expected
              && row.value.actual == row.value.expected) then Missing
    else if row.value.member then Complete
    else Incomplete
  }

  /** `decide_cache`. */
  function DecideCache(spec: Spec, integrity: Option<Integrity>, state: InventoryState): CacheDecision {
    if state == Complete then Skip
    else if integrity == Some(spec.expected) then Adopt
    else Replace
  }

  /** `calculate_file_integrity`. */
  function Hash(target: Target): Option<Integrity> {
    if target.Regular? then Some(target.integrity) else None
  }

  /** One requested download; binaries are hashed even when their row is complete. */
  datatype Job = Job(spec: Spec, binary: bool)

  /** The result of a download: the integrity it reports, or an error. */
  type Outcome = Option<Integrity>

  datatype PruneOutcome = Skipped | Kept | Stale(dropped: bool) | Removed(freed: nat, dropped: bool)

  /** Where a task stands. */
  datatype Task =
    | Waiting(job: Job)
    | Locked(job: Job)
    | Inspected(job: Job, state: InventoryState)
    | Hashed(job: Job, state: InventoryState, integrity: Option<Integrity>)
    | Checking(job: Job)
    | Adopting(job: Job, found: Integrity)
    | Replacing(job: Job)
    | RowRemoved(job: Job)
    | Cleared(job: Job)
    | Streamed(job: Job)
    | Published(job: Job)
    | Returning(job: Job, outcome: Outcome)
    | Finished(job: Job, outcome: Outcome)
    | Pruning
    | PruneLocked
    | PruneSeen(size: nat)
    | PruneDeleted(size: nat)
    | PruneUnlocked(deleted: Option<nat>)
    | Pruned(result: PruneOutcome)

  datatype Shared = Shared(target: Target, row: Option<Row>, lock: Option<nat>)

  datatype State = State(shared: Shared, tasks: map<nat, Task>)

  predicate HoldsLock(t: Task) {
    !t.Waiting? && !t.Finished? && !t.Pruning? && !t.PruneUnlocked? && !t.Pruned?
  }

  function RecordedRow(spec: Spec, actual: Integrity): Row {
    Row(spec.origin, spec.expected, actual, true)
  }

  /** One step of a download task that reads or writes the cache. */
  ghost predicate DownloadWorks(id: nat, t: Task, a: Shared, t': Task, b: Shared) {
    match t
    case Waiting(job) => a.lock.None? && b == a.(lock := Some(id)) && t' == Locked(job)
    case Locked(job) => b == a && t' == Inspected(job, Inspect(job.spec, a.row))
    case Inspected(job, state) =>
      b == a && t' == Hashed(job, state, if job.binary || state != Complete then Hash(a.target) else None)
    case Hashed(job, state, integrity) => b == a && t' == Decide(job, state, integrity)
    case Checking(job) =>
      b == a && t' == if a.target.Regular? && a.target.integrity.size == job.spec.expected.size
                      then Returning(job, Some(job.spec.expected)) else Replacing(job)
    case Adopting(job, found) =>
      b == a.(row := Some(RecordedRow(job.spec, found))) && t' == Returning(job, Some(found))
    case Replacing(job) => b == a.(row := None) && t' == RowRemoved(job)
    case RowRemoved(job) => b == a.(target := Absent) && t' == Cleared(job)
    case Cleared(job) => b == a && t' == Streamed(job)
    case Streamed(job) => b == a.(target := Regular(job.spec.expected)) && t' == Published(job)
    case Published(job) =>
      && b == a.(row := Some(RecordedRow(job.spec, job.spec.expected)))
      && t' == Returning(job, Some(job.spec.expected))
    case Returning(job, outcome) => b == a.(lock := None) && t' == Finished(job, outcome)
    case _ => false
  }

  /** What the download does once it knows the row and, where it looked, the file. */
  function Decide(job: Job, state: InventoryState, integrity: Option<Integrity>): Task {
    match DecideCache(job.spec, integrity, state)
    case Skip =>
      if job.binary then Returning(job, integrity)
      else if integrity.Some? && integrity.value != job.spec.expected then Replacing(job)
      else Checking(job)
    case Adopt => if integrity.Some? then Adopting(job, integrity.value) else Returning(job, None)
    case Replace => Replacing(job)
  }

  /**
    A step that fails: an error, a cancellation, or a stream whose size or digest is not the expected one.
    It changes nothing shared, or it reports an error although what it was doing did happen.
  */
  ghost predicate DownloadFails(id: nat, t: Task, a: Shared, t': Task, b: Shared) {
    || (t.Waiting? && b == a && t' == Finished(t.job, None))
    || (HoldsLock(t) && !t.Returning? && !t.PruneLocked? && !t.PruneSeen? && !t.PruneDeleted?
        && (b == a || exists done :: DownloadWorks(id, t, a, done, b))
        && t' == Returning(t.job, None))
  }

  /** One step of a prune task; its row deletion happens after the lock is gone. */
  ghost predicate PruneWorks(id: nat, t: Task, a: Shared, t': Task, b: Shared) {
    match t
    case Pruning =>
      || (b == a && t' == Pruned(Kept))
      || (a.lock.Some? && b == a && t' == Pruned(Skipped))
      || (a.lock.None? && b == a.(lock := Some(id)) && t' == PruneLocked)
    case PruneLocked =>
      || (b == a.(lock := None) && t' == Pruned(Kept) && !a.target.Absent?)
      || (b == a.(lock := None) && t' == PruneUnlocked(None) && a.target.Absent?)
      || (b == a && a.target.Regular? && t' == PruneSeen(a.target.integrity.size))
    case PruneSeen(size) =>
      || (b == a.(lock := None) && t' == Pruned(Kept))
      || (b == a.(target := Absent) && t' == PruneDeleted(size))
    case PruneDeleted(size) => b == a.(lock := None) && t' == PruneUnlocked(Some(size))
    case PruneUnlocked(deleted) =>
      || (b == a.(row := None) && t' == Pruned(Verdict(deleted, true)))
      || (b == a && t' == Pruned(Verdict(deleted, false)))
    case _ => false
  }

  function Verdict(deleted: Option<nat>, dropped: bool): PruneOutcome {
    if deleted.Some? then Removed(deleted.value, dropped) else Stale(dropped)
  }

  datatype Move = Spawn(id: nat, task: Task) | Advance(id: nat) | Drop(id: nat) | Crash

  ghost predicate Next(s: State, move: Move, s': State) {
    match move
    case Spawn(id, task) =>
      id !in s.tasks && (task.Waiting? || task.Pruning?) && s' == s.(tasks := s.tasks[id := task])
    case Advance(id) =>
      && id in s.tasks && id in s'.tasks
      && s'.tasks == s.tasks[id := s'.tasks[id]]
      && (|| DownloadWorks(id, s.tasks[id], s.shared, s'.tasks[id], s'.shared)
          || DownloadFails(id, s.tasks[id], s.shared, s'.tasks[id], s'.shared)
          || PruneWorks(id, s.tasks[id], s.shared, s'.tasks[id], s'.shared))
    case Drop(id) =>
      && id in s.tasks
      && s'.tasks == s.tasks - {id}
      && s'.shared == if s.shared.lock == Some(id) then s.shared.(lock := None) else s.shared
    case Crash => s'.tasks == map[] && s'.shared == s.shared.(lock := None)
  }

  /** The cache invariant: a recorded row tells the truth about the file, unless the file is gone. */
  ghost predicate Truthful(w: Shared) {
    w.row.Some? ==>
      && w.row.value.actual == w.row.value.expected
      && (w.target == Absent || w.target == Regular(w.row.value.actual))
  }

  /** What the lock holder may rely on at each of its steps. */
  ghost predicate Relies(t: Task, w: Shared) {
    match t
    case Inspected(job, state) => state == Complete ==> w.target in {Absent, Regular(job.spec.expected)}
    case Hashed(job, state, integrity) =>
      && (state == Complete ==> w.target in {Absent, Regular(job.spec.expected)})
      && (if job.binary || state != Complete then integrity == Hash(w.target) else integrity == None)
    case Checking(job) => w.target in {Absent, Regular(job.spec.expected)}
    case Adopting(job, found) => found == job.spec.expected && w.target == Regular(found)
    case RowRemoved(job) => w.row.None?
    case Cleared(job) => w.row.None? && w.target == Absent
    case Streamed(job) => w.row.None? && w.target == Absent
    case Published(job) => w.row.None? && w.target == Regular(job.spec.expected)
    case Returning(job, outcome) =>
      outcome.Some? ==> outcome.value == job.spec.expected && w.target == Regular(job.spec.expected)
    case PruneSeen(size) => w.target.Regular? && w.target.integrity.size == size
    case PruneDeleted(size) => w.target == Absent
    case _ => true
  }

  ghost predicate Inv(s: State) {
    && Truthful(s.shared)
    && (s.shared.lock.Some? ==>
          && s.shared.lock.value in s.tasks
          && HoldsLock(s.tasks[s.shared.lock.value])
          && Relies(s.tasks[s.shared.lock.value], s.shared))
    && (forall id | id in s.tasks && HoldsLock(s.tasks[id]) :: s.shared.lock == Some(id))
  }

  /** Dropping a row never breaks what a lock holder relies on. */
  lemma RowLossIsHarmless(t: Task, w: Shared)
    requires Relies(t, w) && Truthful(w)
    ensures Relies(t, w.(row := None)) && Truthful(w.(row := None))
  {
  }

  /** A download step keeps the row truthful and establishes what its next step relies on. */
  lemma DownloadStepIsSound(id: nat, t: Task, a: Shared, t': Task, b: Shared)
    requires Truthful(a) && Relies(t, a)
    requires DownloadWorks(id, t, a, t', b) || DownloadFails(id, t, a, t', b)
    ensures Truthful(b) && Relies(t', b)
  {
  }

  /** A prune step does too. */
  lemma PruneStepIsSound(id: nat, t: Task, a: Shared, t': Task, b: Shared)
    requires Truthful(a) && Relies(t, a)
    requires PruneWorks(id, t, a, t', b)
    ensures Truthful(b) && Relies(t', b)
  {
  }

  /** Every step of every interleaving keeps the invariant. */
  lemma StepKeepsInv(s: State, move: Move, s': State)
    requires Inv(s) && Next(s, move, s')
    ensures Inv(s')
  {
    match move
    case Spawn(id, task) =>
    case Drop(id) =>
    case Crash =>
    case Advance(id) =>
      var t, t' := s.tasks[id], s'.tasks[id];
      if PruneWorks(id, t, s.shared, t', s'.shared) {
        PruneStepIsSound(id, t, s.shared, t', s'.shared);
      } else {
        DownloadStepIsSound(id, t, s.shared, t', s'.shared);
      }
      if s.shared.lock.Some? && s.shared.lock.value != id {
        RowLossIsHarmless(s.tasks[s.shared.lock.value], s.shared);
      }
  }

  /** A run: consecutive states linked by steps. */
  ghost predicate IsRun(states: seq<State>, moves: seq<Move>) {
    && |states| == |moves| + 1
    && forall i | 0 <= i < |moves| :: Next(states[i], moves[i], states[i + 1])
  }

  /** A cache at rest whose row, if any, is truthful. */
  ghost predicate Initial(s: State) {
    s.tasks == map[] && s.shared.lock.None? && Truthful(s.shared)
  }

  lemma {:induction false} RunKeepsInv(states: seq<State>, moves: seq<Move>, k: nat)
    requires IsRun(states, moves) && Initial(states[0]) && k < |states|
    ensures Inv(states[k])
  {
    if k > 0 {
      RunKeepsInv(states, moves, k - 1);
      StepKeepsInv(states[k - 1], moves[k - 1], states[k]);
    }
  }

  /**
    The main theorem on the cache. In every run, in every state: a recorded row agrees with the file or the
    file is absent; at most one task is inside the critical section; and a download that is about to return
    successfully reports exactly the expected integrity, of a file that is there and has it.
  */
  lemma CacheIsTruthful(states: seq<State>, moves: seq<Move>, k: nat)
    requires IsRun(states, moves) && Initial(states[0]) && k < |states|
    ensures Truthful(states[k].shared)
    ensures forall i, j | i in states[k].tasks && j in states[k].tasks
              && HoldsLock(states[k].tasks[i]) && HoldsLock(states[k].tasks[j]) :: i == j
    ensures forall id | id in states[k].tasks && states[k].tasks[id].Returning? && states[k].tasks[id].outcome.Some? ::
              var job := states[k].tasks[id].job;
              states[k].tasks[id].outcome == Some(job.spec.expected)
              && states[k].shared.target == Regular(job.spec.expected)
  {
    RunKeepsInv(states, moves, k);
  }

  /** A complete row may be trusted without hashing: the file, if it is there, is the expected one. */
  lemma TrustWithoutHashing(states: seq<State>, moves: seq<Move>, k: nat, spec: Spec)
    requires IsRun(states, moves) && Initial(states[0]) && k < |states|
    requires Inspect(spec, states[k].shared.row) == Complete
    ensures states[k].shared.target in {Absent, Regular(spec.expected)}
  {
    RunKeepsInv(states, moves, k);
  }

  /** The bytes a prune reports as freed are those of the file it deleted. */
  lemma PruneFreesWhatItSaw(states: seq<State>, moves: seq<Move>, k: nat, id: nat)
    requires IsRun(states, moves) && Initial(states[0]) && k < |moves|
    requires moves[k] == Advance(id) && states[k + 1].tasks[id].PruneDeleted?
    ensures states[k].shared.target.Regular?
    ensures states[k].shared.target.integrity.size == states[k + 1].tasks[id].size
    ensures states[k + 1].shared.target == Absent
  {
    RunKeepsInv(states, moves, k);
    RunKeepsInv(states, moves, k + 1);
  }

  // ---------------------------------------------------------------------------------------------------
  // The transfer behind the step from `Cleared` to `Streamed`
  // ---------------------------------------------------------------------------------------------------

  type Bytes = seq<bv8>

  /** A hash function that works byte by byte: its state before the first byte, its step and its last word. */
  datatype HashFunction<!S> = HashFunction(initial: S, step: (S, bv8) -> S, finish: S -> string)

  /** The hasher's state after more data. */
  function Absorb<S>(h: HashFunction<S>, state: S, data: Bytes): S {
    if data == [] then state else Absorb(h, h.step(state, data[0]), data[1..])
  }

  /** The digest of a whole file. */
  function Digest<S>(h: HashFunction<S>, data: Bytes): string {
    h.finish(Absorb(h, h.initial, data))
  }

  function Concat(chunks: seq<Bytes>): Bytes {
    if chunks == [] then [] else Concat(chunks[..|chunks| - 1]) + chunks[|chunks| - 1]
  }

  /** Hashing chunk by chunk is hashing the whole. */
  lemma {:induction false} AbsorbSplits<S>(h: HashFunction<S>, state: S, a: Bytes, b: Bytes)
    ensures Absorb(h, state, a + b) == Absorb(h, Absorb(h, state, a), b)
  {
    if a == [] {
      assert a + b == b;
    } else {
      AbsorbSplits(h, h.step(state, a[0]), a[1..], b);
      assert (a + b)[1..] == a[1..] + b;
    }
  }

  datatype TransferError = Cancelled | TooLarge | Mismatch(actual: Integrity) | Io

  lemma {:induction false} PrefixIsShorter(chunks: seq<Bytes>, i: nat)
    requires i <= |chunks|
    ensures |Concat(chunks[..i])| <= |Concat(chunks)|
  {
    if i < |chunks| {
      var front := chunks[..|chunks| - 1];
      PrefixIsShorter(front, i);
      assert front[..i] == chunks[..i];
    } else {
      assert chunks[..i] == chunks;
    }
  }

  /** Whether an uninterrupted transfer of this body is acceptable. */
  ghost predicate Acceptable<S>(h: HashFunction<S>, body: Bytes, expected: Integrity) {
    |body| <= U64_MAX && expected == Integrity(|body|, Digest(h, body))
  }

  /**
    `stream_to_temporary`, where `interruption(i)` is the cancellation or the I/O error, if any, that meets
    chunk `i` or, past the last one, the flush. It succeeds exactly when nothing interrupts it and the body
    has the expected size and digest, and then the temporary file holds the whole body.
  */
  method StreamToTemporary<S>(h: HashFunction<S>, body: seq<Bytes>, expected: Integrity,
                              interruption: int -> Option<TransferError>)
    returns (r: Result<Integrity, TransferError>, file: Bytes)
    ensures r.Ok? <==>
      Acceptable(h, Concat(body), expected) && forall i | 0 <= i <= |body| :: interruption(i).None?
    ensures r.Ok? ==> r.value == expected && file == Concat(body)
  {
    file := [];
    var hasher, size := h.initial, 0;
    for i := 0 to |body|
      invariant file == Concat(body[..i]) && size == |file| <= U64_MAX
      invariant hasher == Absorb(h, h.initial, file)
      invariant forall j | 0 <= j < i :: interruption(j).None?
    {
      if interruption(i).Some? { return Err(interruption(i).value), file; }
      assert body[..i + 1][..i] == body[..i];
      PrefixIsShorter(body, i + 1);
      if size + |body[i]| > U64_MAX { return Err(TooLarge), file; }
      AbsorbSplits(h, h.initial, file, body[i]);
      size := size + |body[i]|;
      file := file + body[i];
      hasher := Absorb(h, hasher, body[i]);
    }
    assert body[..|body|] == body;
    if interruption(|body|).Some? { return Err(interruption(|body|).value), file; }
    var integrity := Integrity(size, h.finish(hasher));
    if integrity != expected { return Err(Mismatch(integrity)), file; }
    r := Ok(integrity);
  }
}
