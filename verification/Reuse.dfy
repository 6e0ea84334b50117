/** What the cache is for: a file that is already there is used, and what was downloaded is recorded. */
module Reuse {
  import opened Wrappers
  import opened Cache

  // ---------------------------------------------------------------------------------------------------
  // The expected file is there
  // ---------------------------------------------------------------------------------------------------

  /** Where a download may stand that found the expected file at the target. */
  ghost predicate Reusing(t: Task, w: Shared, spec: Spec) {
    match t
    case Locked(job) => job.spec == spec
    case Inspected(job, state) => job.spec == spec && (state != Complete ==> Inspect(spec, w.row) != Complete)
    case Hashed(job, state, integrity) =>
      && job.spec == spec && (state != Complete ==> Inspect(spec, w.row) != Complete)
      && integrity == if job.binary || state != Complete then Some(spec.expected) else None
    case Checking(job) => job.spec == spec
    case Adopting(job, found) => job.spec == spec && found == spec.expected && Inspect(spec, w.row) != Complete
    case Returning(job, outcome) => job.spec == spec && outcome in {None, Some(spec.expected)}
    case _ => false
  }

  ghost predicate Kept(s: State, id: nat, spec: Spec) {
    && id in s.tasks && s.shared.lock == Some(id)
    && s.shared.target == Regular(spec.expected) && Reusing(s.tasks[id], s.shared, spec)
  }

  /** What one step of such a download may do: nothing to the file, and nothing to a row that is complete. */
  ghost predicate LeavesAlone(a: Shared, b: Shared, spec: Spec) {
    && b.target == a.target
    && (|| b.row == a.row
        || (Inspect(spec, a.row) != Complete && b.row == Some(RecordedRow(spec, spec.expected))))
  }

  lemma OwnStepKeeps(id: nat, t: Task, a: Shared, t': Task, b: Shared, spec: Spec)
    requires a.target == Regular(spec.expected) && Reusing(t, a, spec) && HoldsLock(t')
    requires DownloadWorks(id, t, a, t', b) || DownloadFails(id, t, a, t', b) || PruneWorks(id, t, a, t', b)
    ensures LeavesAlone(a, b, spec) && Reusing(t', b, spec)
    ensures DownloadWorks(id, t, a, t', b) && t'.Returning? ==> t'.outcome == Some(spec.expected)
  {
  }

  lemma OtherStepKeeps(s: State, move: Move, s': State, id: nat, spec: Spec)
    requires Inv(s) && Kept(s, id, spec) && Next(s, move, s') && move != Advance(id)
    requires id in s'.tasks && HoldsLock(s'.tasks[id])
    ensures Kept(s', id, spec)
  {
  }

  lemma StepKeeps(s: State, move: Move, s': State, id: nat, spec: Spec)
    requires Inv(s) && Kept(s, id, spec) && Next(s, move, s') && Inv(s')
    requires id in s'.tasks && HoldsLock(s'.tasks[id])
    ensures Kept(s', id, spec)
    ensures move == Advance(id) ==> LeavesAlone(s.shared, s'.shared, spec)
  {
    if move == Advance(id) {
      OwnStepKeeps(id, s.tasks[id], s.shared, s'.tasks[id], s'.shared, spec);
    } else {
      OtherStepKeeps(s, move, s', id, spec);
    }
  }

  /** Task `id` takes the lock in move `i` of a run and keeps it until state `k`. */
  ghost predicate HoldsFrom(states: seq<State>, moves: seq<Move>, i: nat, k: nat, id: nat, job: Job) {
    && IsRun(states, moves) && Initial(states[0]) && i < k < |states|
    && moves[i] == Advance(id) && id in states[i].tasks && states[i].tasks[id] == Waiting(job)
    && forall m | i < m <= k :: id in states[m].tasks && HoldsLock(states[m].tasks[id])
  }

  ghost predicate Worked(s: State, id: nat, s': State) {
    id in s.tasks && id in s'.tasks && DownloadWorks(id, s.tasks[id], s.shared, s'.tasks[id], s'.shared)
  }

  /** None of the task's steps between these states fails. */
  ghost predicate NoneFails(states: seq<State>, moves: seq<Move>, i: nat, k: nat, id: nat) {
    forall m | i < m < k < |states| && m < |moves| && moves[m] == Advance(id) :: Worked(states[m], id, states[m + 1])
  }

  lemma TakesTheLock(s: State, id: nat, s': State, job: Job)
    requires Next(s, Advance(id), s') && s.tasks[id] == Waiting(job) && HoldsLock(s'.tasks[id])
    ensures s'.tasks[id] == Locked(job) && s'.shared == s.shared.(lock := Some(id))
  {
  }

  lemma {:induction false} CachedFileIsKept(states: seq<State>, moves: seq<Move>, i: nat, k: nat, id: nat, job: Job)
    requires HoldsFrom(states, moves, i, k, id, job) && states[i + 1].shared.target == Regular(job.spec.expected)
    ensures Kept(states[k], id, job.spec)
  {
    TakesTheLock(states[i], id, states[i + 1], job);
    if k > i + 1 {
      CachedFileIsKept(states, moves, i, k - 1, id, job);
      RunKeepsInv(states, moves, k - 1);
      RunKeepsInv(states, moves, k);
      StepKeeps(states[k - 1], moves[k - 1], states[k], id, job.spec);
    }
  }

  /**
    The main theorem on reuse. A download that takes the lock while the expected file is there never removes or
    replaces it, never drops the row, never touches a complete row, never transfers anything and, unless one of its
    steps fails, returns that file.
  */
  lemma CachedFileIsUsed(states: seq<State>, moves: seq<Move>, i: nat, k: nat, id: nat, job: Job)
    requires HoldsFrom(states, moves, i, k, id, job) && states[i + 1].shared.target == Regular(job.spec.expected)
    ensures forall m | i < m <= k :: states[m].shared.target == Regular(job.spec.expected)
    ensures forall m | i < m <= k :: !states[m].tasks[id].Replacing? && !states[m].tasks[id].Cleared?
    ensures forall m | i < m < k && moves[m] == Advance(id) ::
              LeavesAlone(states[m].shared, states[m + 1].shared, job.spec)
    ensures states[k].tasks[id].Returning? && NoneFails(states, moves, i, k, id) ==>
              states[k].tasks[id].outcome == Some(job.spec.expected)
  {
    forall m | i < m <= k
      ensures Kept(states[m], id, job.spec) && Inv(states[m])
      ensures !states[m].tasks[id].Replacing? && !states[m].tasks[id].Cleared?
    {
      CachedFileIsKept(states, moves, i, m, id, job);
      RunKeepsInv(states, moves, m);
    }
    forall m | i < m < k && moves[m] == Advance(id)
      ensures LeavesAlone(states[m].shared, states[m + 1].shared, job.spec)
    {
      assert Next(states[m], moves[m], states[m + 1]);
      StepKeeps(states[m], moves[m], states[m + 1], id, job.spec);
    }
    if states[k].tasks[id].Returning? && NoneFails(states, moves, i, k, id) {
      ReturnsIt(states, moves, i, k, id, job);
    }
  }

  lemma {:induction false} ReturnsIt(states: seq<State>, moves: seq<Move>, i: nat, k: nat, id: nat, job: Job)
    requires HoldsFrom(states, moves, i, k, id, job) && states[i + 1].shared.target == Regular(job.spec.expected)
    requires states[k].tasks[id].Returning? && NoneFails(states, moves, i, k, id)
    ensures states[k].tasks[id].outcome == Some(job.spec.expected)
  {
    TakesTheLock(states[i], id, states[i + 1], job);
    assert Next(states[k - 1], moves[k - 1], states[k]);
    if k > i + 1 {
      CachedFileIsKept(states, moves, i, k - 1, id, job);
      if moves[k - 1] == Advance(id) {
        var s, s' := states[k - 1], states[k];
        OwnStepKeeps(id, s.tasks[id], s.shared, s'.tasks[id], s'.shared, job.spec);
      } else {
        assert states[k].tasks[id] == states[k - 1].tasks[id];
        ReturnsIt(states, moves, i, k - 1, id, job);
      }
    }
  }

  /** A row is complete for a spec exactly when it is the row that a download of it records. */
  lemma CompleteExactly(spec: Spec, row: Option<Row>)
    ensures Inspect(spec, row) == Complete <==> row == Some(RecordedRow(spec, spec.expected))
    ensures Inspect(spec, row) == Incomplete <==> row == Some(RecordedRow(spec, spec.expected).(member := false))
  {
  }

  /** Even a file changed from outside is noticed, and not returned, if its size is another or it is no regular file. */
  lemma OtherSizeIsNoticed(id: nat, job: Job, a: Shared, t': Task, b: Shared)
    requires DownloadWorks(id, Checking(job), a, t', b)
    ensures t' == Returning(job, Some(job.spec.expected)) <==>
            exists sha256 :: a.target == Regular(Integrity(job.spec.expected.size, sha256))
    ensures t'.Returning? || t' == Replacing(job)
  {
    if a.target.Regular? && a.target.integrity.size == job.spec.expected.size {
      assert a.target == Regular(Integrity(job.spec.expected.size, a.target.integrity.sha256));
    }
  }

  /** A step that works ends in an error in one case only: a binary with a complete row and no file. */
  lemma ErrorsComeFromFailures(id: nat, t: Task, a: Shared, t': Task, b: Shared)
    requires DownloadWorks(id, t, a, t', b) && t'.Returning? && t'.outcome.None?
    ensures t == Hashed(t'.job, Complete, None) && t'.job.binary
  {
  }

  // ---------------------------------------------------------------------------------------------------
  // What was downloaded is recorded
  // ---------------------------------------------------------------------------------------------------

  predicate IsPrune(t: Task) {
    t.Pruning? || t.PruneLocked? || t.PruneSeen? || t.PruneDeleted? || t.PruneUnlocked? || t.Pruned?
  }

  /** A run in which no prune takes part. */
  ghost predicate WithoutPrune(moves: seq<Move>) {
    forall i | 0 <= i < |moves| && moves[i].Spawn? :: !IsPrune(moves[i].task)
  }

  /** What a download knows of its row when nothing but downloads, one at a time, touch it. */
  ghost predicate KnowsRow(t: Task, w: Shared) {
    match t
    case Inspected(job, state) => state == Complete ==> Inspect(job.spec, w.row) == Complete
    case Hashed(job, state, integrity) => state == Complete ==> Inspect(job.spec, w.row) == Complete
    case Checking(job) => Inspect(job.spec, w.row) == Complete
    case Adopting(job, found) => found == job.spec.expected
    case Returning(job, outcome) => outcome.Some? ==> Inspect(job.spec, w.row) == Complete
    case _ => true
  }

  ghost predicate RowsAreKnown(s: State) {
    && (forall id | id in s.tasks :: !IsPrune(s.tasks[id]))
    && (forall id | id in s.tasks && HoldsLock(s.tasks[id]) :: KnowsRow(s.tasks[id], s.shared))
  }

  lemma StepKnowsRow(id: nat, t: Task, a: Shared, t': Task, b: Shared)
    requires Truthful(a) && Relies(t, a) && !IsPrune(t) && (HoldsLock(t) ==> KnowsRow(t, a))
    requires DownloadWorks(id, t, a, t', b) || DownloadFails(id, t, a, t', b)
    ensures KnowsRow(t', b) && !IsPrune(t')
    ensures !HoldsLock(t) ==> b.row == a.row && b.target == a.target
  {
  }

  lemma MoveKnowsRows(s: State, move: Move, s': State)
    requires Inv(s) && RowsAreKnown(s) && Next(s, move, s') && Inv(s')
    requires move.Spawn? ==> !IsPrune(move.task)
    ensures RowsAreKnown(s')
  {
    if move.Advance? {
      StepKnowsRow(move.id, s.tasks[move.id], s.shared, s'.tasks[move.id], s'.shared);
    }
  }

  lemma {:induction false} RowsStayKnown(states: seq<State>, moves: seq<Move>, k: nat)
    requires IsRun(states, moves) && Initial(states[0]) && WithoutPrune(moves) && k < |states|
    ensures RowsAreKnown(states[k])
  {
    if k > 0 {
      RowsStayKnown(states, moves, k - 1);
      RunKeepsInv(states, moves, k - 1);
      RunKeepsInv(states, moves, k);
      MoveKnowsRows(states[k - 1], moves[k - 1], states[k]);
    }
  }

  /** Without prune, a download that is about to return successfully has its row recorded and complete. */
  lemma SuccessIsRecorded(states: seq<State>, moves: seq<Move>, k: nat, id: nat)
    requires IsRun(states, moves) && Initial(states[0]) && WithoutPrune(moves) && k < |states|
    requires id in states[k].tasks && states[k].tasks[id].Returning? && states[k].tasks[id].outcome.Some?
    ensures Inspect(states[k].tasks[id].job.spec, states[k].shared.row) == Complete
  {
    RowsStayKnown(states, moves, k);
  }
}
