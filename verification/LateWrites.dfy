/**
  Dropped downloads whose last operation outlives them.

  Repository and file operations run on a blocking thread. When a task is dropped while one is under way, its lock
  is released at once and the operation takes effect later, over whatever the cache has become. This module adds
  such late effects to the cache and says exactly what they can break.
*/
module LateWrites {
  import opened Wrappers
  import opened Cache

  /** What an operation does to the cache when it lands. */
  datatype Effect = SetRow(row: Option<Row>) | SetTarget(target: Target)

  datatype World = World(cache: State, pending: multiset<Effect>)

  datatype Act = Step(move: Move) | DropLate(id: nat) | Land(effect: Effect)

  /** The operation a task has under way at its next step, if that step changes anything. */
  function UnderWay(t: Task): Option<Effect> {
    match t
    case Adopting(job, found) => Some(SetRow(Some(RecordedRow(job.spec, found))))
    case Replacing(_) => Some(SetRow(None))
    case RowRemoved(_) => Some(SetTarget(Absent))
    case Streamed(job) => Some(SetTarget(Regular(job.spec.expected)))
    case Published(job) => Some(SetRow(Some(RecordedRow(job.spec, job.spec.expected))))
    case PruneSeen(_) => Some(SetTarget(Absent))
    case PruneUnlocked(_) => Some(SetRow(None))
    case _ => None
  }

  function Apply(e: Effect, w: Shared): Shared {
    match e
    case SetRow(row) => w.(row := row)
    case SetTarget(target) => w.(target := target)
  }

  /** One act; downloads are of the given jobs only. */
  ghost predicate Acts(jobs: set<Job>, a: World, act: Act, b: World) {
    match act
    case Step(move) =>
      && Next(a.cache, move, b.cache)
      && (move.Spawn? && move.task.Waiting? ==> move.task.job in jobs)
      && b.pending == if move.Crash? then multiset{} else a.pending
    case DropLate(id) =>
      && Next(a.cache, Drop(id), b.cache)
      && UnderWay(a.cache.tasks[id]).Some?
      && b.pending == a.pending + multiset{UnderWay(a.cache.tasks[id]).value}
    case Land(effect) =>
      && effect in a.pending && b.pending == a.pending - multiset{effect}
      && b.cache == a.cache.(shared := Apply(effect, a.cache.shared))
  }

  /** A run of acts from a cache at rest. */
  ghost predicate IsLateRun(jobs: set<Job>, worlds: seq<World>, acts: seq<Act>) {
    && |worlds| == |acts| + 1
    && Initial(worlds[0].cache) && worlds[0].pending == multiset{}
    && forall i | 0 <= i < |acts| :: Acts(jobs, worlds[i], acts[i], worlds[i + 1])
  }

  ghost predicate Reachable(jobs: set<Job>, w: World) {
    exists worlds, acts :: IsLateRun(jobs, worlds, acts) && worlds[|worlds| - 1] == w
  }

  lemma ReachInitial(jobs: set<Job>, w: World)
    requires Initial(w.cache) && w.pending == multiset{}
    ensures Reachable(jobs, w)
  {
    assert IsLateRun(jobs, [w], []);
  }

  lemma ReachNext(jobs: set<Job>, a: World, act: Act, b: World)
    requires Reachable(jobs, a) && Acts(jobs, a, act, b)
    ensures Reachable(jobs, b)
  {
    var worlds, acts :| IsLateRun(jobs, worlds, acts) && worlds[|worlds| - 1] == a;
    var more, longer := worlds + [b], acts + [act];
    assert forall i | 0 <= i < |longer| :: Acts(jobs, more[i], longer[i], more[i + 1]);
    assert IsLateRun(jobs, more, longer);
  }

  // ---------------------------------------------------------------------------------------------------
  // One expected file
  // ---------------------------------------------------------------------------------------------------

  ghost predicate SameFile(jobs: set<Job>, e: Integrity) {
    forall job | job in jobs :: job.spec.expected == e
  }

  /** Nothing but the expected file, and no row of any other. */
  ghost predicate Settled(w: Shared, e: Integrity) {
    && w.target in {Absent, Regular(e)}
    && (w.row.Some? ==> w.row.value.actual == w.row.value.expected == e)
  }

  /** Unless a late removal may strike, the file is there. */
  ghost predicate Present(w: Shared, e: Integrity, calm: bool) {
    Settled(w, e) && (calm ==> w.target == Regular(e))
  }

  /** What a task may rely on while late effects of tasks for the same file may land at any time. */
  ghost predicate LateRelies(t: Task, w: Shared, e: Integrity, calm: bool) {
    match t
    case Inspected(job, state) => state == Complete ==> Settled(w, e)
    case Hashed(job, state, integrity) =>
      && (state == Complete ==> Settled(w, e) && integrity in {None, Some(e)})
      && (integrity == Some(e) ==> Present(w, e, calm))
    case Checking(job) => Settled(w, e)
    case Adopting(job, found) => found == e && Present(w, e, calm)
    case RowRemoved(job) => w.row.Some? ==> w.row.value.actual == w.row.value.expected == e
    case Cleared(job) => Settled(w, e)
    case Streamed(job) => Settled(w, e)
    case Published(job) => Present(w, e, calm)
    case Returning(job, outcome) => outcome.Some? ==> outcome.value == e && Present(w, e, calm)
    case _ => true
  }

  predicate IsDownload(t: Task) {
    !t.Pruning? && !t.PruneLocked? && !t.PruneSeen? && !t.PruneDeleted? && !t.PruneUnlocked? && !t.Pruned?
  }

  ghost predicate ForFile(t: Task, e: Integrity) {
    IsDownload(t) ==> t.job.spec.expected == e
  }

  /** An effect that may land on a settled cache, or on any cache if it only removes. */
  ghost predicate Harmless(effect: Effect, w: Shared, e: Integrity) {
    || effect in {SetRow(None), SetTarget(Absent)}
    || (Settled(w, e) && (effect == SetTarget(Regular(e))
                          || (effect.SetRow? && effect.row.value.actual == effect.row.value.expected == e)))
  }

  /** The lock belongs to the one task that is inside the critical section, if there is one. */
  ghost predicate LockIsHeld(s: State) {
    && (s.shared.lock.Some? ==> s.shared.lock.value in s.tasks && HoldsLock(s.tasks[s.shared.lock.value]))
    && (forall id | id in s.tasks && HoldsLock(s.tasks[id]) :: s.shared.lock == Some(id))
  }

  ghost predicate HolderRelies(s: State, e: Integrity, calm: bool) {
    s.shared.lock.Some? && s.shared.lock.value in s.tasks ==>
      LateRelies(s.tasks[s.shared.lock.value], s.shared, e, calm)
  }

  ghost predicate PendingIsHarmless(pending: multiset<Effect>, w: Shared, e: Integrity, calm: bool) {
    && (calm ==> SetTarget(Absent) !in pending)
    && (forall effect | effect in pending :: Harmless(effect, w, e))
  }

  ghost predicate AllForFile(tasks: map<nat, Task>, e: Integrity) {
    forall id | id in tasks :: ForFile(tasks[id], e)
  }

  ghost predicate LateInv(w: World, e: Integrity, calm: bool) {
    && Truthful(w.cache.shared)
    && PendingIsHarmless(w.pending, w.cache.shared, e, calm)
    && AllForFile(w.cache.tasks, e)
    && LockIsHeld(w.cache)
    && HolderRelies(w.cache, e, calm)
  }

  lemma NextKeepsLock(s: State, move: Move, s': State)
    requires LockIsHeld(s) && Next(s, move, s')
    ensures LockIsHeld(s')
  {
  }

  /** A task outside the critical section may enter it, or drop the row; the file it leaves alone. */
  lemma BystanderStep(id: nat, t: Task, a: Shared, t': Task, b: Shared)
    requires !HoldsLock(t)
    requires DownloadWorks(id, t, a, t', b) || DownloadFails(id, t, a, t', b) || PruneWorks(id, t, a, t', b)
    ensures b.lock == a.lock ==> b == a || b == Apply(SetRow(None), a)
    ensures b.lock != a.lock ==> b.lock == Some(id)
  {
  }

  /** A step of a task keeps the row truthful, keeps a settled cache settled, and earns what comes next. */
  lemma TaskStepIsSound(id: nat, t: Task, a: Shared, t': Task, b: Shared, e: Integrity, calm: bool)
    requires Truthful(a) && LateRelies(t, a, e, calm) && ForFile(t, e)
    requires DownloadWorks(id, t, a, t', b) || DownloadFails(id, t, a, t', b) || PruneWorks(id, t, a, t', b)
    ensures Truthful(b) && LateRelies(t', b, e, calm) && ForFile(t', e)
    ensures Settled(a, e) ==> Settled(b, e)
  {
  }

  /** An effect that lands does too, whoever holds the lock. */
  lemma LandingIsSound(effect: Effect, t: Task, a: Shared, e: Integrity, calm: bool)
    requires Truthful(a) && Harmless(effect, a, e) && LateRelies(t, a, e, calm)
    requires calm ==> effect != SetTarget(Absent)
    ensures var b := Apply(effect, a);
            Truthful(b) && LateRelies(t, b, e, calm) && (Settled(a, e) ==> Settled(b, e))
  {
  }

  /** What a dropped task leaves behind is harmless. */
  lemma LeftoverIsHarmless(t: Task, w: Shared, e: Integrity, calm: bool)
    requires LateRelies(t, w, e, calm) && ForFile(t, e) && UnderWay(t).Some?
    ensures Harmless(UnderWay(t).value, w, e)
  {
  }

  lemma SettledKeepsHarmless(pending: multiset<Effect>, a: Shared, b: Shared, e: Integrity, calm: bool)
    requires PendingIsHarmless(pending, a, e, calm)
    requires Settled(a, e) ==> Settled(b, e)
    ensures PendingIsHarmless(pending, b, e, calm)
  {
  }

  /** The holder is unmoved by what a bystander does. */
  lemma HolderIsUnmoved(id: nat, t: Task, a: Shared, t': Task, b: Shared, holder: Task, e: Integrity, calm: bool)
    requires !HoldsLock(t) && b.lock == a.lock && Truthful(a) && LateRelies(holder, a, e, calm)
    requires DownloadWorks(id, t, a, t', b) || DownloadFails(id, t, a, t', b) || PruneWorks(id, t, a, t', b)
    ensures LateRelies(holder, b, e, calm)
  {
    BystanderStep(id, t, a, t', b);
    LandingIsSound(SetRow(None), holder, a, e, calm);
  }

  lemma AdvanceKeepsLateInv(a: World, id: nat, b: World, e: Integrity, calm: bool)
    requires LateInv(a, e, calm) && Next(a.cache, Advance(id), b.cache) && b.pending == a.pending
    ensures LateInv(b, e, calm)
  {
    var s, s' := a.cache, b.cache;
    var t, t' := s.tasks[id], s'.tasks[id];
    NextKeepsLock(s, Advance(id), s');
    OwnRelies(s, id, e, calm);
    TaskStepIsSound(id, t, s.shared, t', s'.shared, e, calm);
    SettledKeepsHarmless(a.pending, s.shared, s'.shared, e, calm);
    if s'.shared.lock.Some? && s'.shared.lock.value != id {
      assert s'.shared.lock == s.shared.lock && !HoldsLock(t) by {
        LockStays(id, t, s.shared, t', s'.shared);
      }
      HolderIsUnmoved(id, t, s.shared, t', s'.shared, s.tasks[s.shared.lock.value], e, calm);
    }
  }

  /** A task that is not the holder relies on nothing. */
  lemma OwnRelies(s: State, id: nat, e: Integrity, calm: bool)
    requires LockIsHeld(s) && HolderRelies(s, e, calm) && id in s.tasks
    ensures LateRelies(s.tasks[id], s.shared, e, calm)
  {
  }

  /** A step only takes the lock for its own task, or releases it. */
  lemma LockStays(id: nat, t: Task, a: Shared, t': Task, b: Shared)
    requires DownloadWorks(id, t, a, t', b) || DownloadFails(id, t, a, t', b) || PruneWorks(id, t, a, t', b)
    ensures b.lock.Some? && b.lock.value != id ==> b.lock == a.lock
  {
  }

  lemma LandKeepsLateInv(a: World, effect: Effect, b: World, e: Integrity, calm: bool)
    requires LateInv(a, e, calm) && effect in a.pending && b.pending == a.pending - multiset{effect}
    requires b.cache == a.cache.(shared := Apply(effect, a.cache.shared))
    ensures LateInv(b, e, calm)
  {
    var s := a.cache;
    var holder := if s.shared.lock.Some? then s.tasks[s.shared.lock.value] else Pruning;
    LandingIsSound(effect, holder, s.shared, e, calm);
    SettledKeepsHarmless(a.pending, s.shared, b.cache.shared, e, calm);
  }

  /** A drop leaves no holder, and at most its task's operation. */
  lemma DropKeepsLateInv(a: World, id: nat, b: World, e: Integrity, calm: bool)
    requires LateInv(a, e, calm) && Next(a.cache, Drop(id), b.cache)
    requires || b.pending == a.pending
             || (UnderWay(a.cache.tasks[id]).Some? && (calm ==> SetTarget(Absent) !in b.pending)
                 && b.pending == a.pending + multiset{UnderWay(a.cache.tasks[id]).value})
    ensures LateInv(b, e, calm)
  {
    NextKeepsLock(a.cache, Drop(id), b.cache);
    OwnRelies(a.cache, id, e, calm);
    SettledKeepsHarmless(a.pending, a.cache.shared, b.cache.shared, e, calm);
    if UnderWay(a.cache.tasks[id]).Some? {
      LeftoverIsHarmless(a.cache.tasks[id], b.cache.shared, e, calm);
    }
  }

  /** Every act keeps the invariant, as long as all downloads are for the same file. */
  lemma ActKeepsLateInv(jobs: set<Job>, a: World, act: Act, b: World, e: Integrity, calm: bool)
    requires SameFile(jobs, e) && LateInv(a, e, calm) && Acts(jobs, a, act, b)
    requires calm ==> SetTarget(Absent) !in b.pending
    ensures LateInv(b, e, calm)
  {
    match act
    case Step(Advance(id)) => AdvanceKeepsLateInv(a, id, b, e, calm);
    case Step(Drop(id)) => DropKeepsLateInv(a, id, b, e, calm);
    case Step(Spawn(id, task)) => NextKeepsLock(a.cache, Spawn(id, task), b.cache);
    case Step(Crash) =>
    case DropLate(id) => DropKeepsLateInv(a, id, b, e, calm);
    case Land(effect) => LandKeepsLateInv(a, effect, b, e, calm);
  }

  lemma {:induction false} LateRunKeepsInv(jobs: set<Job>, worlds: seq<World>, acts: seq<Act>, k: nat, e: Integrity,
                                           calm: bool)
    requires SameFile(jobs, e) && IsLateRun(jobs, worlds, acts) && k < |worlds|
    requires calm ==> forall i | 0 <= i < |worlds| :: SetTarget(Absent) !in worlds[i].pending
    ensures LateInv(worlds[k], e, calm)
  {
    if k > 0 {
      LateRunKeepsInv(jobs, worlds, acts, k - 1, e, calm);
      ActKeepsLateInv(jobs, worlds[k - 1], acts[k - 1], worlds[k], e, calm);
    }
  }

  /**
    With every download for the same file, in every state of every run with late effects: a row agrees with the file
    or the file is absent, and a download about to return successfully reports the expected file, which is there
    unless a removal that outlived its task took it.
  */
  lemma OneFileIsTruthful(jobs: set<Job>, worlds: seq<World>, acts: seq<Act>, k: nat, e: Integrity, id: nat)
    requires SameFile(jobs, e) && IsLateRun(jobs, worlds, acts) && k < |worlds|
    ensures Truthful(worlds[k].cache.shared)
    ensures id in worlds[k].cache.tasks && worlds[k].cache.tasks[id].Returning?
            && worlds[k].cache.tasks[id].outcome.Some? ==>
      && worlds[k].cache.tasks[id].outcome == Some(e)
      && worlds[k].cache.shared.target in {Absent, Regular(e)}
      && ((forall i | 0 <= i < |worlds| :: SetTarget(Absent) !in worlds[i].pending) ==>
            worlds[k].cache.shared.target == Regular(e))
  {
    var calm := forall i | 0 <= i < |worlds| :: SetTarget(Absent) !in worlds[i].pending;
    LateRunKeepsInv(jobs, worlds, acts, k, e, calm);
    if id in worlds[k].cache.tasks {
      OwnRelies(worlds[k].cache, id, e, calm);
    }
  }

  // ---------------------------------------------------------------------------------------------------
  // Two expected files
  // ---------------------------------------------------------------------------------------------------

  /** A cache with one task and, perhaps, one operation that outlived another. */
  function OneTask(target: Target, row: Option<Row>, task: Task, pending: multiset<Effect>): World {
    World(State(Shared(target, row, if HoldsLock(task) then Some(0) else None), map[0 := task]), pending)
  }

  function AtRest(target: Target, pending: multiset<Effect>): World {
    World(State(Shared(target, None, None), map[]), pending)
  }

  /** A task of a lone download takes a step. */
  lemma Works(jobs: set<Job>, a: World, t: Task, t': Task, target: Target, row: Option<Row>)
    requires Reachable(jobs, a) && a.cache.tasks == map[0 := t]
    requires DownloadWorks(0, t, a.cache.shared, t', OneTask(target, row, t', a.pending).cache.shared)
    ensures Reachable(jobs, OneTask(target, row, t', a.pending))
  {
    var b := OneTask(target, row, t', a.pending);
    assert b.cache.tasks == a.cache.tasks[0 := t'];
    ReachNext(jobs, a, Step(Advance(0)), b);
  }

  /** A download that finds no row comes to know the file. */
  lemma ReachHashed(jobs: set<Job>, job: Job, target: Target, pending: multiset<Effect>)
    requires job in jobs && Reachable(jobs, AtRest(target, pending))
    ensures Reachable(jobs, OneTask(target, None, Hashed(job, Missing, Hash(target)), pending))
  {
    var a, b := AtRest(target, pending), OneTask(target, None, Waiting(job), pending);
    assert b.cache.tasks == a.cache.tasks[0 := Waiting(job)];
    ReachNext(jobs, a, Step(Spawn(0, Waiting(job))), b);
    Works(jobs, b, Waiting(job), Locked(job), target, None);
    Works(jobs, OneTask(target, None, Locked(job), pending), Locked(job), Inspected(job, Missing), target, None);
    Works(jobs, OneTask(target, None, Inspected(job, Missing), pending), Inspected(job, Missing),
          Hashed(job, Missing, Hash(target)), target, None);
  }

  /** One that finds the wrong file comes to remove it. */
  lemma ReachRemoval(jobs: set<Job>, job: Job, target: Target, pending: multiset<Effect>)
    requires job in jobs && Reachable(jobs, AtRest(target, pending)) && target != Regular(job.spec.expected)
    ensures Reachable(jobs, OneTask(target, None, RowRemoved(job), pending))
  {
    ReachHashed(jobs, job, target, pending);
    var hashed := Hashed(job, Missing, Hash(target));
    Works(jobs, OneTask(target, None, hashed, pending), hashed, Replacing(job), target, None);
    Works(jobs, OneTask(target, None, Replacing(job), pending), Replacing(job), RowRemoved(job), target, None);
  }

  /** And to publish the right one. */
  lemma ReachPublished(jobs: set<Job>, job: Job, target: Target, pending: multiset<Effect>)
    requires job in jobs && Reachable(jobs, AtRest(target, pending)) && target != Regular(job.spec.expected)
    ensures Reachable(jobs, OneTask(Regular(job.spec.expected), None, Published(job), pending))
  {
    ReachRemoval(jobs, job, target, pending);
    Works(jobs, OneTask(target, None, RowRemoved(job), pending), RowRemoved(job), Cleared(job), Absent, None);
    Works(jobs, OneTask(Absent, None, Cleared(job), pending), Cleared(job), Streamed(job), Absent, None);
    Works(jobs, OneTask(Absent, None, Streamed(job), pending), Streamed(job), Published(job),
          Regular(job.spec.expected), None);
  }

  /** The lone task is dropped, and what it had under way stays under way. */
  lemma ReachDropped(jobs: set<Job>, t: Task, target: Target)
    requires Reachable(jobs, OneTask(target, None, t, multiset{})) && UnderWay(t).Some?
    ensures Reachable(jobs, AtRest(target, multiset{UnderWay(t).value}))
  {
    var a, b := OneTask(target, None, t, multiset{}), AtRest(target, multiset{UnderWay(t).value});
    assert b.cache.tasks == a.cache.tasks - {0};
    ReachNext(jobs, a, DropLate(0), b);
  }

  /** The row of a dropped adoption lands after a download of another file has published: the row lies. */
  lemma TwoFilesMayLie(jobs: set<Job>, job: Job, other: Job) returns (w: World)
    requires job in jobs && other in jobs && job.spec.expected != other.spec.expected
    ensures Reachable(jobs, w) && !Truthful(w.cache.shared)
  {
    var e := job.spec.expected;
    ReachInitial(jobs, AtRest(Regular(e), multiset{}));
    ReachHashed(jobs, job, Regular(e), multiset{});
    var hashed := Hashed(job, Missing, Some(e));
    Works(jobs, OneTask(Regular(e), None, hashed, multiset{}), hashed, Adopting(job, e), Regular(e), None);
    ReachDropped(jobs, Adopting(job, e), Regular(e));
    var late := SetRow(Some(RecordedRow(job.spec, e)));
    ReachPublished(jobs, other, Regular(e), multiset{late});
    var before := OneTask(Regular(other.spec.expected), None, Published(other), multiset{late});
    w := World(before.cache.(shared := Apply(late, before.cache.shared)), multiset{});
    ReachNext(jobs, before, Land(late), w);
  }

  /** The cache stays truthful through late effects exactly when all downloads are for the same file. */
  lemma TruthfulExactly(jobs: set<Job>)
    ensures (forall w | Reachable(jobs, w) :: Truthful(w.cache.shared)) <==>
            (forall i, j | i in jobs && j in jobs :: i.spec.expected == j.spec.expected)
  {
    if i, j :| i in jobs && j in jobs && i.spec.expected != j.spec.expected {
      var w := TwoFilesMayLie(jobs, i, j);
    } else {
      var e: Integrity := if jobs == {} then Integrity(0, "") else var job :| job in jobs; job.spec.expected;
      forall w | Reachable(jobs, w) ensures Truthful(w.cache.shared) {
        var worlds, acts :| IsLateRun(jobs, worlds, acts) && worlds[|worlds| - 1] == w;
        OneFileIsTruthful(jobs, worlds, acts, |worlds| - 1, e, 0);
      }
    }
  }

  /**
    Even for one file, the removal of a dropped download may land after another has published: that one returns
    successfully, and its file is gone.
  */
  lemma RemovalMayTakeTheFile(jobs: set<Job>, job: Job, wrong: Integrity) returns (w: World)
    requires job in jobs && wrong != job.spec.expected
    ensures Reachable(jobs, w) && w.cache.shared.target == Absent
    ensures w.cache.tasks == map[0 := Returning(job, Some(job.spec.expected))]
  {
    var e := job.spec.expected;
    ReachInitial(jobs, AtRest(Regular(wrong), multiset{}));
    ReachRemoval(jobs, job, Regular(wrong), multiset{});
    ReachDropped(jobs, RowRemoved(job), Regular(wrong));
    var late := SetTarget(Absent);
    ReachPublished(jobs, job, Regular(wrong), multiset{late});
    var row := Some(RecordedRow(job.spec, e));
    var returning := Returning(job, Some(e));
    Works(jobs, OneTask(Regular(e), None, Published(job), multiset{late}), Published(job), returning, Regular(e), row);
    var before := OneTask(Regular(e), row, returning, multiset{late});
    w := World(before.cache.(shared := Apply(late, before.cache.shared)), multiset{});
    ReachNext(jobs, before, Land(late), w);
  }

  /** A download that is about to return successfully has its file. */
  ghost predicate Delivered(w: World, e: Integrity) {
    forall id | id in w.cache.tasks && w.cache.tasks[id].Returning? && w.cache.tasks[id].outcome.Some? ::
      w.cache.shared.target == Regular(e)
  }

  /** A run in which, unless `removals` says so, no removal is ever left under way. */
  ghost predicate IsRunWith(jobs: set<Job>, removals: bool, worlds: seq<World>, acts: seq<Act>) {
    && IsLateRun(jobs, worlds, acts)
    && (removals || forall i | 0 <= i < |worlds| :: SetTarget(Absent) !in worlds[i].pending)
  }

  /** Every successful download of one file has it at return exactly when no removal may be left under way. */
  lemma DeliveredExactly(jobs: set<Job>, e: Integrity, removals: bool)
    requires jobs != {} && SameFile(jobs, e)
    ensures (forall worlds, acts, k | IsRunWith(jobs, removals, worlds, acts) && 0 <= k < |worlds| ::
               Delivered(worlds[k], e)) <==> !removals
  {
    if removals {
      var job :| job in jobs;
      var w := RemovalMayTakeTheFile(jobs, job, Integrity(e.size + 1, e.sha256));
      var worlds, acts :| IsLateRun(jobs, worlds, acts) && worlds[|worlds| - 1] == w;
      assert IsRunWith(jobs, removals, worlds, acts) && w.cache.tasks[0].Returning?;
      assert !Delivered(worlds[|worlds| - 1], e);
    } else {
      forall worlds: seq<World>, acts: seq<Act>, k | IsRunWith(jobs, removals, worlds, acts) && 0 <= k < |worlds|
        ensures Delivered(worlds[k], e)
      {
        forall id | id in worlds[k].cache.tasks && worlds[k].cache.tasks[id].Returning?
                    && worlds[k].cache.tasks[id].outcome.Some?
          ensures worlds[k].cache.shared.target == Regular(e)
        {
          OneFileIsTruthful(jobs, worlds, acts, k, e, id);
        }
      }
    }
  }
}
