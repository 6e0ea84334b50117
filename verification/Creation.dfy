/**
  Creation progress: the events that one creation sends to its observer, on every path through its six stages.
*/
module Creation {
  import opened Wrappers
  import opened Bounds

  /** `TOTAL_CREATION_STEPS`. */
  const STEPS: nat := 6

  datatype Stage =
    | Validation
    | PrerequisiteResolution
    | VolumePreparation
    | CredentialSetup
    | NetworkConfiguration
    | Finalization

  /** How many stages come before this one. */
  function Index(stage: Stage): nat {
    match stage
    case Validation => 0
    case PrerequisiteResolution => 1
    case VolumePreparation => 2
    case CredentialSetup => 3
    case NetworkConfiguration => 4
    case Finalization => 5
  }

  datatype Phase = Started | InProgress | Finished

  datatype Outcome = Completed | AlreadyConfigured | Failed(stage: Stage)

  datatype Event = Event(stage: Stage, steps: nat, percent: nat, phase: Phase, outcome: Option<Outcome>)

  // ---------------------------------------------------------------------------------------------------
  // Percent
  // ---------------------------------------------------------------------------------------------------

  function AtMost(n: nat, limit: nat): nat {
    if n <= limit then n else limit
  }

  function Share(done: nat, divisor: nat): nat
    requires divisor > 0
  {
    Saturated(done * 100) / divisor
  }

  /** `overall_percent`, whose one unchecked product wraps; no answer where it would divide by zero. */
  function OverallPercent(steps: nat, bytes: Option<(nat, nat)>): Option<nat> {
    var base := Saturated(steps * 100) / STEPS;
    if bytes.None? || bytes.value.1 == 0 then Some(AtMost(base, 100))
    else
      var (done, total) := bytes.value;
      var divisor := Wrapped(total * STEPS);
      if divisor == 0 then None
      else Some(AtMost(Saturated(base + Share(AtMost(done, total), divisor)), 100))
  }

  /** The share of the bar that belongs to the stage after `steps` completed ones. */
  predicate InBand(steps: nat, percent: nat) {
    100 * steps / STEPS <= percent <= AtMost(100 * (steps + 1) / STEPS, 100)
  }

  predicate TickIsInBand(steps: nat, done: nat, total: nat) {
    var percent := OverallPercent(steps, Some((done, total)));
    percent.Some? && InBand(steps, percent.value)
  }

  /** The product of the total and the number of stages fits 64 bits. */
  predicate Measurable(total: nat) {
    total * STEPS <= U64_MAX
  }

  /** How wide the band of a step is. */
  function Width(steps: nat): nat {
    100 * (steps + 1) / STEPS - 100 * steps / STEPS
  }

  /**
    The condition on a total: its product fits, or what is left of the product after wrapping is still so large
    that even a saturated share stays within the band. In the last step the cap of 100 does that by itself.
  */
  predicate Steady(steps: nat, total: nat) {
    || Measurable(total)
    || (var divisor := Wrapped(total * STEPS);
        divisor != 0 && (steps + 1 == STEPS || U64_MAX / divisor <= Width(steps)))
  }

  lemma QuotientIsBelow(n: nat, d: nat, q: nat)
    requires n < q * d && d > 0
    ensures n / d < q
  {
  }

  lemma QuotientsGrow(n: nat, m: nat, d: nat)
    requires n <= m && d > 0
    ensures n / d <= m / d
  {
    assert n < (m / d + 1) * d by {
      assert m == m / d * d + m % d;
    }
    QuotientIsBelow(n, d, m / d + 1);
  }

  lemma ShareIsBounded(done: nat, total: nat)
    requires 0 < total && done <= total
    ensures Share(done, total * STEPS) <= 16
  {
    QuotientIsBelow(Saturated(done * 100), total * STEPS, 17);
  }

  lemma MeasurableStaysInBand(steps: nat, done: nat, total: nat)
    requires steps <= STEPS && Measurable(total)
    ensures TickIsInBand(steps, done, total)
  {
    var base := Saturated(steps * 100) / STEPS;
    assert base == 100 * steps / STEPS <= 100;
    if total != 0 {
      var share := Share(AtMost(done, total), total * STEPS);
      ShareIsBounded(AtMost(done, total), total);
      assert Wrapped(total * STEPS) == total * STEPS;
      assert OverallPercent(steps, Some((done, total))) == Some(AtMost(base + share, 100));
    }
  }

  /** Above the limit, the percent of a tick is its base plus a share of at most `U64_MAX / divisor`. */
  lemma WrappedPercent(steps: nat, done: nat, total: nat)
    requires steps < STEPS && total <= U64_MAX && !Measurable(total) && Wrapped(total * STEPS) != 0
    ensures var divisor := Wrapped(total * STEPS);
            && OverallPercent(steps, Some((done, total)))
               == Some(AtMost(Saturated(100 * steps / STEPS + Share(AtMost(done, total), divisor)), 100))
            && Share(AtMost(done, total), divisor) <= U64_MAX / divisor
            && (done >= total ==> Share(AtMost(done, total), divisor) == U64_MAX / divisor)
  {
    assert Saturated(steps * 100) / STEPS == 100 * steps / STEPS;
    QuotientsGrow(Saturated(AtMost(done, total) * 100), U64_MAX, Wrapped(total * STEPS));
  }

  lemma SteadyStaysInBand(steps: nat, done: nat, total: nat)
    requires steps < STEPS && total <= U64_MAX && Steady(steps, total)
    ensures TickIsInBand(steps, done, total)
  {
    if Measurable(total) {
      MeasurableStaysInBand(steps, done, total);
    } else {
      WrappedPercent(steps, done, total);
    }
  }

  lemma UnsteadyLeavesTheBand(steps: nat, total: nat)
    requires steps < STEPS && total <= U64_MAX && !Steady(steps, total)
    ensures !TickIsInBand(steps, total, total)
  {
    if Wrapped(total * STEPS) != 0 {
      WrappedPercent(steps, total, total);
    }
  }

  /** Every tick of a total stays in the band of its step exactly when the total is steady. */
  lemma BandIsKeptExactly(steps: nat, total: nat)
    requires steps < STEPS && total <= U64_MAX
    ensures (forall done | 0 <= done <= U64_MAX :: TickIsInBand(steps, done, total)) <==> Steady(steps, total)
  {
    if Steady(steps, total) {
      forall done | 0 <= done <= U64_MAX ensures TickIsInBand(steps, done, total) {
        SteadyStaysInBand(steps, done, total);
      }
    } else {
      UnsteadyLeavesTheBand(steps, total);
    }
  }

  /** Below the limit, the percent of a tick is its base plus its share. */
  lemma MeasurablePercent(steps: nat, done: nat, total: nat)
    requires steps < STEPS && 0 < total && Measurable(total)
    ensures OverallPercent(steps, Some((done, total)))
            == Some(100 * steps / STEPS + Share(AtMost(done, total), total * STEPS))
  {
    assert Saturated(steps * 100) / STEPS == 100 * steps / STEPS <= 83;
    assert Wrapped(total * STEPS) == total * STEPS;
    ShareIsBounded(AtMost(done, total), total);
  }

  lemma ShareOfTheWhole(total: nat)
    requires 0 < total
    ensures Share(total, total * STEPS) == 16 <==> 96 * total <= U64_MAX
  {
    var n, d := Saturated(total * 100), total * STEPS;
    ShareIsBounded(total, total);
    if 96 * total <= U64_MAX {
      QuotientIsAtLeast(n, d, 16);
    } else {
      QuotientIsBelow(n, d, 16);
    }
  }

  lemma QuotientIsAtLeast(n: nat, d: nat, q: nat)
    requires q * d <= n && d > 0
    ensures n / d >= q
  {
    assert n < (n / d + 1) * d by {
      assert n == n / d * d + n % d;
    }
  }

  /** A finished tick fills its share of the bar, 16 percent, exactly when 96 times the total fits 64 bits. */
  lemma FinishedTickFillsItsShare(steps: nat, total: nat)
    requires steps < STEPS && 0 < total && Measurable(total)
    ensures OverallPercent(steps, Some((total, total))) == Some(100 * steps / STEPS + 16) <==> 96 * total <= U64_MAX
  {
    MeasurablePercent(steps, total, total);
    ShareOfTheWhole(total);
  }

  /** More bytes never lower the percent. */
  lemma PercentGrows(steps: nat, done: nat, more: nat, total: nat)
    requires steps < STEPS && done <= more && total <= U64_MAX && total != I64_MAX + 1
    ensures OverallPercent(steps, Some((done, total))).Some? && OverallPercent(steps, Some((more, total))).Some?
    ensures OverallPercent(steps, Some((done, total))).value <= OverallPercent(steps, Some((more, total))).value
  {
    DividesByZeroExactly(steps, done, total);
    DividesByZeroExactly(steps, more, total);
    if total != 0 {
      var divisor := Wrapped(total * STEPS);
      QuotientsGrow(Saturated(AtMost(done, total) * 100), Saturated(AtMost(more, total) * 100), divisor);
    }
  }

  /** One 64-bit total divides by zero, and no signed one does: sizes are stored as signed integers. */
  lemma DividesByZeroExactly(steps: nat, done: nat, total: nat)
    requires total <= U64_MAX
    ensures OverallPercent(steps, Some((done, total))).None? <==> total == I64_MAX + 1
  {
    if total != 0 && Wrapped(total * STEPS) == 0 {
      assert total * STEPS == total * STEPS / (U64_MAX + 1) * (U64_MAX + 1);
      assert 0 < total * STEPS / (U64_MAX + 1) < STEPS;
    }
  }

  /** A total that can be stored: its ticks reach 100 percent while one stage of six is complete. */
  lemma LargeTotalLeavesTheBand()
    ensures var total := U64_MAX / STEPS + 1;
            total <= I64_MAX && !Steady(1, total) && OverallPercent(1, Some((total, total))) == Some(100)
  {
    var total := U64_MAX / STEPS + 1;
    assert Wrapped(total * STEPS) == 2;
    assert Share(total, 2) == U64_MAX / 2;
  }

  /** A larger one whose ticks stay in band: being above the limit does not decide it. */
  lemma LargerTotalStaysInBand()
    ensures var total := 2 * (U64_MAX + 1) / STEPS - 1;
            total <= I64_MAX && !Measurable(total) && Steady(1, total) && Steady(2, total)
  {
    var total := 2 * (U64_MAX + 1) / STEPS - 1;
    assert Wrapped(total * STEPS) == U64_MAX - 7;
    assert U64_MAX / (U64_MAX - 7) == 1;
  }

  // ---------------------------------------------------------------------------------------------------
  // Well-formed traces
  // ---------------------------------------------------------------------------------------------------

  /** Where an observer stands: between stages, inside one, after the terminal event, or misled. */
  datatype Standing = Between(done: nat) | Inside(stage: nat) | Over | Misled

  function Next(at: Standing, e: Event): Standing {
    var stage := Index(e.stage);
    match at
    case Between(k) =>
      if e.phase == Started && stage == k == e.steps && e.outcome.None? then Inside(k)
      else if e.phase == Finished && stage + 1 == k == STEPS == e.steps && e.outcome == Some(Completed) then Over
      else Misled
    case Inside(k) =>
      if e.phase == InProgress && stage == k == e.steps && e.outcome.None? then Inside(k)
      else if e.phase == Finished && stage == k && e.steps == k + 1 && e.outcome.None? then Between(k + 1)
      else if e.phase == Finished && stage == k == e.steps && e.outcome == Some(Failed(e.stage)) then Over
      else if e.phase == Finished && stage == k == e.steps == 0 && e.outcome == Some(AlreadyConfigured) then Over
      else Misled
    case _ => Misled
  }

  function Follow(events: seq<Event>): Standing {
    if events == [] then Between(0) else Next(Follow(events[..|events| - 1]), events[|events| - 1])
  }

  ghost predicate AllInBand(events: seq<Event>) {
    forall i | 0 <= i < |events| :: InBand(events[i].steps, events[i].percent)
  }

  /** The most completed steps that any event so far may have named. */
  function Floor(at: Standing): nat {
    match at
    case Between(k) => k
    case Inside(k) => k
    case _ => 0
  }

  lemma {:induction false} PrefixIsFollowed(events: seq<Event>, n: nat)
    requires n < |events| && Follow(events) != Misled
    ensures Follow(events[..n]) != Misled && Follow(events[..n]) != Over
    ensures events[n].outcome.Some? ==> n == |events| - 1
  {
    var last := |events| - 1;
    if n < last {
      PrefixIsFollowed(events[..last], n);
      assert events[..last][..n] == events[..n];
      assert events[..n + 1][..n] == events[..n];
      StaysOver(events, n + 1);
    }
  }

  /** Nothing may follow the terminal event. */
  lemma {:induction false} StaysOver(events: seq<Event>, n: nat)
    requires n < |events| && Follow(events) != Misled
    ensures Follow(events[..n]) != Over
  {
    var last := |events| - 1;
    if n < last {
      StaysOver(events[..last], n);
      assert events[..last][..n] == events[..n];
    } else {
      assert events[..n] == events[..last];
    }
  }

  lemma {:induction false} StepsRise(events: seq<Event>, i: nat)
    requires i < |events| && Follow(events) != Misled
    ensures Follow(events).Over? || events[i].steps <= Floor(Follow(events))
    ensures events[i].steps <= events[|events| - 1].steps
  {
    var last := |events| - 1;
    if i < last {
      StaysOver(events, last);
      StepsRise(events[..last], i);
    }
  }

  lemma FrontIsFollowed(events: seq<Event>, j: nat)
    requires j < |events| && Follow(events) != Misled
    ensures Follow(events[..j + 1]) != Misled
  {
    if j + 1 < |events| {
      PrefixIsFollowed(events, j + 1);
    } else {
      assert events[..j + 1] == events;
    }
  }

  /**
    A trace that is followed to its end has exactly one terminal event, the last; its completed steps never fall;
    and, with every percent in its band, its percent never falls when the completed steps rise.
  */
  lemma FollowedMeans(events: seq<Event>, i: nat, j: nat)
    requires Follow(events) == Over && i <= j < |events|
    ensures events[j].outcome.Some? <==> j == |events| - 1
    ensures events[i].steps <= events[j].steps
    ensures AllInBand(events) && events[i].steps < events[j].steps ==> events[i].percent <= events[j].percent
  {
    PrefixIsFollowed(events, j);
    FrontIsFollowed(events, j);
    StepsRise(events[..j + 1], i);
    if AllInBand(events) && events[i].steps < events[j].steps {
      PercentRises(events[i], events[j]);
    }
  }

  lemma PercentRises(a: Event, b: Event)
    requires InBand(a.steps, a.percent) && InBand(b.steps, b.percent) && a.steps < b.steps
    ensures a.percent <= b.percent
  {
    BandsAreOrdered(a.steps, b.steps);
  }

  lemma BandsAreOrdered(k: nat, l: nat)
    requires k < l
    ensures 100 * (k + 1) / STEPS <= 100 * l / STEPS
  {
  }

  // ---------------------------------------------------------------------------------------------------
  // The observer
  // ---------------------------------------------------------------------------------------------------

  class Observer {
    var events: seq<Event>

    constructor ()
      ensures events == []
    {
      events := [];
    }

    /** The terminal event was the last, with this outcome. */
    ghost predicate Ended(outcome: Outcome)
      reads this
    {
      Follow(events) == Over && events != [] && events[|events| - 1].outcome == Some(outcome)
    }

    /** `emit_creation_progress`. */
    method Emit(e: Event)
      modifies this
      ensures events == old(events) + [e] && Follow(events) == Next(Follow(old(events)), e)
      ensures AllInBand(old(events)) && InBand(e.steps, e.percent) ==> AllInBand(events)
    {
      events := events + [e];
      assert events[..|events| - 1] == old(events);
    }

    /** Emit `creation_started_event`. */
    method Begin(stage: Stage, steps: nat)
      requires steps <= STEPS
      modifies this
      ensures |events| == |old(events)| + 1 && events[|old(events)|].outcome == None
      ensures Follow(events) == if Follow(old(events)) == Between(Index(stage)) && steps == Index(stage)
                                then Inside(steps) else Misled
      ensures AllInBand(old(events)) ==> AllInBand(events)
    {
      Emit(Event(stage, steps, OverallPercent(steps, None).value, Started, None));
    }

    /** Emit `creation_stage_event`. */
    method Finish(stage: Stage, steps: nat)
      requires steps <= STEPS
      modifies this
      ensures |events| == |old(events)| + 1
      ensures Follow(events) == if Follow(old(events)) == Inside(Index(stage)) && steps == Index(stage) + 1
                                then Between(steps) else Misled
      ensures AllInBand(old(events)) ==> AllInBand(events)
    {
      Emit(Event(stage, steps, OverallPercent(steps, None).value, Finished, None));
    }

    /** Emit `creation_terminal_event` with a failure. */
    method Fail(stage: Stage, steps: nat, blamed: Stage)
      requires steps <= STEPS
      modifies this
      ensures |events| == |old(events)| + 1 && events[|old(events)|].outcome == Some(Failed(blamed))
      ensures Follow(events) ==
              if Follow(old(events)) == Inside(Index(stage)) && steps == Index(stage) && blamed == stage
              then Over else Misled
      ensures AllInBand(old(events)) ==> AllInBand(events)
    {
      Emit(Event(stage, steps, OverallPercent(steps, None).value, Finished, Some(Failed(blamed))));
    }

    /** Emit `creation_terminal_event` with a success. */
    method Succeed(stage: Stage, steps: nat, outcome: Outcome)
      requires steps <= STEPS && !outcome.Failed?
      modifies this
      ensures |events| == |old(events)| + 1 && events[|old(events)|].outcome == Some(outcome)
      ensures Follow(events) ==
              if || (Follow(old(events)), stage, steps, outcome) == (Between(6), Finalization, 6, Completed)
                 || (Follow(old(events)), stage, steps, outcome) == (Inside(0), Validation, 0, AlreadyConfigured)
              then Over else Misled
      ensures AllInBand(old(events)) ==> AllInBand(events)
    {
      Emit(Event(stage, steps, OverallPercent(steps, None).value, Finished, Some(outcome)));
    }

    /** Emit `creation_tick_event` for each report of bytes done; an empty file counts as one byte. */
    method Tick(stage: Stage, steps: nat, ticks: seq<(nat, nat)>)
      requires steps < STEPS && steps == Index(stage) && Follow(events) == Inside(steps)
      requires Storable(ticks)
      modifies this
      ensures Follow(events) == Inside(steps)
      ensures AllInBand(old(events)) && TicksAreSteady(steps, ticks) ==> AllInBand(events)
      ensures |events| == |old(events)| + |ticks| && old(events) <= events
      ensures forall i | 0 <= i < |ticks| :: IsTick(events[|old(events)| + i], steps, ticks[i])
    {
      for i := 0 to |ticks|
        invariant |events| == |old(events)| + i && old(events) <= events
        invariant forall j | 0 <= j < i :: IsTick(events[|old(events)| + j], steps, ticks[j])
        invariant Follow(events) == Inside(steps)
        invariant AllInBand(old(events)) && TicksAreSteady(steps, ticks) ==> AllInBand(events)
      {
        TickOnce(stage, steps, ticks[i]);
      }
    }

    method TickOnce(stage: Stage, steps: nat, tick: (nat, nat))
      requires steps < STEPS && steps == Index(stage) && Follow(events) == Inside(steps) && tick.1 <= I64_MAX
      modifies this
      ensures Follow(events) == Inside(steps)
      ensures |events| == |old(events)| + 1 && old(events) <= events && IsTick(events[|old(events)|], steps, tick)
      ensures AllInBand(old(events)) && Steady(steps, AtLeastOne(tick.1)) ==> AllInBand(events)
    {
      var total := AtLeastOne(tick.1);
      DividesByZeroExactly(steps, tick.0, total);
      if Steady(steps, total) {
        SteadyStaysInBand(steps, tick.0, total);
      }
      Emit(Event(stage, steps, OverallPercent(steps, Some((tick.0, total))).value, InProgress, None));
    }
  }

  /** A tick shows the bytes done of a total, where an empty file counts as one byte. */
  ghost predicate IsTick(e: Event, steps: nat, tick: (nat, nat)) {
    && e.steps == steps && e.phase == InProgress
    && Some(e.percent) == OverallPercent(steps, Some((tick.0, if tick.1 == 0 then 1 else tick.1)))
  }

  function AtLeastOne(n: nat): nat {
    if n == 0 then 1 else n
  }

  /** The sizes that ticks name are sizes the inventory can store. */
  ghost predicate Storable(ticks: seq<(nat, nat)>) {
    forall i | 0 <= i < |ticks| :: ticks[i].1 <= I64_MAX
  }

  ghost predicate TicksAreSteady(steps: nat, ticks: seq<(nat, nat)>) {
    forall i | 0 <= i < |ticks| :: Steady(steps, AtLeastOne(ticks[i].1))
  }

  // ---------------------------------------------------------------------------------------------------
  // Creation
  // ---------------------------------------------------------------------------------------------------

  /** A long operation: the bytes it reports on the way, and whether it succeeds. */
  datatype Work = Work(ticks: seq<(nat, nat)>, ok: bool)

  /** A machine of that name: whether it is complete, which compared fields agree, and whether it can be loaded. */
  datatype Existing = Existing(complete: bool, agrees: seq<bool>, loads: bool)

  /** Whether each fallible operation of a creation succeeds. */
  datatype Script = Script(
    requestIsValid: bool,
    nameLock: bool,
    separateVolume: bool,
    volumeLock: bool,
    lookup: bool,
    existing: Option<Existing>,
    selection: bool,           // everything from the host architecture to the image's inventory row
    image: Work,
    kernelRow: bool,
    kernel: Work,
    firecracker: bool,
    firectl: bool,
    hostIsValid: bool,
    volumeIsFree: bool,
    clock: bool,
    insert: bool,
    rootfs: Work,
    keys: bool,
    keyInjection: bool,
    hostOnlyNetworks: bool,
    lanAddresses: bool,
    network: bool,
    guestConfig: bool,
    rows: bool,
    verifyStopped: bool,
    runtimeRow: bool,
    rollback: bool)

  ghost predicate ScriptIsStorable(s: Script) {
    Storable(s.image.ticks) && Storable(s.kernel.ticks) && Storable(s.rootfs.ticks)
  }

  ghost predicate ScriptIsSteady(s: Script) {
    TicksAreSteady(1, s.image.ticks) && TicksAreSteady(1, s.kernel.ticks) && TicksAreSteady(2, s.rootfs.ticks)
  }

  predicate Validates(s: Script) {
    s.requestIsValid && s.nameLock && (s.separateVolume ==> s.volumeLock) && s.lookup
  }

  predicate Reusable(e: Existing) {
    e.complete && (forall i | 0 <= i < |e.agrees| :: e.agrees[i]) && e.loads
  }

  predicate Resolves(s: Script) {
    s.selection && s.image.ok && s.kernelRow && s.kernel.ok && s.firecracker && s.firectl
  }

  predicate Claims(s: Script) {
    Resolves(s) && s.hostIsValid && s.volumeIsFree && s.clock && s.insert
  }

  predicate Connects(s: Script) {
    s.hostOnlyNetworks && s.lanAddresses && s.network && s.guestConfig
  }

  predicate Finalizes(s: Script) {
    s.rows && s.verifyStopped && s.runtimeRow
  }

  /** The outcome of a script: the stage of the first operation that fails, if one does. */
  function OutcomeOf(s: Script): Outcome {
    if !Validates(s) then Failed(Validation)
    else if s.existing.Some? then if Reusable(s.existing.value) then AlreadyConfigured else Failed(Validation)
    else if !Claims(s) then Failed(PrerequisiteResolution)
    else ClaimedOutcome(s)
  }

  function ClaimedOutcome(s: Script): Outcome {
    if !s.rootfs.ok then Failed(VolumePreparation)
    else if !(s.keys && s.keyInjection) then Failed(CredentialSetup)
    else if !Connects(s) then Failed(NetworkConfiguration)
    else if !Finalizes(s) then Failed(Finalization)
    else Completed
  }

  datatype Reply = Created | Returned | Refused | NotCleanedUp

  /**
    `create_microvm`. Whatever happens, the observer can follow the trace to its end, the terminal event names the
    stage of the first operation that failed, and it agrees with what the caller gets.
  */
  method Create(s: Script, o: Observer) returns (r: Reply)
    requires o.events == [] && ScriptIsStorable(s)
    modifies o
    ensures o.Ended(OutcomeOf(s))
    ensures r.Created? <==> OutcomeOf(s) == Completed
    ensures r.Returned? <==> OutcomeOf(s) == AlreadyConfigured
    ensures r.NotCleanedUp? <==>
      Validates(s) && s.existing.None? && Claims(s) && ClaimedOutcome(s) != Completed && !s.rollback
    ensures ScriptIsSteady(s) ==> AllInBand(o.events)
  {
    var ok := Validate(s, o);
    if !ok { return Refused; }
    if s.existing.Some? {
      ok := ReturnOrReject(s.existing.value, o);
      return if ok then Returned else Refused;
    }
    o.Finish(Validation, 1);
    o.Begin(PrerequisiteResolution, 1);
    ok := Claim(s, o);
    if !ok { return Refused; }
    o.Finish(PrerequisiteResolution, 2);
    ok := CreateClaimed(s, o);
    if ok {
      o.Succeed(Finalization, 6, Completed);
      return Created;
    }
    return if s.rollback then Refused else NotCleanedUp;
  }

  /** The operations of the validation stage, up to the lookup of an existing machine. */
  method Validate(s: Script, o: Observer) returns (ok: bool)
    requires o.events == []
    modifies o
    ensures ok == Validates(s)
    ensures if ok then Follow(o.events) == Inside(0) else o.Ended(Failed(Validation))
    ensures AllInBand(o.events)
  {
    o.Begin(Validation, 0);
    if !s.requestIsValid {
      o.Fail(Validation, 0, Validation);
      return false;
    }
    if !s.nameLock {
      o.Fail(Validation, 0, Validation);
      return false;
    }
    if s.separateVolume && !s.volumeLock {
      o.Fail(Validation, 0, Validation);
      return false;
    }
    if !s.lookup {
      o.Fail(Validation, 0, Validation);
      return false;
    }
    return true;
  }

  /** `return_or_reject_existing_creation`. */
  method ReturnOrReject(e: Existing, o: Observer) returns (ok: bool)
    requires Follow(o.events) == Inside(0)
    modifies o
    ensures ok == Reusable(e)
    ensures o.Ended(if ok then AlreadyConfigured else Failed(Validation))
    ensures AllInBand(old(o.events)) ==> AllInBand(o.events)
  {
    if !e.complete {
      o.Fail(Validation, 0, Validation);
      return false;
    }
    for i := 0 to |e.agrees|
      invariant o.events == old(o.events)
      invariant forall j | 0 <= j < i :: e.agrees[j]
    {
      if !e.agrees[i] {
        o.Fail(Validation, 0, Validation);
        return false;
      }
    }
    if e.loads {
      o.Succeed(Validation, 0, AlreadyConfigured);
      return true;
    }
    o.Fail(Validation, 0, Validation);
    return false;
  }

  /** The operations of the second stage, from the prerequisites to the inserted record. */
  method Claim(s: Script, o: Observer) returns (ok: bool)
    requires Follow(o.events) == Inside(1) && ScriptIsStorable(s)
    modifies o
    ensures ok == Claims(s)
    ensures if ok then Follow(o.events) == Inside(1) else o.Ended(Failed(PrerequisiteResolution))
    ensures AllInBand(old(o.events)) && ScriptIsSteady(s) ==> AllInBand(o.events)
  {
    ok := ResolvePrerequisites(s, o);
    if !ok {
      o.Fail(PrerequisiteResolution, 1, PrerequisiteResolution);
      return false;
    }
    if !s.hostIsValid {
      o.Fail(PrerequisiteResolution, 1, PrerequisiteResolution);
      return false;
    }
    if !s.volumeIsFree {
      o.Fail(PrerequisiteResolution, 1, PrerequisiteResolution);
      return false;
    }
    if !s.clock {
      o.Fail(PrerequisiteResolution, 1, PrerequisiteResolution);
      return false;
    }
    if !s.insert {
      o.Fail(PrerequisiteResolution, 1, PrerequisiteResolution);
      return false;
    }
    return true;
  }

  /** `resolve_creation_prerequisites`: it ticks while it hashes, and leaves the terminal event to its caller. */
  method ResolvePrerequisites(s: Script, o: Observer) returns (ok: bool)
    requires Follow(o.events) == Inside(1) && ScriptIsStorable(s)
    modifies o
    ensures ok == Resolves(s)
    ensures Follow(o.events) == Inside(1)
    ensures AllInBand(old(o.events)) && ScriptIsSteady(s) ==> AllInBand(o.events)
  {
    if !s.selection { return false; }
    o.Tick(PrerequisiteResolution, 1, s.image.ticks);
    if !s.image.ok { return false; }
    if !s.kernelRow { return false; }
    o.Tick(PrerequisiteResolution, 1, s.kernel.ticks);
    if !s.kernel.ok { return false; }
    if !s.firecracker { return false; }
    return s.firectl;
  }

  /** `create_claimed_microvm`: the last four stages. */
  method CreateClaimed(s: Script, o: Observer) returns (ok: bool)
    requires Follow(o.events) == Between(2) && ScriptIsStorable(s)
    modifies o
    ensures ok <==> ClaimedOutcome(s) == Completed
    ensures if ok then Follow(o.events) == Between(6) else o.Ended(ClaimedOutcome(s))
    ensures AllInBand(old(o.events)) && ScriptIsSteady(s) ==> AllInBand(o.events)
  {
    ok := PrepareVolume(s, o);
    if !ok { return; }
    ok := SetUpCredentials(s, o);
    if !ok { return; }
    ok := ConfigureNetwork(s, o);
    if !ok { return; }
    ok := Finalize(s, o);
  }

  method PrepareVolume(s: Script, o: Observer) returns (ok: bool)
    requires Follow(o.events) == Between(2) && ScriptIsStorable(s)
    modifies o
    ensures ok == s.rootfs.ok
    ensures if ok then Follow(o.events) == Between(3) else o.Ended(Failed(VolumePreparation))
    ensures AllInBand(old(o.events)) && ScriptIsSteady(s) ==> AllInBand(o.events)
  {
    o.Begin(VolumePreparation, 2);
    o.Tick(VolumePreparation, 2, s.rootfs.ticks);
    if !s.rootfs.ok {
      o.Fail(VolumePreparation, 2, VolumePreparation);
      return false;
    }
    o.Finish(VolumePreparation, 3);
    return true;
  }

  method SetUpCredentials(s: Script, o: Observer) returns (ok: bool)
    requires Follow(o.events) == Between(3)
    modifies o
    ensures ok == (s.keys && s.keyInjection)
    ensures if ok then Follow(o.events) == Between(4) else o.Ended(Failed(CredentialSetup))
    ensures AllInBand(old(o.events)) ==> AllInBand(o.events)
  {
    o.Begin(CredentialSetup, 3);
    if !s.keys {
      o.Fail(CredentialSetup, 3, CredentialSetup);
      return false;
    }
    if !s.keyInjection {
      o.Fail(CredentialSetup, 3, CredentialSetup);
      return false;
    }
    o.Finish(CredentialSetup, 4);
    return true;
  }

  method ConfigureNetwork(s: Script, o: Observer) returns (ok: bool)
    requires Follow(o.events) == Between(4)
    modifies o
    ensures ok == Connects(s)
    ensures if ok then Follow(o.events) == Between(5) else o.Ended(Failed(NetworkConfiguration))
    ensures AllInBand(old(o.events)) ==> AllInBand(o.events)
  {
    o.Begin(NetworkConfiguration, 4);
    if !s.hostOnlyNetworks {
      o.Fail(NetworkConfiguration, 4, NetworkConfiguration);
      return false;
    }
    if !s.lanAddresses {
      o.Fail(NetworkConfiguration, 4, NetworkConfiguration);
      return false;
    }
    if !s.network {
      o.Fail(NetworkConfiguration, 4, NetworkConfiguration);
      return false;
    }
    if !s.guestConfig {
      o.Fail(NetworkConfiguration, 4, NetworkConfiguration);
      return false;
    }
    o.Finish(NetworkConfiguration, 5);
    return true;
  }

  method Finalize(s: Script, o: Observer) returns (ok: bool)
    requires Follow(o.events) == Between(5)
    modifies o
    ensures ok == Finalizes(s)
    ensures if ok then Follow(o.events) == Between(6) else o.Ended(Failed(Finalization))
    ensures AllInBand(old(o.events)) ==> AllInBand(o.events)
  {
    o.Begin(Finalization, 5);
    if !s.rows {
      o.Fail(Finalization, 5, Finalization);
      return false;
    }
    if !s.verifyStopped {
      o.Fail(Finalization, 5, Finalization);
      return false;
    }
    if !s.runtimeRow {
      o.Fail(Finalization, 5, Finalization);
      return false;
    }
    o.Finish(Finalization, 6);
    return true;
  }
}
