/** Runs of the controller under any caller, and the invariant every run keeps. */
module CoreRuns {
  import opened Wrappers
  import opened Ticks
  import opened Ledger
  import opened CoreSpec

  datatype Op =
    | DoObserve(now: real, delta: nat, after: nat)
    | DoQuarantine(now: real, after: nat, enabled: bool)
    | DoObserveSurface(now: real, delta: nat, seconds: real, key: Key)
    | DoObserveBatch(now: real, delta: nat, seconds: real, key: Key, after: nat)
    | DoObserveReplacement(now: real, delta: nat, seconds: real, key: Key, after: nat)
    | DoPrefill(now: real, wall: real)
    | DoUpdateReference(revision: nat, reference: real)
    | DoStartEpoch(now: real, after: nat)
    | DoSnapshot(now: real)
    | DoAdmit(now: real, key: Key)
    | DoExport(now: real, capacity: nat)
    | DoChoose(now: real, decode: bool, prefill: bool, age: real)

  datatype Output = Done | Viewed(view: View) | Forecasted(forecast: Forecast)
                  | Exported(cells: seq<ProfileCell>) | Chosen(decode: bool) | Refused(error: Error)

  /** A call publishes its whole effect or, when refused, none of it. */
  function Publish(c: Core, r: Result<Core>): (Core, Output) {
    match r
    case Ok(c') => (c', Done)
    case Err(e) => (c, Refused(e))
  }

  function Step(c: Core, op: Op): (Core, Output) {
    match op
    case DoObserve(now, delta, after) => Publish(c, Observe(c, now, delta, after))
    case DoQuarantine(now, after, enabled) => Publish(c, Quarantine(c, now, after, enabled))
    case DoObserveSurface(now, delta, seconds, key) => Publish(c, ObserveSurface(c, now, delta, seconds, key))
    case DoObserveBatch(now, delta, seconds, key, after) =>
      Publish(c, ObserveBatch(c, now, delta, seconds, key, after))
    case DoObserveReplacement(now, delta, seconds, key, after) =>
      Publish(c, ObserveReplacement(c, now, delta, seconds, key, after))
    case DoPrefill(now, wall) => Publish(c, Prefill(c, now, wall))
    case DoUpdateReference(revision, reference) => Publish(c, UpdateReference(c, revision, reference))
    case DoStartEpoch(now, after) => Publish(c, StartSurfaceEpoch(c, now, after))
    case DoSnapshot(now) =>
      (match Snapshot(c, now)
       case Ok((c', v)) => (c', Viewed(v))
       case Err(e) => (c, Refused(e)))
    case DoAdmit(now, key) =>
      (match Admit(c, now, key)
       case Ok((c', f)) => (c', Forecasted(f))
       case Err(e) => (c, Refused(e)))
    case DoExport(now, capacity) =>
      (match Export(c, now, capacity)
       case Ok((c', cells)) => (c', Exported(cells))
       case Err(e) => (c, Refused(e)))
    case DoChoose(now, decode, prefill, age) =>
      (match Choose(c, now, decode, prefill, age)
       case Ok((c', d)) => (c', Chosen(d))
       case Err(e) => (c, Refused(e)))
  }

  lemma RefusedKeeps(c: Core, op: Op)
    ensures Step(c, op).1.Refused? ==> Step(c, op).0 == c
  {
  }

  function Run(c: Core, ops: seq<Op>): Core
    decreases |ops|
  {
    if ops == [] then c else Run(Step(c, ops[0]).0, ops[1..])
  }

  function Outputs(c: Core, ops: seq<Op>): seq<Output>
    decreases |ops|
  {
    if ops == [] then [] else [Step(c, ops[0]).1] + Outputs(Step(c, ops[0]).0, ops[1..])
  }

  // ---------- The invariant ----------

  ghost predicate LogSafe(log: Log, t: real) {
    Until(log, t) && WindowTokens(log, t, WINDOW_SECONDS) < U64
  }

  /** No sample carries tokens without exposure. */
  ghost predicate Charged(log: Log) {
    log.Then? ==> Charged(log.before) && (log.entry.Sample? && log.entry.tokens > 0 ==> log.entry.seconds > 0.0)
  }

  ghost predicate SoundCell(cell: Cell, t: real) {
    cell.lastTime.Some? && 0.0 <= cell.lastTime.value <= t && LogSafe(cell.log, cell.lastTime.value) &&
    Charged(cell.log) &&
    (cell.lastQualified.Some? ==> cell.lastQualified.value <= t)
  }

  /** The tick of the last sample that carried tokens. */
  ghost function LastToken(log: Log): Option<int> {
    match log
    case Blank => None
    case Then(before, e) => if e.Sample? && e.tokens > 0 then Some(e.tick) else LastToken(before)
  }

  /** Every token of the active run is also in the aggregate. */
  ghost predicate RunWithin(c: Core) {
    forall first, last :: Tokens(c.run, first, last) <= Tokens(c.log, first, last)
  }

  ghost predicate NoTokensAfter(log: Log) {
    LastToken(log).Some? ==>
      forall first, last :: LastToken(log).value < first ==> Tokens(log, first, last) == 0
  }

  /** While Decode runs outside quarantine, the run has charged at least one sequence
      for every instant since the tick of its last token. */
  ghost predicate RunCharged(c: Core, t: real) {
    c.active > 0 && !c.quarantined && LastToken(c.run).Some? ==>
      forall k :: LastToken(c.run).value < k <= Tick(t) ==> Seconds(c.run, k, Tick(t)) >= t - Edge(k)
  }

  ghost predicate SoundClock(c: Core) {
    match c.lastTime
    case None =>
      c.log == Blank && c.run == Blank && c.surface == map[] && c.active == 0 &&
      !c.quarantined && !c.runHasTokens && c.prefillEnd.None? && c.deadline.None?
    case Some(t) =>
      0.0 <= t < MAX_CLOCK && LogSafe(c.log, t) && Until(c.run, t) && RunCharged(c, t) &&
      (c.prefillEnd.Some? ==> c.prefillEnd.value <= t && c.prefillWall > 0.0) &&
      (forall key :: key in c.surface ==> SoundCell(c.surface[key], t))
  }

  ghost predicate Sound(c: Core) {
    c.maxRunning > 0 && c.reference >= 0.0 && 1 <= c.revision < U64 && c.active <= c.maxRunning &&
    (c.runHasTokens <==> LastToken(c.run).Some?) && RunWithin(c) && NoTokensAfter(c.run) &&
    (forall key :: key in c.surface ==> InSurface(key, c.maxRunning)) &&
    (forall key :: key in c.prior ==> c.prior[key].key == key && ValidProfileCell(c.prior[key], c.maxRunning)) &&
    SoundClock(c)
  }

  // ---------- The invariant is kept ----------

  lemma ExposeTokens(log: Log, from: real, to: real, active: nat)
    ensures forall first, last :: Tokens(Expose(log, from, to, active), first, last) == Tokens(log, first, last)
    ensures LastToken(Expose(log, from, to, active)) == LastToken(log)
  {
  }

  /** A safe window stays safe: it only sheds ticks until the next write. */
  lemma SafeLater(log: Log, t: real, now: real, lookback: real)
    requires LogSafe(log, t) && 0.0 <= t <= now
    requires lookback == WINDOW_SECONDS || lookback == SHORT_WINDOW_SECONDS
    ensures Until(log, now) && WindowTokens(log, now, lookback) <= WindowTokens(log, t, WINDOW_SECONDS) < U64
  {
    UntilLater(log, t, now);
    WindowTicks(t);
    WindowTicks(now);
    TickMonotone(t, now);
    var first := Tick(now - lookback);
    if first <= Tick(t) + 1 {
      LaterWindow(log, t, first, Tick(now));
      WiderWindow(log, t, first, Tick(t), Tick(t) - 120, Tick(t));
    } else {
      NothingOutside(log, t, first, Tick(now));
    }
  }

  lemma OverlapSince(t: real, now: real, k: int)
    requires t <= now && k <= Tick(now)
    ensures Meet(t, now, Edge(k), Edge(Tick(now) + 1)) == if k <= Tick(t) then now - t else now - Edge(k)
  {
    TickBrackets(t);
    TickBrackets(now);
    if k <= Tick(t) {
      assert Edge(k) <= Edge(Tick(t));
    } else {
      assert Edge(k) >= Edge(Tick(t) + 1);
      assert Edge(k) <= Edge(Tick(now));
    }
  }

  lemma ExposureSince(t: real, now: real, active: nat, k: int)
    requires t <= now && active > 0 && k <= Tick(now)
    ensures EntrySeconds(Exposed(t, now, active), k, Tick(now)) >= if k <= Tick(t) then now - t else now - Edge(k)
  {
    OverlapSince(t, now, k);
    var inside := Meet(t, now, Edge(k), Edge(Tick(now) + 1));
    assert inside >= 0.0;
    AtLeastOnce(active, inside);
  }

  /** Exposure since tick `k` keeps pace with the clock as the clock moves on. */
  lemma ChargeKeepsPace(run: Log, t: real, now: real, active: nat, k: int)
    requires Until(run, t) && 0.0 <= t <= now && active > 0 && k <= Tick(now)
    requires k <= Tick(t) ==> Seconds(run, k, Tick(t)) >= t - Edge(k)
    ensures Seconds(Expose(run, t, now, active), k, Tick(now)) >= now - Edge(k)
  {
    TickMonotone(t, now);
    ExposeAdds(run, t, now, active, k, Tick(now));
    ExposureSince(t, now, active, k);
    if k <= Tick(t) {
      LaterWindow(run, t, k, Tick(now));
    } else {
      SecondsNonnegative(run, t, k, Tick(now));
    }
  }

  lemma ChargeContinues(c: Core, t: real, now: real)
    requires Until(c.run, t) && RunCharged(c, t) && 0.0 <= t <= now
    ensures RunCharged(c.(run := Expose(c.run, t, now, c.active)), now)
  {
    ExposeTokens(c.run, t, now, c.active);
    if c.active > 0 && !c.quarantined && LastToken(c.run).Some? {
      forall k | LastToken(c.run).value < k <= Tick(now)
        ensures Seconds(Expose(c.run, t, now, c.active), k, Tick(now)) >= now - Edge(k)
      {
        ChargeKeepsPace(c.run, t, now, c.active, k);
      }
    }
  }

  lemma AtLeastOnce(n: nat, x: real)
    requires n > 0 && x >= 0.0
    ensures n as real * x >= x
  {
    ScaleNonnegative(n - 1, x);
    assert n as real * x == (n - 1) as real * x + x;
  }

  /** A cell's evidence stays safe from its last write on. */
  lemma CellReadable(cell: Cell, t: real, now: real)
    requires SoundCell(cell, t) && t <= now
    ensures Until(cell.log, now) && LogSafe(cell.log, now) && SoundCell(cell, now)
    ensures WindowTokens(cell.log, now, SHORT_WINDOW_SECONDS) < U64
  {
    SafeLater(cell.log, cell.lastTime.value, now, WINDOW_SECONDS);
    SafeLater(cell.log, cell.lastTime.value, now, SHORT_WINDOW_SECONDS);
  }

  lemma AdvanceSound(c: Core, now: real, accumulate: bool)
    requires Sound(c) && ClockAccepts(c, now)
    requires accumulate ==> !c.quarantined
    ensures var c' := AdvanceClock(c, now, accumulate).value;
      c'.lastTime == Some(now) && Until(c'.run, now) && LogSafe(c'.log, now) &&
      Sound(c'.(run := Blank, runHasTokens := false)) &&
      (accumulate || c.active == 0 || c.quarantined ==> Sound(c'))
  {
    if c.lastTime.Some? {
      var t := c.lastTime.value;
      var c' := AdvanceClock(c, now, accumulate).value;
      ExposeTokens(c.log, t, now, c.active);
      ExposeTokens(c.run, t, now, c.active);
      SafeLater(c.log, t, now, WINDOW_SECONDS);
      UntilLater(c.run, t, now);
      ExposeAdds(c.log, t, now, c.active, 0, 0);
      ExposeAdds(c.run, t, now, c.active, 0, 0);
      forall key | key in c.surface ensures SoundCell(c.surface[key], now) {
        CellReadable(c.surface[key], t, now);
      }
      if accumulate {
        ChargeContinues(c, t, now);
      }
    }
  }

  lemma ObserveCellSound(cell: Cell, t: real, now: real, delta: nat, seconds: real)
    requires cell == NEW_CELL || SoundCell(cell, t)
    requires 0.0 <= t <= now && ObserveCell(cell, now, delta, seconds).Ok?
    ensures SoundCell(ObserveCell(cell, now, delta, seconds).value, now)
  {
    if cell != NEW_CELL {
      CellReadable(cell, t, now);
    }
    TickMonotone(0.0, now);
  }

  lemma RecordSound(c: Core, now: real, delta: nat)
    requires Sound(c) && c.lastTime == Some(now) && RecordTokens(c, now, delta).Ok?
    ensures Sound(RecordTokens(c, now, delta).value)
  {
    TickMonotone(0.0, now);
  }

  /** Recording tokens leaves room for the run's share of them. */
  lemma RunNeverOverflows(c: Core, before: nat, after: nat, now: real, delta: nat)
    requires Sound(c) && c.lastTime == Some(now) && RecordTokens(c, now, delta).Ok?
    ensures UpdateActiveRun(RecordTokens(c, now, delta).value, before, after, now, delta).Ok?
  {
    var k := Tick(now);
    var log := Then(c.log, Sample(k, delta, 0.0));
    TickMonotone(0.0, now);
    WindowTicks(now);
    WiderWindow(log, now, k, k, k - 120, k);
    assert Tokens(c.run, k, k) <= Tokens(c.log, k, k);
  }

  /** Tokens sampled at the clock's own tick come last. */
  lemma SampleComesLast(log: Log, now: real, delta: nat)
    requires Until(log, now) && delta > 0
    ensures NoTokensAfter(Then(log, Sample(Tick(now), delta, 0.0)))
  {
    forall first, last | Tick(now) < first
      ensures Tokens(Then(log, Sample(Tick(now), delta, 0.0)), first, last) == 0
    {
      if first <= last {
        NothingOutside(log, now, first, last);
      } else {
        NothingBackwards(log, first, last);
      }
    }
  }

  lemma SampledRunSound(c: Core, base: Log, after: nat, now: real, delta: nat)
    requires Sound(c) && c.lastTime == Some(now) && after <= c.maxRunning && delta > 0
    requires base == Blank || base == c.run
    requires RecordTokens(c, now, delta).Ok?
    ensures Sound(RecordTokens(c, now, delta).value.(run := Then(base, Sample(Tick(now), delta, 0.0)),
                                                     runHasTokens := true, active := after, observed := true))
  {
    TickMonotone(0.0, now);
    SampleComesLast(base, now, delta);
    var c2 := RecordTokens(c, now, delta).value;
    var run := Then(base, Sample(Tick(now), delta, 0.0));
    forall first, last ensures Tokens(run, first, last) <= Tokens(c2.log, first, last) {
      assert Tokens(c.run, first, last) <= Tokens(c.log, first, last);
    }
  }

  lemma UnsampledRunSound(c: Core, after: nat, now: real)
    requires Sound(c) && c.lastTime == Some(now) && after <= c.maxRunning
    ensures c.active > 0 || after == 0 ==> Sound(c.(active := after, observed := true))
    ensures Sound(c.(run := Blank, runHasTokens := false, active := after, observed := true))
  {
  }

  /** Recording in the aggregate and the run together keeps the invariant. */
  lemma RecordRunSound(c: Core, after: nat, now: real, delta: nat)
    requires Sound(c) && c.lastTime == Some(now) && after <= c.maxRunning
    requires RecordTokens(c, now, delta).Ok?
    ensures Record(c, now, delta, after).Ok? && Sound(Record(c, now, delta, after).value)
  {
    RunNeverOverflows(c, c.active, after, now, delta);
    RecordSound(c, now, delta);
    var c2 := RecordTokens(c, now, delta).value;
    if delta > 0 && (c.active > 0 || after > 0) {
      SampledRunSound(c, if c.active == 0 then Blank else c.run, after, now, delta);
    } else {
      UnsampledRunSound(c2, after, now);
    }
  }

  lemma {:induction false} NothingBackwards(log: Log, first: int, last: int)
    requires last < first
    ensures Tokens(log, first, last) == 0
  {
    if log.Then? {
      NothingBackwards(log.before, first, last);
    }
  }

  lemma ObserveSound(c: Core, now: real, delta: nat, after: nat)
    requires Sound(c) && Observe(c, now, delta, after).Ok?
    ensures Sound(Observe(c, now, delta, after).value)
  {
    AdvanceSound(c, now, !c.quarantined);
    RecordRunSound(Advance(c, now).value, after, now, delta);
  }

  lemma SurfaceSound(c: Core, now: real, delta: nat, seconds: real, key: Key)
    requires Sound(c) && c.lastTime == Some(now) && InSurface(key, c.maxRunning)
    requires ObserveCell(CellAt(c, key), now, delta, seconds).Ok?
    ensures Sound(c.(surface := c.surface[key := ObserveCell(CellAt(c, key), now, delta, seconds).value]))
  {
    ObserveCellSound(CellAt(c, key), now, now, delta, seconds);
  }

  lemma BatchSound(c: Core, now: real, delta: nat, seconds: real, key: Key, after: nat)
    requires Sound(c) && ObserveBatch(c, now, delta, seconds, key, after).Ok?
    ensures Sound(ObserveBatch(c, now, delta, seconds, key, after).value)
  {
    AdvanceSound(c, now, !c.quarantined);
    var c1 := Advance(c, now).value;
    SurfaceSound(c1, now, delta, seconds, key);
    var cell := ObserveCell(CellAt(c1, key), now, delta, seconds).value;
    RecordRunSound(c1.(surface := c1.surface[key := cell]), after, now, delta);
  }

  lemma ReplacementSound(c: Core, now: real, delta: nat, seconds: real, key: Key, after: nat)
    requires Sound(c) && ObserveReplacement(c, now, delta, seconds, key, after).Ok?
    ensures Sound(ObserveReplacement(c, now, delta, seconds, key, after).value)
  {
    if seconds > 0.0 {
      BatchSound(c, now, delta, seconds, key, after);
    } else {
      ObserveSound(c, now, 0, after);
    }
  }

  lemma {:induction false} ImportSound(cells: seq<ProfileCell>, maxRunning: nat)
    requires ImportCells(cells, maxRunning).Ok?
    ensures var prior := ImportCells(cells, maxRunning).value;
      forall key :: key in prior ==> prior[key].key == key && ValidProfileCell(prior[key], maxRunning)
  {
    if cells != [] {
      ImportSound(cells[..|cells| - 1], maxRunning);
    }
  }

  lemma NewSound(reference: real, maxRunning: nat)
    requires New(reference, maxRunning).Ok?
    ensures Sound(New(reference, maxRunning).value)
  {
  }

  lemma NewWithProfileSound(reference: real, maxRunning: nat, now: real, ttl: real, cells: seq<ProfileCell>)
    requires NewWithProfile(reference, maxRunning, now, ttl, cells).Ok?
    ensures Sound(NewWithProfile(reference, maxRunning, now, ttl, cells).value)
  {
    ImportSound(cells, maxRunning);
  }

  lemma QuarantineSound(c: Core, now: real, after: nat, enabled: bool)
    requires Sound(c) && Quarantine(c, now, after, enabled).Ok?
    ensures Sound(Quarantine(c, now, after, enabled).value)
  {
    AdvanceSound(c, now, false);
  }

  lemma ObserveSurfaceSound(c: Core, now: real, delta: nat, seconds: real, key: Key)
    requires Sound(c) && ObserveSurface(c, now, delta, seconds, key).Ok?
    ensures Sound(ObserveSurface(c, now, delta, seconds, key).value)
  {
    AdvanceSound(c, now, !c.quarantined);
    SurfaceSound(Advance(c, now).value, now, delta, seconds, key);
  }

  lemma ReadSound(c: Core, now: real)
    requires Sound(c) && Advance(c, now).Ok?
    ensures Sound(Advance(c, now).value)
    ensures forall until: real :: Sound(Advance(c, now).value.(preferenceUntil := until))
  {
    AdvanceSound(c, now, !c.quarantined);
  }

  lemma WriteSound(c: Core, op: Op)
    requires Sound(c)
    requires op.DoObserve? || op.DoQuarantine? || op.DoObserveSurface? || op.DoObserveBatch? || op.DoObserveReplacement?
    ensures Sound(Step(c, op).0)
  {
    if Step(c, op).1.Done? {
      match op
      case DoObserve(now, delta, after) => ObserveSound(c, now, delta, after);
      case DoQuarantine(now, after, enabled) => QuarantineSound(c, now, after, enabled);
      case DoObserveSurface(now, delta, seconds, key) => ObserveSurfaceSound(c, now, delta, seconds, key);
      case DoObserveBatch(now, delta, seconds, key, after) => BatchSound(c, now, delta, seconds, key, after);
      case DoObserveReplacement(now, delta, seconds, key, after) =>
        ReplacementSound(c, now, delta, seconds, key, after);
    }
  }

  lemma PrefillSound(c: Core, now: real, wall: real)
    requires Sound(c) && Prefill(c, now, wall).Ok?
    ensures Sound(Prefill(c, now, wall).value)
  {
    AdvanceSound(c, now, !c.quarantined);
  }

  lemma PolicySound(c: Core, op: Op)
    requires Sound(c) && (op.DoUpdateReference? || op.DoStartEpoch?)
    ensures Sound(Step(c, op).0)
  {
  }

  /** Every call, accepted or refused, keeps the invariant. */
  lemma StepSound(c: Core, op: Op)
    requires Sound(c)
    ensures Sound(Step(c, op).0)
  {
    if op.DoSnapshot? || op.DoAdmit? || op.DoExport? || op.DoChoose? {
      if ClockAccepts(c, op.now) {
        ReadSound(c, op.now);
      }
    } else if op.DoPrefill? {
      if Prefill(c, op.now, op.wall).Ok? { PrefillSound(c, op.now, op.wall); }
    } else if op.DoUpdateReference? || op.DoStartEpoch? {
      PolicySound(c, op);
    } else {
      WriteSound(c, op);
    }
  }

  lemma {:induction false} RunSound(c: Core, ops: seq<Op>)
    requires Sound(c)
    ensures Sound(Run(c, ops))
    decreases |ops|
  {
    if ops != [] {
      StepSound(c, ops[0]);
      RunSound(Step(c, ops[0]).0, ops[1..]);
    }
  }

  // ---------- What observations change, and what they leave alone ----------

  ghost predicate SamePolicy(c: Core, d: Core) {
    c.maxRunning == d.maxRunning && c.reference == d.reference && c.revision == d.revision &&
    c.quarantined == d.quarantined && c.prefillEnd == d.prefillEnd && c.prefillWall == d.prefillWall &&
    c.preferenceUntil == d.preferenceUntil && c.prior == d.prior && c.deadline == d.deadline
  }

  /** The clock now stands at `now`, and the aggregate holds the exposure up to it. */
  ghost predicate LogAdvanced(c: Core, now: real, log: Log) {
    log == if c.quarantined || c.lastTime.None? then c.log
           else Expose(c.log, c.lastTime.value, now, c.active)
  }

  lemma RecordEffect(c: Core, now: real, delta: nat, after: nat)
    requires Record(c, now, delta, after).Ok?
    ensures var c' := Record(c, now, delta, after).value;
      SamePolicy(c, c') && c'.surface == c.surface && c'.lastTime == c.lastTime && c'.active == after &&
      c'.log == Then(c.log, Sample(Tick(now), delta, 0.0))
  {
  }

  lemma ObserveEffect(c: Core, now: real, delta: nat, after: nat)
    requires Observe(c, now, delta, after).Ok?
    ensures var c' := Observe(c, now, delta, after).value;
      SamePolicy(c, c') && c'.surface == c.surface && c'.lastTime == Some(now) && c'.active == after &&
      c'.log.Then? && c'.log.entry == Sample(Tick(now), delta, 0.0) && LogAdvanced(c, now, c'.log.before)
  {
    RecordEffect(Advance(c, now).value, now, delta, after);
  }

  lemma BatchEffect(c: Core, now: real, delta: nat, seconds: real, key: Key, after: nat)
    requires ObserveBatch(c, now, delta, seconds, key, after).Ok?
    ensures var c' := ObserveBatch(c, now, delta, seconds, key, after).value;
      var cell := ObserveCell(CellAt(c, key), now, delta, seconds);
      SamePolicy(c, c') && cell.Ok? && c'.surface == c.surface[key := cell.value] &&
      c'.lastTime == Some(now) && c'.active == after && InSurface(key, c.maxRunning) &&
      c'.log.Then? && c'.log.entry == Sample(Tick(now), delta, 0.0) && LogAdvanced(c, now, c'.log.before)
  {
    var c1 := Advance(c, now).value;
    var cell := ObserveCell(CellAt(c1, key), now, delta, seconds).value;
    RecordEffect(c1.(surface := c1.surface[key := cell]), now, delta, after);
  }

  lemma ReplacementEffect(c: Core, now: real, delta: nat, seconds: real, key: Key, after: nat)
    requires ObserveReplacement(c, now, delta, seconds, key, after).Ok?
    ensures var c' := ObserveReplacement(c, now, delta, seconds, key, after).value;
      SamePolicy(c, c') && c'.lastTime == Some(now) && c'.active == after &&
      c'.log.Then? && c'.log.entry == Sample(Tick(now), delta, 0.0) && LogAdvanced(c, now, c'.log.before)
    ensures seconds > 0.0 ==>
      var cell := ObserveCell(CellAt(c, key), now, delta, seconds);
      cell.Ok? &&
      ObserveReplacement(c, now, delta, seconds, key, after).value.surface == c.surface[key := cell.value] &&
      InSurface(key, c.maxRunning)
    ensures seconds == 0.0 ==> ObserveReplacement(c, now, delta, seconds, key, after).value.surface == c.surface
  {
    if seconds > 0.0 {
      BatchEffect(c, now, delta, seconds, key, after);
    } else {
      ObserveEffect(c, now, 0, after);
    }
  }

  // ---------- Capacity ----------

  /** The most that ticks `first..last` can hold by time `t` with `max` sequences running. */
  function Ceiling(max: nat, t: real, first: int, last: int): real {
    max as real * Meet(0.0, t, Edge(first), Edge(last + 1))
  }

  /** The aggregate never charges more than `max` sequences at any instant up to `t`. */
  ghost predicate Paced(log: Log, t: real, max: nat) {
    forall first, last :: first <= last + 1 ==> Seconds(log, first, last) <= Ceiling(max, t, first, last)
  }

  ghost predicate PacedCore(c: Core) {
    Sound(c) && (match c.lastTime case None => true case Some(t) => Paced(c.log, t, c.maxRunning))
  }

  lemma ScaleMonotone(n: nat, m: nat, x: real)
    requires n <= m && x >= 0.0
    ensures n as real * x <= m as real * x
  {
    ScaleNonnegative(m - n, x);
    assert m as real * x == n as real * x + (m - n) as real * x;
  }

  lemma ScaleTogether(n: nat, m: nat, x: real, y: real, z: real)
    requires n <= m && x >= 0.0 && y >= 0.0 && x + y == z
    ensures m as real * x + n as real * y <= m as real * z
    ensures 0.0 <= m as real * x <= m as real * z
  {
    ScaleMonotone(n, m, y);
    ScaleSplits(m, x, y);
    ScaleNonnegative(m, x);
    ScaleNonnegative(m, y);
  }

  lemma CeilingRises(from: real, to: real, active: nat, max: nat, first: int, last: int)
    requires 0.0 <= from <= to && active <= max && first <= last + 1
    ensures Ceiling(max, from, first, last) + EntrySeconds(Exposed(from, to, active), first, last)
         <= Ceiling(max, to, first, last)
    ensures 0.0 <= Ceiling(max, from, first, last) <= Ceiling(max, to, first, last)
  {
    MeetJoins(0.0, from, to, Edge(first), Edge(last + 1));
    ScaleTogether(active, max, Meet(0.0, from, Edge(first), Edge(last + 1)),
                  Meet(from, to, Edge(first), Edge(last + 1)), Meet(0.0, to, Edge(first), Edge(last + 1)));
  }

  lemma WindowCeiling(max: nat, now: real)
    requires 0.0 <= now
    ensures Ceiling(max, now, Tick(now) - 120, Tick(now)) <= max as real * 60.5
  {
    TickBrackets(now);
    ScaleAtMost(max, Meet(0.0, now, Edge(Tick(now) - 120), Edge(Tick(now) + 1)), 60.5);
  }

  lemma ScaleAtMost(n: nat, x: real, y: real)
    requires x <= y
    ensures n as real * x <= n as real * y
  {
    ScaleNonnegative(n, y - x);
    assert n as real * y == n as real * x + n as real * (y - x);
  }

  lemma ExposePaced(log: Log, from: real, to: real, active: nat, max: nat)
    requires Until(log, from) && 0.0 <= from <= to && active <= max && Paced(log, from, max)
    ensures Paced(Expose(log, from, to, active), to, max) && Paced(log, to, max)
  {
    forall first, last | first <= last + 1
      ensures Seconds(Expose(log, from, to, active), first, last) <= Ceiling(max, to, first, last)
      ensures Seconds(log, first, last) <= Ceiling(max, to, first, last)
    {
      ExposeAdds(log, from, to, active, first, last);
      CeilingRises(from, to, active, max, first, last);
    }
  }

  lemma AdvancePaced(c: Core, now: real, log: Log)
    requires PacedCore(c) && ClockAccepts(c, now) && (LogAdvanced(c, now, log) || log == c.log)
    ensures Paced(log, now, c.maxRunning)
    ensures forall delta: nat :: Paced(Then(log, Sample(Tick(now), delta, 0.0)), now, c.maxRunning)
  {
    if c.lastTime.Some? {
      ExposePaced(c.log, c.lastTime.value, now, c.active, c.maxRunning);
    } else {
      BlankPaced(now, c.maxRunning);
    }
  }

  lemma BlankPaced(now: real, max: nat)
    requires 0.0 <= now
    ensures Paced(Blank, now, max)
  {
    forall first, last | first <= last + 1 ensures Seconds(Blank, first, last) <= Ceiling(max, now, first, last) {
      CeilingRises(0.0, now, 0, max, first, last);
    }
  }

  lemma ObservationPaced(c: Core, op: Op)
    requires PacedCore(c) && (op.DoObserve? || op.DoObserveBatch? || op.DoObserveReplacement?)
    ensures PacedCore(Step(c, op).0)
  {
    StepSound(c, op);
    if Step(c, op).1.Done? {
      match op {
        case DoObserve(now, delta, after) => ObserveEffect(c, now, delta, after);
        case DoObserveBatch(now, delta, seconds, key, after) => BatchEffect(c, now, delta, seconds, key, after);
        case DoObserveReplacement(now, delta, seconds, key, after) =>
          ReplacementEffect(c, now, delta, seconds, key, after);
      }
      AdvancePaced(c, op.now, Step(c, op).0.log.before);
    }
  }

  lemma StepPaced(c: Core, op: Op)
    requires PacedCore(c)
    ensures PacedCore(Step(c, op).0)
  {
    if op.DoObserve? || op.DoObserveBatch? || op.DoObserveReplacement? {
      ObservationPaced(c, op);
    } else {
      StepSound(c, op);
      if op.DoStartEpoch? {
        if op.now >= 0.0 { BlankPaced(op.now, c.maxRunning); }
      } else if !op.DoUpdateReference? && ClockAccepts(c, op.now) {
        AdvancePaced(c, op.now, Advance(c, op.now).value.log);
        AdvancePaced(c, op.now, c.log);
      }
    }
  }

  lemma {:induction false} RunPaced(c: Core, ops: seq<Op>)
    requires PacedCore(c)
    ensures PacedCore(Run(c, ops))
    decreases |ops|
  {
    if ops != [] {
      StepPaced(c, ops[0]);
      RunPaced(Step(c, ops[0]).0, ops[1..]);
    }
  }

  lemma WindowFits(log: Log, now: real, max: nat)
    requires Until(log, now) && Paced(log, now, max) && 0.0 <= now
    ensures 0.0 <= WindowSeconds(log, now, SHORT_WINDOW_SECONDS) <= WindowSeconds(log, now, WINDOW_SECONDS)
    ensures WindowSeconds(log, now, WINDOW_SECONDS) <= max as real * 60.5
  {
    WindowTicks(now);
    var last := Tick(now);
    WiderWindow(log, now, last - 4, last, last - 120, last);
    SecondsNonnegative(log, now, last - 4, last);
    WindowCeiling(max, now);
    assert Seconds(log, last - 120, last) <= Ceiling(max, now, last - 120, last);
  }

  /** A controller is paced from its creation, with or without a profile. */
  lemma NewPaced(reference: real, maxRunning: nat)
    requires New(reference, maxRunning).Ok?
    ensures PacedCore(New(reference, maxRunning).value)
  {
    NewSound(reference, maxRunning);
  }

  lemma NewWithProfilePaced(reference: real, maxRunning: nat, now: real, ttl: real, cells: seq<ProfileCell>)
    requires NewWithProfile(reference, maxRunning, now, ttl, cells).Ok?
    ensures PacedCore(NewWithProfile(reference, maxRunning, now, ttl, cells).value)
  {
    NewWithProfileSound(reference, maxRunning, now, ttl, cells);
    BlankPaced(now, maxRunning);
  }

  /** In every run the aggregate's 60 s window holds at most 60.5 s of every slot. */
  lemma WindowWithinCapacity(c0: Core, ops: seq<Op>, now: real)
    requires PacedCore(c0)
    ensures var r := Snapshot(Run(c0, ops), now);
      r.Ok? ==> 0.0 <= r.value.1.shortSeconds <= r.value.1.longSeconds <= c0.maxRunning as real * 60.5
  {
    hide Sound;
    RunPaced(c0, ops);
    var c := Run(c0, ops);
    SoundOf(c0);
    RunMax(c0, ops);
    if ClockAccepts(c, now) {
      StepPaced(c, DoSnapshot(now));
      SoundOf(Advance(c, now).value);
      WindowFits(Advance(c, now).value.log, now, c0.maxRunning);
    }
  }

  lemma SoundOf(c: Core)
    requires PacedCore(c)
    ensures Sound(c) && (c.lastTime.Some? ==> Until(c.log, c.lastTime.value) && 0.0 <= c.lastTime.value)
  {
  }

  lemma {:induction false} RunMax(c: Core, ops: seq<Op>)
    requires Sound(c)
    ensures Run(c, ops).maxRunning == c.maxRunning
    decreases |ops|
  {
    if ops != [] {
      StepMax(c, ops[0]);
      StepSound(c, ops[0]);
      RunMax(Step(c, ops[0]).0, ops[1..]);
    }
  }

  lemma StepMax(c: Core, op: Op)
    ensures Step(c, op).0.maxRunning == c.maxRunning
  {
    if Step(c, op).1.Done? {
      match op
      case DoObserve(now, delta, after) => ObserveEffect(c, now, delta, after);
      case DoObserveBatch(now, delta, seconds, key, after) => BatchEffect(c, now, delta, seconds, key, after);
      case DoObserveReplacement(now, delta, seconds, key, after) =>
        ReplacementEffect(c, now, delta, seconds, key, after);
      case _ =>
    }
  }
}
