/** The scheduler and its core together: the two sides agree in every reachable
    state, so the scheduler never breaks a precondition of the core. */
module Joint {
  import opened Wrappers
  import opened Ticks
  import opened Ledger
  import opened CoreSpec
  import opened CoreRuns
  import opened Scheduler
  import opened Ledgers

  // ---------- When the core accepts an observation ----------

  lemma AdvanceTokens(c: Core, now: real)
    requires Sound(c) && ClockAccepts(c, now)
    ensures forall first, last :: Tokens(Advance(c, now).value.log, first, last) == Tokens(c.log, first, last)
  {
    if c.lastTime.Some? {
      ExposeTokens(c.log, c.lastTime.value, now, c.active);
    }
  }

  lemma RecordAccepts(c: Core, now: real, delta: nat, after: nat)
    requires Sound(c) && c.lastTime == Some(now)
    ensures Record(c, now, delta, after).Ok? <==> WindowTokens(c.log, now, WINDOW_SECONDS) + delta < U64
  {
    WindowTicks(now);
    if RecordTokens(c, now, delta).Ok? {
      RunNeverOverflows(c, c.active, after, now, delta);
    }
  }

  lemma ObserveAccepts(c: Core, now: real, delta: nat, after: nat)
    requires Sound(c)
    ensures Observe(c, now, delta, after).Ok? <==>
      after <= c.maxRunning && ClockAccepts(c, now) && WindowTokens(c.log, now, WINDOW_SECONDS) + delta < U64
  {
    if ClockAccepts(c, now) {
      ReadSound(c, now);
      AdvanceTokens(c, now);
      RecordAccepts(Advance(c, now).value, now, delta, after);
    }
  }

  /** An observation without tokens is refused only for its count or the clock. */
  lemma SilentObserveAccepts(c: Core, now: real, after: nat)
    requires Sound(c)
    ensures Observe(c, now, 0, after).Ok? <==> after <= c.maxRunning && ClockAccepts(c, now)
  {
    ObserveAccepts(c, now, 0, after);
    if ClockAccepts(c, now) && c.lastTime.Some? {
      SafeLater(c.log, c.lastTime.value, now, WINDOW_SECONDS);
    }
  }

  /** Both the cell's and the aggregate's 60 s windows have room for `delta` more tokens. */
  ghost predicate RoomFor(c: Core, key: Key, now: real, delta: nat) {
    WindowTokens(CellAt(c, key).log, now, WINDOW_SECONDS) + delta < U64 &&
    WindowTokens(c.log, now, WINDOW_SECONDS) + delta < U64
  }

  lemma BatchAccepts(c: Core, now: real, delta: nat, seconds: real, key: Key, after: nat)
    requires Sound(c)
    ensures ObserveBatch(c, now, delta, seconds, key, after).Ok? <==>
      ChargeAccepted(c, delta, seconds, key) && after <= c.maxRunning && ClockAccepts(c, now) &&
      RoomFor(c, key, now, delta)
  {
    if ChargeAccepted(c, delta, seconds, key) && ClockAccepts(c, now) {
      ReadSound(c, now);
      AdvanceTokens(c, now);
      WindowTicks(now);
      var c1 := Advance(c, now).value;
      var cell := ObserveCell(CellAt(c1, key), now, delta, seconds);
      if cell.Ok? {
        SurfaceSound(c1, now, delta, seconds, key);
        RecordAccepts(c1.(surface := c1.surface[key := cell.value]), now, delta, after);
      }
    }
  }

  lemma ReplacementAccepts(c: Core, now: real, delta: nat, seconds: real, key: Key, after: nat)
    requires Sound(c) && c.active > 0 && key.concurrency == c.active && key.pressure < PRESSURE_CLASSES
    requires seconds >= 0.0 && (seconds == 0.0 ==> delta == 0)
    ensures ObserveReplacement(c, now, delta, seconds, key, after).Ok? <==>
      after <= c.maxRunning && ClockAccepts(c, now) && (seconds > 0.0 ==> RoomFor(c, key, now, delta))
  {
    if seconds > 0.0 {
      BatchAccepts(c, now, delta, seconds, key, after);
    } else {
      SilentObserveAccepts(c, now, after);
    }
  }

  // ---------- Agreement ----------

  ghost predicate PendingOk(g: Gov) {
    (g.active == 0 ==> g.pending == map[]) &&
    forall key :: key in g.pending ==> InSurface(key, g.nativeMax) && g.pending[key].tokens < U64
  }

  ghost predicate Linked(g: Gov) {
    Sound(g.core) && g.core.maxRunning == g.nativeMax && ValidLimits(g.nativeMax, g.maxRunning, g.maxWaiting) &&
    g.core.active == g.active && g.core.quarantined == g.dirty && (g.healthOutstanding > 0 ==> g.dirty) &&
    (g.surfaceTime.Some? ==> g.core.lastTime.Some? && g.surfaceTime.value <= g.core.lastTime.value) &&
    (g.active > 0 ==> g.surfaceTime.Some?) && PendingOk(g)
  }

  /** Everything the two layers keep, whatever the caller does. */
  ghost predicate Agreed(g: Gov) {
    Linked(g) && LedgerExact(g) && Tally(g)
  }

  /** What a read does to the core: the clock moves, nothing else that the scheduler relies on. */
  lemma ReadLinked(g: Gov, core: Core, now: real)
    requires Linked(g) && Sound(core) && ClockAccepts(g.core, now)
    requires core.maxRunning == g.core.maxRunning && core.active == g.core.active
    requires core.quarantined == g.core.quarantined && core.lastTime == Some(now)
    ensures Linked(g.(core := core))
  {
  }

  lemma AdvanceAgain(c: Core, now: real)
    requires c.lastTime == Some(now) && 0.0 <= now < MAX_CLOCK
    ensures Advance(c, now) == Ok(c)
  {
  }

  lemma BlockerNeverFails(g: Gov, core: Core, now: real, want: Key, waiting: Option<nat>)
    requires core.lastTime == Some(now) && 0.0 <= now < MAX_CLOCK && InSurface(want, core.maxRunning)
    ensures ExplorationBlocker(g, core, now, want, waiting).Ok?
  {
    AdvanceAgain(core, now);
  }

  lemma VerdictNeverFails(g: Gov, core: Core, now: real, want: Key, waiting: Option<nat>, health: bool, f: Forecast)
    requires core.lastTime == Some(now) && 0.0 <= now < MAX_CLOCK && InSurface(want, core.maxRunning)
    ensures Verdict(g, core, now, want, waiting, health, f).Ok?
  {
    BlockerNeverFails(g, core, now, want, waiting);
  }

  /** A verdict reads the scheduler's fields, and the core only where it is handed one. */
  lemma VerdictIgnoresCore(g: Gov, h: Gov, core: Core, now: real, want: Key, waiting: Option<nat>, health: bool,
                           forecast: Forecast)
    requires h == g.(core := h.core)
    ensures Verdict(g, core, now, want, waiting, health, forecast)
         == Verdict(h, core, now, want, waiting, health, forecast)
    ensures forall d: Decision :: Capped(g, health, d) == Capped(h, health, d)
  {
    hide Admit;
  }

  /** The core an accepted admission leaves: advanced, or quarantined for a health check. */
  function AdmittedCore(g: Gov, now: real, health: bool): Core
    requires ClockAccepts(g.core, now) && g.active <= g.core.maxRunning
  {
    if health then Quarantine(g.core, now, g.active, true).value else Advance(g.core, now).value
  }

  function Wanted(g: Gov, id: nat): Key
    requires id < |g.requests|
  {
    var cls := PressureClass(g.requests[id].input + g.requests[id].horizon);
    Key(Smaller(g.outstanding + 1, g.nativeMax), ProjectedClass(g, cls))
  }

  /** A fresh admission fails only on the clock, and then changes nothing; otherwise it
      advances the core and, if allowed, reserves. A health check is allowed exactly when
      it fits, and only an allowed one quarantines. */
  lemma AdmitFreshExact(g: Gov, id: nat, now: real, waiting: Option<nat>, health: bool)
    requires Linked(g) && id < |g.requests|
    ensures var (g', r) := AdmitFresh(g, id, now, waiting, health);
      (r.Ok? <==> ClockAccepts(g.core, now)) && (r.Err? ==> g' == g) &&
      (r.Ok? && !r.value.allowed ==> g' == g.(core := Advance(g.core, now).value)) &&
      (r.Ok? && r.value.allowed ==>
        g' == Reserve(g.(core := AdmittedCore(g, now, health)), id, now,
                      PressureClass(g.requests[id].input + g.requests[id].horizon), health, r.value)) &&
      (r.Ok? && health ==> (r.value.allowed <==> HealthFits(g, health, waiting)))
  {
    var want := Wanted(g, id);
    assert InSurface(want, g.core.maxRunning);
    if ClockAccepts(g.core, now) {
      var fits := HealthFits(g, health, waiting);
      var core := if fits then Quarantine(g.core, now, g.active, true).value else g.core;
      if fits {
        AdvanceAgain(core, now);
      }
      var core' := Advance(core, now).value;
      VerdictNeverFails(g, core', now, want, waiting, health, Decide(core', now, want));
      CoreReasons(core', now, want);
    }
  }

  lemma QuarantinedLinked(g: Gov, now: real)
    requires Linked(g) && ClockAccepts(g.core, now)
    ensures var core := Quarantine(g.core, now, g.active, true).value;
      Sound(core) && core.maxRunning == g.nativeMax && core.active == g.active && core.quarantined &&
      core.lastTime == Some(now) && core.log == g.core.log && core.surface == g.core.surface
  {
    QuarantineSound(g.core, now, g.active, true);
  }

  lemma ReserveLinked(g: Gov, id: nat, now: real, cls: Class, health: bool, d: Decision)
    requires Linked(g) && id < |g.requests| && !health
    ensures Linked(Reserve(g, id, now, cls, false, d))
  {
  }

  lemma ReserveHealthLinked(g: Gov, id: nat, now: real, cls: Class, d: Decision)
    requires Linked(g) && id < |g.requests| && ClockAccepts(g.core, now)
    ensures Linked(Reserve(g.(core := AdmittedCore(g, now, true)), id, now, cls, true, d))
  {
    QuarantinedLinked(g, now);
  }

  lemma AdmitLinked(g: Gov, id: nat, now: real, retracted: bool, waiting: Option<nat>, health: bool)
    requires Linked(g)
    ensures Linked(AdmitRequest(g, id, now, retracted, waiting, health).0)
  {
    hide AdmitFresh, Linked, Sound;
    var (g', r) := AdmitRequest(g, id, now, retracted, waiting, health);
    if g' != g {
      AdmitFreshExact(g, id, now, waiting, health);
      var cls := PressureClass(g.requests[id].input + g.requests[id].horizon);
      if r.Ok? && r.value.allowed && health {
        ReserveHealthLinked(g, id, now, cls, r.value);
      } else {
        ReadAdvanceLinked(g, now);
        if r.Ok? && r.value.allowed {
          ReserveLinked(g.(core := Advance(g.core, now).value), id, now, cls, health, r.value);
        }
      }
    }
  }

  lemma ReadAdvanceLinked(g: Gov, now: real)
    requires Linked(g) && ClockAccepts(g.core, now)
    ensures Linked(g.(core := Advance(g.core, now).value))
  {
    ReadSound(g.core, now);
    ReadLinked(g, Advance(g.core, now).value, now);
  }

  lemma ReserveSameTally(g: Gov, id: nat, now: real, cls: Class, health: bool, d: Decision)
    requires id < |g.requests|
    ensures SameTally(g, Reserve(g, id, now, cls, health, d))
  {
  }

  lemma AdmitTally(g: Gov, id: nat, now: real, retracted: bool, waiting: Option<nat>, health: bool)
    requires Tally(g)
    ensures var g' := AdmitRequest(g, id, now, retracted, waiting, health).0;
      SameTally(g, g') && Tally(g')
  {
    hide AdmitFresh, Tally, Reserve;
    var g' := AdmitRequest(g, id, now, retracted, waiting, health).0;
    if g' != g {
      AdmitFreshCases(g, id, now, waiting, health);
      if IsGrant(g, id, now, waiting, health, g') {
        var core: Core, cls: Class, d: Decision :| g' == Reserve(g.(core := core), id, now, cls, health, d);
        ReserveSameTally(g.(core := core), id, now, cls, health, d);
      }
    }
    SameTallyKept(g, g');
  }

  // ---------- Commits ----------

  lemma StartCellInSurface(g: Gov)
    requires Linked(g)
    ensures g.active <= g.nativeMax && (g.active > 0 ==> InSurface(StartCell(g), g.nativeMax))
  {
  }

  /** A settlement by its one observation: the whole running set leaves, ... */
  lemma SettleReplacement(g: Gov, b: Batch, now: real, after: nat, counts: Counts, seconds: real, retired: nat)
    requires b.enteringDelta <= b.total && ElapsedSince(g, now) >= 0.0 && FullReplacement(g, b)
    requires seconds == ElapsedSince(g, now) * g.active as real
    requires seconds > 0.0 ==> retired == b.total - b.enteringDelta + PendingAt(Unexpired(g.pending, now), StartCell(g))
    requires seconds <= 0.0 ==> retired == 0
    ensures var kept := if b.enteringDelta > 0 then map[Key(after, Heaviest(counts)) := Pending(b.enteringDelta, now)]
                        else map[];
      Settle(g, b, now, after, counts) ==
        if b.enteringDelta >= U64 then Err(Invalid)
        else Observed(ObserveReplacement(g.core, now, retired, seconds, StartCell(g), after), after, kept, retired)
  {
    hide ObserveReplacement, Unexpired, StartCell, FullReplacement, ElapsedSince;
  }

  /** ... some exposure is charged, ... */
  lemma SettleCharge(g: Gov, b: Batch, now: real, after: nat, counts: Counts, seconds: real, delta: nat)
    requires b.enteringDelta <= b.total && ElapsedSince(g, now) >= 0.0 && !FullReplacement(g, b) && g.active > 0
    requires seconds == ElapsedSince(g, now) * g.active as real && seconds > 0.0
    requires delta == b.total + PendingAt(Unexpired(g.pending, now), StartCell(g))
    ensures Settle(g, b, now, after, counts)
         == Observed(ObserveBatch(g.core, now, delta, seconds, StartCell(g), after), after,
                     Unexpired(g.pending, now) - {StartCell(g)}, delta)
  {
    hide ObserveBatch, Unexpired, StartCell, FullReplacement, ElapsedSince;
  }

  /** ... or there is none to charge, and the tokens wait. */
  lemma SettleSilent(g: Gov, b: Batch, now: real, after: nat, counts: Counts, base: map<Key, Pending>, cell: Key)
    requires b.enteringDelta <= b.total && ElapsedSince(g, now) >= 0.0 && !FullReplacement(g, b)
    requires g.active == 0 || ElapsedSince(g, now) * g.active as real <= 0.0
    requires base == if g.active == 0 then map[] else Unexpired(g.pending, now)
    requires cell == if g.active > 0 then StartCell(g) else Key(after, Heaviest(counts))
    ensures var stored := PendingAt(base, cell) + b.total;
      var waits := b.total > 0 && (g.active > 0 || after > 0);
      Settle(g, b, now, after, counts) ==
        if waits && stored >= U64 then Err(Invalid)
        else Observed(Observe(g.core, now, 0, after), after,
                      if waits then base[cell := Pending(stored, now)] else base, 0)
  {
    hide Observe, Unexpired, StartCell, FullReplacement, ElapsedSince;
  }

  /** The settlement an observation gives; nothing stays pending once Decode is idle. */
  function Observed(r: Result<Core>, after: nat, kept: map<Key, Pending>, delivered: nat): Result<Settlement> {
    match r
    case Err(e) => Err(e)
    case Ok(core) => Ok(Settlement(core, if after == 0 then map[] else kept, delivered))
  }

  /** A settled commit leaves a sound core, in step with the new count, and valid pending evidence. */
  lemma SettleLinked(g: Gov, b: Batch, now: real, after: nat, counts: Counts)
    requires Linked(g) && !g.dirty && b.enteringDelta <= b.total && Settle(g, b, now, after, counts).Ok?
    ensures var s := Settle(g, b, now, after, counts).value;
      Sound(s.core) && SamePolicy(g.core, s.core) && s.core.active == after && s.core.lastTime == Some(now) &&
      PendingOk(g.(active := after, pending := s.pending))
  {
    hide ObserveReplacement, ObserveBatch, Observe, Sound;
    StartCellInSurface(g);
    var seconds := ElapsedSince(g, now) * g.active as real;
    var live, start := Unexpired(g.pending, now), StartCell(g);
    if FullReplacement(g, b) {
      var retired := if seconds > 0.0 then b.total - b.enteringDelta + PendingAt(live, start) else 0;
      ReplacementSound(g.core, now, retired, seconds, start, after);
      ReplacementEffect(g.core, now, retired, seconds, start, after);
      AfterWithin(g.core, now, retired, seconds, start, after);
    } else if g.active > 0 && seconds > 0.0 {
      BatchSound(g.core, now, b.total + PendingAt(live, start), seconds, start, after);
      BatchEffect(g.core, now, b.total + PendingAt(live, start), seconds, start, after);
    } else {
      ObserveSound(g.core, now, 0, after);
      ObserveEffect(g.core, now, 0, after);
      ObservedAfter(g.core, now, 0, after);
    }
  }

  lemma AfterWithin(c: Core, now: real, delta: nat, seconds: real, key: Key, after: nat)
    requires ObserveReplacement(c, now, delta, seconds, key, after).Ok?
    ensures after <= c.maxRunning
  {
  }

  lemma ObservedAfter(c: Core, now: real, delta: nat, after: nat)
    requires Observe(c, now, delta, after).Ok?
    ensures after <= c.maxRunning
  {
  }

  lemma SurfaceTimeBefore(g: Gov, updates: seq<Update>, now: real, quarantine: bool)
    requires Linked(g) && CommitBatch(g, updates, now, quarantine).1.Ok?
    ensures g.surfaceTime.Some? ==> g.surfaceTime.value <= now
  {
    hide Propose;
  }

  lemma CommitLinked(g: Gov, updates: seq<Update>, now: real, quarantine: bool)
    requires Linked(g)
    ensures Linked(CommitBatch(g, updates, now, quarantine).0)
  {
    hide Propose, Settle, Sound;
    var (g', r) := CommitBatch(g, updates, now, quarantine);
    if r.Ok? {
      var b := Propose(g.requests, updates, now).value;
      var after := g.active + Sum4(b.entering) - Sum4(b.leaving);
      if Taints(g, quarantine) {
        QuarantineSound(g.core, now, after, g.healthOutstanding > 0);
      } else {
        SettleLinked(g, b, now, after, CountsAfter(g.activeCounts, b));
      }
    }
  }

  lemma CommitAgreed(g: Gov, updates: seq<Update>, now: real, quarantine: bool)
    requires Agreed(g)
    ensures Agreed(CommitBatch(g, updates, now, quarantine).0)
  {
    hide CommitBatch, Linked;
    CommitLinked(g, updates, now, quarantine);
    if CommitBatch(g, updates, now, quarantine).1.Ok? {
      SurfaceTimeBefore(g, updates, now, quarantine);
      CommitTally(g, updates, now, quarantine);
      SameLedgerKept(g, CommitBatch(g, updates, now, quarantine).0);
    } else {
      RefusedCommitKeeps(g, updates, now, quarantine);
    }
  }

  /** A refused commit changes neither side. */
  lemma RefusedCommitKeeps(g: Gov, updates: seq<Update>, now: real, quarantine: bool)
    requires CommitBatch(g, updates, now, quarantine).1.Err?
    ensures CommitBatch(g, updates, now, quarantine).0 == g
  {
    hide Propose, Settle, Quarantine;
  }

  /** The room a clean commit needs: in the cell it is charged to, or in pending evidence. */
  ghost predicate Fits(g: Gov, b: Batch, now: real, after: nat, counts: Counts)
    requires b.enteringDelta <= b.total
  {
    var seconds := ElapsedSince(g, now) * g.active as real;
    var live, start := Unexpired(g.pending, now), StartCell(g);
    if FullReplacement(g, b) then
      b.enteringDelta < U64 &&
      (seconds > 0.0 ==> RoomFor(g.core, start, now, b.total - b.enteringDelta + PendingAt(live, start)))
    else if g.active > 0 && seconds > 0.0 then RoomFor(g.core, start, now, b.total + PendingAt(live, start))
    else
      var stored := PendingAt(if g.active == 0 then map[] else live,
                              if g.active > 0 then start else Key(after, Heaviest(counts))) + b.total;
      b.total > 0 && (g.active > 0 || after > 0) ==> stored < U64
  }

  lemma SettleAccepts(g: Gov, b: Batch, now: real, after: nat, counts: Counts)
    requires Linked(g) && !g.dirty && b.enteringDelta <= b.total
    ensures Settle(g, b, now, after, counts).Ok? <==>
      ClockAccepts(g.core, now) && after <= g.nativeMax && Fits(g, b, now, after, counts)
  {
    hide Settle, Fits, Sound, PendingOk;
    var seconds := ElapsedSince(g, now) * g.active as real;
    if ElapsedSince(g, now) < 0.0 {
      EarlierRefused(g, b, now, after, counts);
    } else {
      ProductSign(ElapsedSince(g, now), g.active);
      if FullReplacement(g, b) {
        ReplacementFits(g, b, now, after, counts, seconds);
      } else if g.active > 0 && seconds > 0.0 {
        ChargeFits(g, b, now, after, counts, seconds);
      } else {
        SilentFits(g, b, now, after, counts);
      }
    }
  }

  lemma EarlierRefused(g: Gov, b: Batch, now: real, after: nat, counts: Counts)
    requires Linked(g) && b.enteringDelta <= b.total && ElapsedSince(g, now) < 0.0
    ensures Settle(g, b, now, after, counts).Err? && !ClockAccepts(g.core, now)
  {
    hide Sound, PendingOk;
  }

  lemma ReplacementFits(g: Gov, b: Batch, now: real, after: nat, counts: Counts, seconds: real)
    requires Linked(g) && b.enteringDelta <= b.total && ElapsedSince(g, now) >= 0.0 && FullReplacement(g, b)
    requires seconds == ElapsedSince(g, now) * g.active as real && seconds >= 0.0
    ensures Settle(g, b, now, after, counts).Ok? <==>
      ClockAccepts(g.core, now) && after <= g.nativeMax && Fits(g, b, now, after, counts)
  {
    hide Settle, Sound, PendingOk, ObserveReplacement, RoomFor, Unexpired, ElapsedSince, ClockAccepts;
    StartCellInSurface(g);
    var retired: nat := if seconds > 0.0
                        then b.total - b.enteringDelta + PendingAt(Unexpired(g.pending, now), StartCell(g)) else 0;
    SettleReplacement(g, b, now, after, counts, seconds, retired);
    ReplacementAccepts(g.core, now, retired, seconds, StartCell(g), after);
  }

  lemma ChargeFits(g: Gov, b: Batch, now: real, after: nat, counts: Counts, seconds: real)
    requires Linked(g) && b.enteringDelta <= b.total && ElapsedSince(g, now) >= 0.0 && !FullReplacement(g, b)
    requires seconds == ElapsedSince(g, now) * g.active as real && seconds > 0.0 && g.active > 0
    ensures Settle(g, b, now, after, counts).Ok? <==>
      ClockAccepts(g.core, now) && after <= g.nativeMax && Fits(g, b, now, after, counts)
  {
    hide Settle, Sound, PendingOk, ObserveBatch, RoomFor, Unexpired, ElapsedSince, ClockAccepts;
    StartCellInSurface(g);
    var delta := b.total + PendingAt(Unexpired(g.pending, now), StartCell(g));
    SettleCharge(g, b, now, after, counts, seconds, delta);
    BatchAccepts(g.core, now, delta, seconds, StartCell(g), after);
  }

  lemma SilentFits(g: Gov, b: Batch, now: real, after: nat, counts: Counts)
    requires Linked(g) && b.enteringDelta <= b.total && ElapsedSince(g, now) >= 0.0 && !FullReplacement(g, b)
    requires g.active == 0 || ElapsedSince(g, now) * g.active as real <= 0.0
    ensures Settle(g, b, now, after, counts).Ok? <==>
      ClockAccepts(g.core, now) && after <= g.nativeMax && Fits(g, b, now, after, counts)
  {
    hide Settle, Sound, PendingOk, Observe, Unexpired, ElapsedSince, ClockAccepts;
    var base := if g.active == 0 then map[] else Unexpired(g.pending, now);
    var cell := if g.active > 0 then StartCell(g) else Key(after, Heaviest(counts));
    SettleSilent(g, b, now, after, counts, base, cell);
    SilentObserveAccepts(g.core, now, after);
  }

  lemma ProductSign(x: real, n: nat)
    requires x >= 0.0
    ensures x * n as real >= 0.0
  {
  }

  /** A well-formed commit is refused only for the clock, the native capacity or u64 room:
      never for tokens without exposure, a replacement mismatch or an underflow. */
  lemma CommitRefusedOnlyFor(g: Gov, updates: seq<Update>, now: real, quarantine: bool)
    requires Agreed(g) && Propose(g.requests, updates, now).Ok?
    ensures var b := Propose(g.requests, updates, now).value;
      var after := g.active + Sum4(b.entering) - Sum4(b.leaving);
      after >= 0 &&
      (CommitBatch(g, updates, now, quarantine).1.Ok? <==>
        ClockAccepts(g.core, now) && after <= g.nativeMax &&
        (Taints(g, quarantine) || Fits(g, b, now, after, CountsAfter(g.activeCounts, b))))
  {
    hide Propose, Settle, Fits;
    ProposeFaithful(g.requests, updates, now, g.surfaceTime);
    var b := Propose(g.requests, updates, now).value;
    CountsExact(g, b, now);
    var after := g.active + Sum4(b.entering) - Sum4(b.leaving);
    if !Taints(g, quarantine) {
      SettleAccepts(g, b, now, after, CountsAfter(g.activeCounts, b));
    }
  }

  // ---------- Every step ----------

  lemma ReleaseAgreed(g: Gov, id: nat)
    requires Agreed(g)
    ensures Agreed(ReleaseRequest(g, id).0)
  {
    ReleaseExact(g, id);
    var g' := ReleaseRequest(g, id).0;
    SameTallyKept(g, g');
  }

  lemma IdleCounts(g: Gov)
    requires Tally(g) && g.active == 0
    ensures forall i :: 0 <= i < |g.requests| ==> !Decoding(g.requests[i])
  {
    TotalZero(DecodingW(), g.requests);
    forall i | 0 <= i < |g.requests| ensures !Decoding(g.requests[i]) {
      assert DecodingW()(g.requests[i]) == 0;
    }
  }

  lemma RotationSound(c: Core, now: real)
    requires Sound(c) && StartSurfaceEpoch(c, now, 0).Ok?
    ensures Sound(StartSurfaceEpoch(c, now, 0).value)
  {
  }

  lemma RefreshLinked(g: Gov, now: real, current: int)
    requires Linked(g) && LedgerExact(g)
    ensures Linked(RefreshIdentity(g, now, current).0)
  {
    if RefreshIdentity(g, now, current).1 == Ok(true) {
      hide Sound;
      RotationSound(g.core, now);
      HealthWithin(g);
    }
  }

  /** A drained ledger holds no health check. */
  lemma HealthWithin(g: Gov)
    requires LedgerExact(g)
    ensures g.outstanding == 0 ==> g.healthOutstanding == 0
  {
    if g.outstanding == 0 {
      TotalZero(HeldW(), g.requests);
      forall i | 0 <= i < |g.requests| ensures HealthW()(g.requests[i]) == 0 {
        assert HeldW()(g.requests[i]) == 0;
      }
      TotalOfZeros(HealthW(), g.requests);
    }
  }

  lemma {:induction false} TotalOfZeros(w: Weight, rs: seq<Request>)
    requires forall i :: 0 <= i < |rs| ==> w(rs[i]) == 0
    ensures Total(w, rs) == 0
  {
    if rs != [] {
      TotalOfZeros(w, rs[..|rs| - 1]);
    }
  }

  lemma RefreshTally(g: Gov, now: real, current: int)
    requires Tally(g)
    ensures Tally(RefreshIdentity(g, now, current).0)
  {
    var (g', r) := RefreshIdentity(g, now, current);
    if r == Ok(true) {
      IdleCounts(g);
    } else {
      SameTallyKept(g, g');
    }
  }

  lemma RefreshAgreed(g: Gov, now: real, current: int)
    requires Agreed(g)
    ensures Agreed(RefreshIdentity(g, now, current).0)
  {
    RefreshLinked(g, now, current);
    RefreshTally(g, now, current);
    SameLedgerKept(g, RefreshIdentity(g, now, current).0);
  }

  lemma ReferenceSound(c: Core, revision: nat, reference: real)
    requires Sound(c) && UpdateReference(c, revision, reference).Ok?
    ensures Sound(UpdateReference(c, revision, reference).value)
  {
  }

  lemma PolicyAgreed(g: Gov, epoch: nat, revision: nat, reference: Option<real>,
                     maxWaiting: Option<int>, maxRunning: Option<int>)
    requires Agreed(g)
    ensures Agreed(UpdatePolicy(g, epoch, revision, reference, maxWaiting, maxRunning).0)
  {
    hide Sound;
    var g' := UpdatePolicy(g, epoch, revision, reference, maxWaiting, maxRunning).0;
    if g' != g {
      ReferenceSound(g.core, revision, GetOr(reference, g.core.reference));
      SameLedgerKept(g, g');
      SameTallyKept(g, g');
    }
  }

  lemma AttachAgreed(g: Gov, id: nat)
    requires Agreed(g)
    ensures Agreed(AttachProgress(g, id).0)
  {
    var g' := AttachProgress(g, id).0;
    if g' != g {
      SameLedgerKept(g, g');
      var r := g'.requests[id];
      TotalUpdate(DecodingW(), g.requests, id, r);
      forall cls | 0 <= cls < 4 ensures g'.activeCounts[cls] == Total(DecodingIn(cls), g'.requests) {
        TotalUpdate(DecodingIn(cls), g.requests, id, r);
      }
    }
  }

  lemma ArriveAgreed(g: Gov, input: nat, horizon: nat)
    requires Agreed(g)
    ensures Agreed(Next(g, Arrive(input, horizon)))
  {
    var r := Request(input, horizon, None, None);
    TotalAppend(HeldW(), g.requests, r);
    TotalAppend(HealthW(), g.requests, r);
    TotalAppend(ProbeW(), g.requests, r);
    TotalAppend(DecodingW(), g.requests, r);
    forall cls | 0 <= cls < 4
      ensures Total(DecodingIn(cls), g.requests + [r]) == Total(DecodingIn(cls), g.requests)
      ensures Total(HeldIn(cls), g.requests + [r]) == Total(HeldIn(cls), g.requests)
    {
      TotalAppend(DecodingIn(cls), g.requests, r);
      TotalAppend(HeldIn(cls), g.requests, r);
    }
  }

  lemma SameCounters(g: Gov, core: Core)
    requires LedgerExact(g) && Tally(g)
    ensures LedgerExact(g.(core := core)) && Tally(g.(core := core))
  {
  }

  /** Prefill reports, preference queries and plain reads move the core's clock and no counter. */
  lemma CoreReadLinked(g: Gov, e: Event)
    requires Linked(g) && (e.ReadCall? || e.PrefillCall? || e.PreferCall?)
    ensures Linked(Next(g, e))
  {
    if e.PrefillCall? {
      if Prefill(g.core, e.now, e.wall).Ok? {
        PrefillSound(g.core, e.now, e.wall);
        PrefillLinked(g, e.now, e.wall);
      }
    } else if ClockAccepts(g.core, e.now) {
      ReadAdvanceLinked(g, e.now);
      if e.PreferCall? {
        PreferLinked(g, e.now, e.decode, e.prefill, e.age);
      }
    }
  }

  lemma PrefillLinked(g: Gov, now: real, wall: real)
    requires Linked(g) && Prefill(g.core, now, wall).Ok? && Sound(Prefill(g.core, now, wall).value)
    ensures Linked(g.(core := Prefill(g.core, now, wall).value))
  {
    hide Sound;
  }

  lemma PreferLinked(g: Gov, now: real, decode: bool, prefill: bool, age: real)
    requires Linked(g) && ClockAccepts(g.core, now)
    ensures Choose(g.core, now, decode, prefill, age).Ok? ==>
      Linked(g.(core := Choose(g.core, now, decode, prefill, age).value.0))
  {
    hide Sound, Duration, Weighs;
    ReadSound(g.core, now);
  }

  lemma CoreReadAgreed(g: Gov, e: Event)
    requires Agreed(g) && (e.ReadCall? || e.PrefillCall? || e.PreferCall?)
    ensures Agreed(Next(g, e))
  {
    CoreReadLinked(g, e);
    SameCounters(g, Next(g, e).core);
  }

  lemma AdmitAgreed(g: Gov, id: nat, now: real, retracted: bool, waiting: Option<nat>, health: bool)
    requires Agreed(g)
    ensures Agreed(AdmitRequest(g, id, now, retracted, waiting, health).0)
  {
    hide AdmitRequest, Linked, LedgerExact, Tally;
    AdmitLinked(g, id, now, retracted, waiting, health);
    AdmitTally(g, id, now, retracted, waiting, health);
    AdmitLedger(g, id, now, retracted, waiting, health);
  }

  /** Every call of every caller keeps the two layers in agreement. */
  lemma NextAgreed(g: Gov, e: Event)
    requires Agreed(g)
    ensures Agreed(Next(g, e))
  {
    hide Agreed, AdmitRequest, RefreshIdentity, UpdatePolicy, CommitBatch, ReleaseRequest, AttachProgress;
    hide ReadCore, PrefillCompleted, PreferDecode;
    match e
    case Arrive(input, horizon) => ArriveAgreed(g, input, horizon);
    case AdmitCall(id, now, current, retracted, waiting, health) =>
      RefreshAgreed(g, now, current);
      AdmitAgreed(RefreshIdentity(g, now, current).0, id, now, retracted, waiting, health);
    case ReleaseCall(id) => ReleaseAgreed(g, id);
    case PolicyCall(now, current, epoch, revision, reference, maxWaiting, maxRunning) =>
      RefreshAgreed(g, now, current);
      PolicyAgreed(RefreshIdentity(g, now, current).0, epoch, revision, reference, maxWaiting, maxRunning);
    case RefreshCall(now, current) => RefreshAgreed(g, now, current);
    case AttachCall(id) => AttachAgreed(g, id);
    case CommitCall(updates, now, quarantine) => CommitAgreed(g, updates, now, quarantine);
    case ReadCall(now) => CoreReadAgreed(g, e);
    case PrefillCall(now, wall) => CoreReadAgreed(g, e);
    case PreferCall(now, decode, prefill, age) => CoreReadAgreed(g, e);
  }

  lemma OpenAgreed(core: Core, nativeMax: nat, maxRunning: nat, maxWaiting: nat, exploring: bool, identity: int)
    requires Sound(core) && core.maxRunning == nativeMax && core.active == 0 && !core.quarantined
    requires Open(core, nativeMax, maxRunning, maxWaiting, exploring, identity).Ok?
    ensures Agreed(Open(core, nativeMax, maxRunning, maxWaiting, exploring, identity).value)
  {
  }

  /** In every run: counts, flags and clocks agree, and no ledger counter ever drifts. */
  lemma {:induction false} RunAgreed(g: Gov, events: seq<Event>)
    requires Agreed(g)
    ensures Agreed(Play(g, events))
    decreases |events|
  {
    hide Agreed, Next;
    if events != [] {
      NextAgreed(g, events[0]);
      RunAgreed(Next(g, events[0]), events[1..]);
    }
  }
}
