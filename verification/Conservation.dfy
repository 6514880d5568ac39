/** Conservation over whole runs: no token is counted twice or invented, and every
    clean sequence-second reaches the surface exactly once. */
module Conservation {
  import opened Wrappers
  import opened Ticks
  import opened Ledger
  import opened CoreSpec
  import opened CoreRuns
  import opened Scheduler
  import opened Ledgers
  import opened Joint
  import Forecasts

  // ---------- Whole-log and whole-surface totals ----------

  ghost function AllTokens(log: Log): nat {
    match log
    case Blank => 0
    case Then(before, e) => AllTokens(before) + (if e.Sample? then e.tokens else 0)
  }

  /** Lump samples plus the integral of the active count over every clean span. */
  ghost function AllSeconds(log: Log): real {
    match log
    case Blank => 0.0
    case Then(before, e) => AllSeconds(before) + Mass(e)
  }

  ghost function Mass(e: Entry): real {
    match e
    case Sample(_, _, s) => s
    case Exposed(a, b, n) => n as real * (b - a)
  }

  ghost function SurfaceTokens(s: map<Key, Cell>, n: nat): nat {
    if n == 0 then 0
    else SurfaceTokens(s, n - 1) + (if KeyAt(n - 1) in s then AllTokens(s[KeyAt(n - 1)].log) else 0)
  }

  ghost function SurfaceSeconds(s: map<Key, Cell>, n: nat): real {
    if n == 0 then 0.0
    else SurfaceSeconds(s, n - 1) + (if KeyAt(n - 1) in s then AllSeconds(s[KeyAt(n - 1)].log) else 0.0)
  }

  ghost function PendingSum(p: map<Key, Pending>, n: nat): nat {
    if n == 0 then 0 else PendingSum(p, n - 1) + PendingAt(p, KeyAt(n - 1))
  }

  function Size(max: nat): nat {
    PRESSURE_CLASSES * max
  }

  lemma ExposeMass(log: Log, from: real, to: real, active: nat)
    requires from <= to
    ensures AllSeconds(Expose(log, from, to, active)) == AllSeconds(log) + active as real * (to - from)
    ensures AllTokens(Expose(log, from, to, active)) == AllTokens(log)
  {
    hide Mass;
    var e := Exposed(from, to, active);
    SpanMass(from, to, active);
    if active == 0 || to <= from {
    } else if log.Then? && log.entry.Exposed? && log.entry.to == from && log.entry.active == active {
      JoinedMass(log.entry.from, from, to, active);
    } else {
      assert AllSeconds(Then(log, e)) == AllSeconds(log) + Mass(e);
    }
  }

  lemma SpanMass(from: real, to: real, active: nat)
    requires from <= to
    ensures Mass(Exposed(from, to, active)) == active as real * (to - from)
    ensures active == 0 || to <= from ==> active as real * (to - from) == 0.0
  {
  }

  lemma JoinedMass(since: real, from: real, to: real, active: nat)
    ensures Mass(Exposed(since, to, active)) == Mass(Exposed(since, from, active)) + Mass(Exposed(from, to, active))
  {
    ScaleSplits(active, from - since, to - from);
    assert (from - since) + (to - from) == to - since;
  }

  lemma KeyPlace(i: nat, key: Key)
    requires key.concurrency > 0 && key.pressure < PRESSURE_CLASSES
    ensures KeyAt(i) == key <==> i == Place(key)
  {
  }

  /** Charging one cell adds its sample to the surface totals, once. */
  lemma {:induction false} SurfacePut(s: map<Key, Cell>, n: nat, key: Key, cell: Cell)
    requires key.concurrency > 0 && key.pressure < PRESSURE_CLASSES
    ensures SurfaceTokens(s[key := cell], n) == SurfaceTokens(s, n) +
      (if Place(key) < n then AllTokens(cell.log) - (if key in s then AllTokens(s[key].log) else 0) else 0)
    ensures SurfaceSeconds(s[key := cell], n) == SurfaceSeconds(s, n) +
      (if Place(key) < n then AllSeconds(cell.log) - (if key in s then AllSeconds(s[key].log) else 0.0) else 0.0)
  {
    if n > 0 {
      SurfacePut(s, n - 1, key, cell);
      KeyPlace(n - 1, key);
    }
  }

  lemma {:induction false} PendingPut(p: map<Key, Pending>, n: nat, key: Key, v: Pending)
    requires key.concurrency > 0 && key.pressure < PRESSURE_CLASSES
    ensures PendingSum(p[key := v], n) == PendingSum(p, n) +
      (if Place(key) < n then v.tokens - PendingAt(p, key) else 0)
    ensures PendingSum(p - {key}, n) == PendingSum(p, n) - (if Place(key) < n then PendingAt(p, key) else 0)
  {
    if n > 0 {
      PendingPut(p, n - 1, key, v);
      KeyPlace(n - 1, key);
    }
  }

  lemma {:induction false} PendingNone(n: nat)
    ensures PendingSum(map[], n) == 0
  {
    if n > 0 {
      PendingNone(n - 1);
    }
  }

  lemma {:induction false} ExpiryOnlyDrops(p: map<Key, Pending>, now: real, n: nat)
    ensures PendingSum(Unexpired(p, now), n) <= PendingSum(p, n)
  {
    if n > 0 {
      ExpiryOnlyDrops(p, now, n - 1);
    }
  }

  // ---------- One commit ----------

  /** What a clean commit discards: expired evidence, evidence of an ended run that no
      charge collects, and tokens that meet no exposure when their run ends. */
  ghost function SettleDrops(g: Gov, b: Batch, now: real, after: nat): int {
    var n := Size(g.nativeMax);
    var seconds := ElapsedSince(g, now) * g.active as real;
    var all, live := PendingSum(g.pending, n), PendingSum(Unexpired(g.pending, now), n);
    var here := PendingAt(Unexpired(g.pending, now), StartCell(g));
    if FullReplacement(g, b) then
      if seconds > 0.0 then all - here else all + b.total - b.enteringDelta
    else if g.active > 0 && seconds > 0.0 then
      all - live + (if after == 0 then live - here else 0)
    else if g.active == 0 then all + (if after == 0 then b.total else 0)
    else all - live + (if after == 0 then live + b.total else 0)
  }

  /** A batch of entrants leaves someone active. */
  lemma {:induction false} EntrantsCounted(rs: seq<Request>, updates: seq<Update>, now: real)
    requires Propose(rs, updates, now).Ok?
    ensures var b := Propose(rs, updates, now).value;
      (forall i :: 0 <= i < 4 ==> b.entering[i] >= 0 && b.leaving[i] >= 0) &&
      (b.enteringDelta > 0 ==> Sum4(b.entering) > 0) &&
      (forall i :: i in b.seen ==> exists j :: 0 <= j < |updates| && updates[j].id == i)
  {
    if updates != [] {
      EntrantsCounted(rs, updates[..|updates| - 1], now);
    }
  }

  lemma SettleBalances(g: Gov, b: Batch, now: real, after: nat, counts: Counts)
    requires Linked(g) && b.enteringDelta <= b.total && Settle(g, b, now, after, counts).Ok?
    requires after == g.active + Sum4(b.entering) - Sum4(b.leaving)
    requires b.enteringDelta > 0 ==> Sum4(b.entering) > 0
    ensures var s := Settle(g, b, now, after, counts).value;
      var n := Size(g.nativeMax);
      PendingSum(s.pending, n) + s.delivered + SettleDrops(g, b, now, after) == PendingSum(g.pending, n) + b.total
  {
    hide ObserveReplacement, ObserveBatch, Observe, Sound;
    var n := Size(g.nativeMax);
    var live, start := Unexpired(g.pending, now), StartCell(g);
    var seconds := ElapsedSince(g, now) * g.active as real;
    PendingNone(n);
    AfterWithinMax(g, b, now, after, counts);
    StartCellInSurface(g);
    if FullReplacement(g, b) {
      if b.enteringDelta > 0 {
        var cell := Key(after, Heaviest(counts));
        Forecasts.PlaceOf(cell, g.nativeMax);
        PendingPut(map[], n, cell, Pending(b.enteringDelta, now));
      }
    } else if g.active > 0 {
      Forecasts.PlaceOf(start, g.nativeMax);
      PendingPut(live, n, start, Pending(PendingAt(live, start) + b.total, now));
    } else if after > 0 {
      var cell := Key(after, Heaviest(counts));
      Forecasts.PlaceOf(cell, g.nativeMax);
      PendingPut(map[], n, cell, Pending(b.total, now));
    }
  }

  lemma AfterWithinMax(g: Gov, b: Batch, now: real, after: nat, counts: Counts)
    requires Linked(g) && b.enteringDelta <= b.total && Settle(g, b, now, after, counts).Ok?
    ensures after <= g.nativeMax
  {
  }

  /** What a clean commit writes: one sample in the batch-start cell, one in the aggregate. */
  lemma SettleCharges(g: Gov, b: Batch, now: real, after: nat, counts: Counts)
    requires Linked(g) && !g.dirty && b.enteringDelta <= b.total && Settle(g, b, now, after, counts).Ok?
    ensures var s := Settle(g, b, now, after, counts).value;
      var seconds := ElapsedSince(g, now) * g.active as real;
      s.core.log.Then? && s.core.log.entry == Sample(Tick(now), s.delivered, 0.0) &&
      LogAdvanced(g.core, now, s.core.log.before) &&
      (if seconds > 0.0 then
         InSurface(StartCell(g), g.nativeMax) &&
         var cell := ObserveCell(CellAt(g.core, StartCell(g)), now, s.delivered, seconds);
         cell.Ok? && s.core.surface == g.core.surface[StartCell(g) := cell.value]
       else s.delivered == 0 && s.core.surface == g.core.surface)
  {
    hide ObserveReplacement, ObserveBatch, Observe, Sound, ObserveCell;
    var seconds := ElapsedSince(g, now) * g.active as real;
    ProductSign(ElapsedSince(g, now), g.active);
    var live, start := Unexpired(g.pending, now), StartCell(g);
    if FullReplacement(g, b) {
      ReplacementEffect(g.core, now, if seconds > 0.0 then b.total - b.enteringDelta + PendingAt(live, start) else 0,
                        seconds, start, after);
    } else if g.active > 0 && seconds > 0.0 {
      BatchEffect(g.core, now, b.total + PendingAt(live, start), seconds, start, after);
    } else {
      ObserveEffect(g.core, now, 0, after);
    }
  }

  // ---------- Invariants of the epoch's accounts ----------

  /** The aggregate and the surface hold the same tokens. */
  ghost predicate TokensMatch(c: Core) {
    AllTokens(c.log) == SurfaceTokens(c.surface, Size(c.maxRunning))
  }

  /** Exposure the aggregate has and the surface will never get: reads taken before a
      quarantine charged it, and the quarantine dropped the commit that would have. */
  ghost function Gap(g: Gov): real {
    AllSeconds(g.core.log) - SurfaceSeconds(g.core.surface, Size(g.nativeMax)) - Owed(g)
  }

  /** Exposure already in the aggregate that the next clean commit will charge. */
  ghost function Owed(g: Gov): real {
    if g.dirty || g.surfaceTime.None? || g.core.lastTime.None? then 0.0
    else g.active as real * (g.core.lastTime.value - g.surfaceTime.value)
  }

  lemma CellSample(cell: Cell, now: real, delta: nat, seconds: real)
    requires ObserveCell(cell, now, delta, seconds).Ok?
    ensures var cell' := ObserveCell(cell, now, delta, seconds).value;
      AllTokens(cell'.log) == AllTokens(cell.log) + delta && AllSeconds(cell'.log) == AllSeconds(cell.log) + seconds
  {
  }

  lemma SettleSurface(g: Gov, b: Batch, now: real, after: nat, counts: Counts)
    requires Linked(g) && !g.dirty && b.enteringDelta <= b.total && Settle(g, b, now, after, counts).Ok?
    ensures var s := Settle(g, b, now, after, counts).value;
      var n := Size(g.nativeMax);
      SurfaceTokens(s.core.surface, n) == SurfaceTokens(g.core.surface, n) + s.delivered &&
      SurfaceSeconds(s.core.surface, n)
        == SurfaceSeconds(g.core.surface, n) + ElapsedSince(g, now) * g.active as real
  {
    hide Settle, Sound, ObserveCell;
    SettleCharges(g, b, now, after, counts);
    var s := Settle(g, b, now, after, counts).value;
    var seconds := ElapsedSince(g, now) * g.active as real;
    SettleElapsed(g, b, now, after, counts);
    ProductSign(ElapsedSince(g, now), g.active);
    if seconds > 0.0 {
      var start := StartCell(g);
      var cell := ObserveCell(CellAt(g.core, start), now, s.delivered, seconds).value;
      CellSample(CellAt(g.core, start), now, s.delivered, seconds);
      Forecasts.PlaceOf(start, g.nativeMax);
      SurfacePut(g.core.surface, Size(g.nativeMax), start, cell);
    }
  }

  lemma SettleElapsed(g: Gov, b: Batch, now: real, after: nat, counts: Counts)
    requires b.enteringDelta <= b.total && Settle(g, b, now, after, counts).Ok?
    ensures ElapsedSince(g, now) >= 0.0
  {
  }

  lemma AggregateGains(c: Core, now: real, log: Log)
    requires Sound(c) && ClockAccepts(c, now) && LogAdvanced(c, now, log)
    ensures AllTokens(log) == AllTokens(c.log)
    ensures AllSeconds(log) == AllSeconds(c.log) +
      (if c.quarantined || c.lastTime.None? then 0.0 else c.active as real * (now - c.lastTime.value))
  {
    hide Sound, Expose, AllTokens, AllSeconds;
    if c.lastTime.Some? {
      ExposeMass(c.log, c.lastTime.value, now, c.active);
    }
  }

  lemma SettleClock(g: Gov, b: Batch, now: real, after: nat, counts: Counts)
    requires Linked(g) && !g.dirty && b.enteringDelta <= b.total && Settle(g, b, now, after, counts).Ok?
    ensures ClockAccepts(g.core, now) && ElapsedSince(g, now) >= 0.0
  {
    SettleAccepts(g, b, now, after, counts);
  }

  lemma ExposureSplit(active: nat, st: real, last: real, now: real)
    ensures active as real * (now - last) + active as real * (last - st) == (now - st) * active as real
  {
    ScaleSplits(active, now - last, last - st);
  }

  lemma OwedThrough(g: Gov, now: real)
    requires Linked(g) && !g.dirty
    ensures (if g.core.lastTime.None? then 0.0 else g.active as real * (now - g.core.lastTime.value)) + Owed(g)
         == ElapsedSince(g, now) * g.active as real
  {
    hide Sound;
    if g.surfaceTime.Some? {
      ExposureSplit(g.active, g.surfaceTime.value, g.core.lastTime.value, now);
    }
  }

  /** A clean commit moves its tokens to both accounts, and leaves no exposure behind. */
  lemma SettleAccounts(g: Gov, b: Batch, now: real, after: nat, counts: Counts)
    requires Linked(g) && !g.dirty && b.enteringDelta <= b.total && Settle(g, b, now, after, counts).Ok?
    ensures var s := Settle(g, b, now, after, counts).value;
      var n := Size(g.nativeMax);
      AllTokens(s.core.log) == AllTokens(g.core.log) + s.delivered &&
      SurfaceTokens(s.core.surface, n) == SurfaceTokens(g.core.surface, n) + s.delivered &&
      AllSeconds(s.core.log) - SurfaceSeconds(s.core.surface, n) == Gap(g)
  {
    hide Settle, Sound, Owed, ElapsedSince, ObserveCell, LogAdvanced, StartCell;
    var s := Settle(g, b, now, after, counts).value;
    SettleClock(g, b, now, after, counts);
    SettleCharges(g, b, now, after, counts);
    SettleSurface(g, b, now, after, counts);
    AggregateGains(g.core, now, s.core.log.before);
    OwedThrough(g, now);
  }

  // ---------- Traces ----------

  /** A run with its history: tokens handed to the core, tokens discarded, tokens handed
      over before the current epoch, and the times probes started. */
  datatype Trace = Trace(g: Gov, delivered: nat, dropped: int, base: nat, starts: seq<real>)

  /** The settlement of a clean commit, where there is one. */
  ghost function Settled(g: Gov, updates: seq<Update>, now: real, quarantine: bool): Result<Settlement> {
    var b :- Propose(g.requests, updates, now);
    var after := g.active + Sum4(b.entering) - Sum4(b.leaving);
    if after < 0 || Taints(g, quarantine) then Err(Internal)
    else Settle(g, b, now, after, CountsAfter(g.activeCounts, b))
  }

  ghost function CommitDrops(g: Gov, updates: seq<Update>, now: real, quarantine: bool): int {
    match Propose(g.requests, updates, now)
    case Err(_) => 0
    case Ok(b) =>
      var after := g.active + Sum4(b.entering) - Sum4(b.leaving);
      if after < 0 then 0
      else if Taints(g, quarantine) then b.total + PendingSum(g.pending, Size(g.nativeMax))
      else SettleDrops(g, b, now, after)
  }

  ghost function Delivered(g: Gov, e: Event): nat {
    if e.CommitCall? && CommitBatch(g, e.updates, e.now, e.quarantine).1.Ok? &&
       Settled(g, e.updates, e.now, e.quarantine).Ok?
    then Settled(g, e.updates, e.now, e.quarantine).value.delivered else 0
  }

  ghost function Dropped(g: Gov, e: Event): int {
    if e.CommitCall? then
      if CommitBatch(g, e.updates, e.now, e.quarantine).1.Ok? then CommitDrops(g, e.updates, e.now, e.quarantine) else 0
    else if Next(g, e).healthOutstanding > g.healthOutstanding then PendingSum(g.pending, Size(g.nativeMax))
    else 0
  }

  function TimeOf(e: Event): real {
    match e
    case Arrive(_, _) => 0.0
    case ReleaseCall(_) => 0.0
    case AttachCall(_) => 0.0
    case _ => e.now
  }

  ghost function TNext(tr: Trace, e: Event): Trace {
    var g' := Next(tr.g, e);
    var delivered := tr.delivered + Delivered(tr.g, e);
    Trace(g', delivered, tr.dropped + Dropped(tr.g, e), if g'.epoch != tr.g.epoch then delivered else tr.base,
          if !tr.g.explorationActive && g'.explorationActive then tr.starts + [TimeOf(e)] else tr.starts)
  }

  ghost function TPlay(tr: Trace, events: seq<Event>): Trace
    decreases |events|
  {
    if events == [] then tr else TPlay(TNext(tr, events[0]), events[1..])
  }

  lemma NextOfTrace(tr: Trace, e: Event)
    ensures TNext(tr, e).g == Next(tr.g, e)
  {
  }

  lemma {:induction false} PlayOfTrace(tr: Trace, events: seq<Event>)
    ensures TPlay(tr, events).g == Play(tr.g, events)
    decreases |events|
  {
    hide Next, TNext;
    if events != [] {
      NextOfTrace(tr, events[0]);
      PlayOfTrace(TNext(tr, events[0]), events[1..]);
    }
  }

  ghost function Begin(g: Gov): Trace {
    Trace(g, 0, 0, 0, [])
  }

  /** Tokens: delivered + pending + discarded is everything earned; the epoch's two
      accounts hold exactly what this epoch was handed. Exposure: the surface never
      exceeds the aggregate. */
  ghost predicate Conserved(tr: Trace) {
    var g := tr.g;
    Agreed(g) && tr.dropped >= 0 && tr.base <= tr.delivered &&
    tr.delivered + PendingSum(g.pending, Size(g.nativeMax)) + tr.dropped == Total(EarnedW(), g.requests) &&
    AllTokens(g.core.log) == tr.delivered - tr.base && TokensMatch(g.core) && Gap(g) >= 0.0
  }

  lemma OwedNonnegative(g: Gov)
    requires Linked(g)
    ensures Owed(g) >= 0.0
  {
    if g.surfaceTime.Some? {
      ScaleNonnegative(g.active, g.core.lastTime.value - g.surfaceTime.value);
    }
  }

  /** The parts of a state that conservation speaks of. */
  ghost predicate SameAccounts(g: Gov, h: Gov) {
    g.nativeMax == h.nativeMax && g.pending == h.pending && g.epoch == h.epoch &&
    Total(EarnedW(), g.requests) == Total(EarnedW(), h.requests) &&
    AllTokens(g.core.log) == AllTokens(h.core.log) && g.core.surface == h.core.surface &&
    g.core.maxRunning == h.core.maxRunning && Gap(g) == Gap(h)
  }

  lemma MovedAccounts(g: Gov, core: Core, now: real)
    requires Linked(g) && ClockAccepts(g.core, now) && LogAdvanced(g.core, now, core.log)
    requires core.surface == g.core.surface && core.lastTime == Some(now) && core.maxRunning == g.core.maxRunning
    ensures SameAccounts(g, g.(core := core))
  {
    hide Sound;
    AggregateGains(g.core, now, core.log);
    if g.surfaceTime.Some? {
      var st, last := g.surfaceTime.value, g.core.lastTime.value;
      ScaleSplits(g.active, last - st, now - last);
    }
  }

  lemma PrefillMoves(g: Gov, now: real, wall: real)
    requires Linked(g) && Prefill(g.core, now, wall).Ok?
    ensures SameAccounts(g, g.(core := Prefill(g.core, now, wall).value))
  {
    hide Linked, Sound, Gap;
    MovedAccounts(g, Prefill(g.core, now, wall).value, now);
  }

  lemma ChooseMoves(g: Gov, now: real, decode: bool, prefill: bool, age: real)
    requires Linked(g) && Choose(g.core, now, decode, prefill, age).Ok?
    ensures SameAccounts(g, g.(core := Choose(g.core, now, decode, prefill, age).value.0))
  {
    hide Linked, Sound, Gap, Duration, Weighs, ViewAt;
    MovedAccounts(g, Choose(g.core, now, decode, prefill, age).value.0, now);
  }

  lemma AdvanceMoves(g: Gov, now: real)
    requires Linked(g) && ClockAccepts(g.core, now)
    ensures SameAccounts(g, g.(core := Advance(g.core, now).value))
  {
    hide Linked, Sound, Gap;
    MovedAccounts(g, Advance(g.core, now).value, now);
  }

  lemma ReadAccounts(g: Gov, e: Event)
    requires Linked(g) && (e.ReadCall? || e.PrefillCall? || e.PreferCall?)
    ensures SameAccounts(g, Next(g, e))
  {
    hide Linked, Sound, SameAccounts, Prefill, Choose;
    SameAsSelf(g);
    if e.PrefillCall? {
      if Prefill(g.core, e.now, e.wall).Ok? { PrefillMoves(g, e.now, e.wall); }
    } else if e.PreferCall? {
      if Choose(g.core, e.now, e.decode, e.prefill, e.age).Ok? { ChooseMoves(g, e.now, e.decode, e.prefill, e.age); }
    } else if ClockAccepts(g.core, e.now) {
      AdvanceMoves(g, e.now);
    }
  }

  lemma SameAsSelf(g: Gov)
    ensures SameAccounts(g, g)
  {
  }

  /** A health admission drops pending evidence and the exposure still owed. */
  lemma HealthReserveAccounts(g: Gov, id: nat, now: real, cls: Class, d: Decision)
    requires Linked(g) && ClockAccepts(g.core, now) && id < |g.requests|
    requires g.active <= g.core.maxRunning
    ensures var g' := Reserve(g.(core := AdmittedCore(g, now, true)), id, now, cls, true, d);
      g'.pending == map[] && Gap(g') == Gap(g) + Owed(g) && g'.core.log == g.core.log &&
      g'.core.surface == g.core.surface && g'.core.maxRunning == g.core.maxRunning && g'.nativeMax == g.nativeMax &&
      g'.epoch == g.epoch && g'.healthOutstanding == g.healthOutstanding + 1
  {
    hide Sound;
    StartCellInSurface(g);
  }

  lemma ReserveAccounts(g: Gov, id: nat, now: real, cls: Class, d: Decision)
    requires id < |g.requests|
    ensures var g' := Reserve(g, id, now, cls, false, d);
      g'.pending == g.pending && Gap(g') == Gap(g) && g'.core == g.core && g'.nativeMax == g.nativeMax &&
      g'.epoch == g.epoch && g'.healthOutstanding == g.healthOutstanding
  {
  }

  lemma LinkedMax(g: Gov)
    requires Linked(g)
    ensures g.core.maxRunning == g.nativeMax
  {
  }

  /** What an admission does to the accounts: nothing, unless it grants a health check. */
  ghost predicate AdmitEffect(g: Gov, g': Gov) {
    g'.nativeMax == g.nativeMax && g'.epoch == g.epoch && g'.core.maxRunning == g.core.maxRunning &&
    Total(EarnedW(), g'.requests) == Total(EarnedW(), g.requests) &&
    AllTokens(g'.core.log) == AllTokens(g.core.log) && g'.core.surface == g.core.surface &&
    g'.healthOutstanding >= g.healthOutstanding &&
    (if g'.healthOutstanding > g.healthOutstanding then g'.pending == map[] && Gap(g') == Gap(g) + Owed(g)
     else SameAccounts(g, g'))
  }

  lemma AdmitAccounts(g: Gov, id: nat, now: real, retracted: bool, waiting: Option<nat>, health: bool)
    requires Agreed(g)
    ensures AdmitEffect(g, AdmitRequest(g, id, now, retracted, waiting, health).0)
  {
    hide Sound, AdmitFresh, LedgerExact, Linked, Reserve, Gap, Tally;
    var (g', r) := AdmitRequest(g, id, now, retracted, waiting, health);
    AdmitTally(g, id, now, retracted, waiting, health);
    SameTallyKept(g, g');
    if g' != g {
      AdmitFreshExact(g, id, now, waiting, health);
      var cls := PressureClass(g.requests[id].input + g.requests[id].horizon);
      if r.Ok? && r.value.allowed && health {
        StartCellInSurface(g);
        LinkedMax(g);
        HealthReserveAccounts(g, id, now, cls, r.value);
      } else {
        AdvanceMoves(g, now);
        if r.Ok? && r.value.allowed {
          ReserveAccounts(g.(core := Advance(g.core, now).value), id, now, cls, r.value);
        }
      }
    }
  }

  lemma RotateAccounts(g: Gov, now: real, current: int)
    requires Agreed(g)
    ensures var (g', r) := RefreshIdentity(g, now, current);
      g'.nativeMax == g.nativeMax && g'.pending == g.pending && g'.requests == g.requests &&
      g'.healthOutstanding == g.healthOutstanding && g'.explorationActive == g.explorationActive &&
      g'.lastExploration == g.lastExploration && g'.outstanding == g.outstanding &&
      g'.maxRunning == g.maxRunning && g'.maxWaiting == g.maxWaiting &&
      (if r == Ok(true) then
         g'.epoch == g.epoch + 1 && AllTokens(g'.core.log) == 0 && TokensMatch(g'.core) && Gap(g') == 0.0
       else SameAccounts(g, g'))
  {
    hide Sound, LedgerExact, Tally, Gap, TokensMatch, AllTokens, Total;
    var (g', r) := RefreshIdentity(g, now, current);
    if r == Ok(true) {
      BareAccounts(g', now);
    } else {
      PausedAccounts(g, g'.paused);
    }
  }

  lemma PausedAccounts(g: Gov, paused: bool)
    ensures SameAccounts(g, g.(paused := paused))
  {
  }

  /** A core that has just forgotten everything. */
  lemma BareAccounts(g: Gov, now: real)
    requires g.core.log == Blank && g.core.surface == map[]
    requires g.surfaceTime == Some(now) && g.core.lastTime == Some(now)
    ensures AllTokens(g.core.log) == 0 && TokensMatch(g.core) && Gap(g) == 0.0
  {
    hide Owed;
    NoSurface(Size(g.nativeMax));
    NoSurface(Size(g.core.maxRunning));
    SettledGap(g, now);
  }

  lemma {:induction false} NoSurface(n: nat)
    ensures SurfaceTokens(map[], n) == 0 && SurfaceSeconds(map[], n) == 0.0
  {
    if n > 0 {
      NoSurface(n - 1);
    }
  }

  lemma SameAccountsConserved(tr: Trace, e: Event)
    requires Conserved(tr) && SameAccounts(tr.g, Next(tr.g, e)) && !e.CommitCall?
    requires Next(tr.g, e).healthOutstanding <= tr.g.healthOutstanding
    ensures Conserved(TNext(tr, e))
  {
    hide Agreed, Next, Gap;
    NextAgreed(tr.g, e);
  }

  // ---------- Every step conserves ----------

  /** An accepted clean commit publishes its settlement. */
  lemma CleanCommit(g: Gov, updates: seq<Update>, now: real, quarantine: bool)
    requires CommitBatch(g, updates, now, quarantine).1.Ok? && !Taints(g, quarantine)
    ensures var g' := CommitBatch(g, updates, now, quarantine).0;
      var s := Settled(g, updates, now, quarantine);
      s.Ok? && g'.core == s.value.core && g'.pending == s.value.pending && g'.surfaceTime == Some(now) &&
      g'.core.lastTime == s.value.core.lastTime && g'.dirty == g.dirty
  {
    hide Propose, Settle;
  }

  lemma DirtyCommit(g: Gov, updates: seq<Update>, now: real, quarantine: bool)
    requires CommitBatch(g, updates, now, quarantine).1.Ok? && Taints(g, quarantine)
    ensures var g' := CommitBatch(g, updates, now, quarantine).0;
      g'.core.log == g.core.log && g'.core.surface == g.core.surface && g'.core.lastTime == Some(now) &&
      g'.core.maxRunning == g.core.maxRunning && g'.pending == map[] && g'.surfaceTime == Some(now) &&
      !Settled(g, updates, now, quarantine).Ok? && g'.dirty == (g.healthOutstanding > 0)
  {
    hide Propose, Settle;
  }

  lemma DropsNonnegative(g: Gov, b: Batch, now: real, after: nat)
    requires Linked(g) && b.enteringDelta <= b.total
    ensures SettleDrops(g, b, now, after) >= 0
  {
    hide Sound;
    var n := Size(g.nativeMax);
    var live, start := Unexpired(g.pending, now), StartCell(g);
    ExpiryOnlyDrops(g.pending, now, n);
    if g.active > 0 {
      StartCellInSurface(g);
      Forecasts.PlaceOf(start, g.nativeMax);
      PendingPut(live, n, start, Pending(0, now));
    } else {
      assert g.pending == map[];
    }
  }

  lemma CleanCommitConserved(tr: Trace, e: Event)
    requires Conserved(tr) && e.CommitCall? && !Taints(tr.g, e.quarantine)
    requires CommitBatch(tr.g, e.updates, e.now, e.quarantine).1.Ok?
    ensures Conserved(TNext(tr, e))
    ensures Gap(Next(tr.g, e)) == Gap(tr.g)
  {
    hide CommitBatch, Settle, Propose, SettleDrops, LedgerExact, Linked, PendingSum, AllTokens, AllSeconds, Total,
      SurfaceTokens, SurfaceSeconds;
    var g := tr.g;
    var g' := CommitBatch(g, e.updates, e.now, e.quarantine).0;
    CleanCommit(g, e.updates, e.now, e.quarantine);
    CommitPublishes(g, e.updates, e.now, e.quarantine);
    SurfaceTimeBefore(g, e.updates, e.now, e.quarantine);
    CommitTally(g, e.updates, e.now, e.quarantine);
    CommitAgreed(g, e.updates, e.now, e.quarantine);
    EntrantsCounted(g.requests, e.updates, e.now);
    NotDirty(g, e.quarantine);
    var b := Propose(g.requests, e.updates, e.now).value;
    var after, counts := g.active + Sum4(b.entering) - Sum4(b.leaving), CountsAfter(g.activeCounts, b);
    SettleBalances(g, b, e.now, after, counts);
    SettleAccounts(g, b, e.now, after, counts);
    SettleLinked(g, b, e.now, after, counts);
    DropsNonnegative(g, b, e.now, after);
    SettledGap(g', e.now);
    LinkedMax(g);
    LinkedMax(g');
  }

  lemma NotDirty(g: Gov, quarantine: bool)
    requires !Taints(g, quarantine)
    ensures !g.dirty && g.healthOutstanding == 0
  {
  }

  /** Right after a commit nothing is owed. */
  lemma SettledGap(g: Gov, now: real)
    requires g.surfaceTime == Some(now) && g.core.lastTime == Some(now)
    ensures Owed(g) == 0.0
  {
  }

  lemma DirtyCommitConserved(tr: Trace, e: Event)
    requires Conserved(tr) && e.CommitCall? && Taints(tr.g, e.quarantine)
    requires CommitBatch(tr.g, e.updates, e.now, e.quarantine).1.Ok?
    ensures Conserved(TNext(tr, e))
    ensures Gap(Next(tr.g, e)) == Gap(tr.g) + Owed(tr.g)
  {
    hide CommitBatch, Settle, Propose, LedgerExact, Linked;
    var g := tr.g;
    var g' := CommitBatch(g, e.updates, e.now, e.quarantine).0;
    DirtyCommit(g, e.updates, e.now, e.quarantine);
    CommitPublishes(g, e.updates, e.now, e.quarantine);
    SurfaceTimeBefore(g, e.updates, e.now, e.quarantine);
    CommitTally(g, e.updates, e.now, e.quarantine);
    CommitAgreed(g, e.updates, e.now, e.quarantine);
    PendingNone(Size(g.nativeMax));
    SettledGap(g', e.now);
    OwedNonnegative(g);
  }

  lemma RefusedCommitConserved(tr: Trace, e: Event)
    requires Conserved(tr) && e.CommitCall? && CommitBatch(tr.g, e.updates, e.now, e.quarantine).1.Err?
    ensures Conserved(TNext(tr, e)) && Next(tr.g, e) == tr.g
  {
    hide CommitBatch, Agreed, Gap;
    RefusedCommitKeeps(tr.g, e.updates, e.now, e.quarantine);
  }

  /** A call that may refresh the identity first, then act. */
  lemma RefreshConserved(tr: Trace, now: real, current: int)
    requires Conserved(tr)
    ensures var (g', r) := RefreshIdentity(tr.g, now, current);
      Conserved(Trace(g', tr.delivered, tr.dropped, if g'.epoch != tr.g.epoch then tr.delivered else tr.base,
                      tr.starts))
  {
    hide Linked, LedgerExact, Tally, Gap, Agreed;
    LinkedOf(tr.g);
    RotateAccounts(tr.g, now, current);
    RefreshAgreed(tr.g, now, current);
    var (g', r) := RefreshIdentity(tr.g, now, current);
    LinkedOf(g');
    if r == Ok(true) {
      IdlePending(tr.g, now, current);
      PendingNone(Size(g'.nativeMax));
    }
  }

  lemma LinkedOf(g: Gov)
    requires Agreed(g)
    ensures Linked(g) && LedgerExact(g) && Tally(g) && g.core.maxRunning == g.nativeMax
  {
  }

  lemma IdlePending(g: Gov, now: real, current: int)
    requires Agreed(g) && RefreshIdentity(g, now, current).1 == Ok(true)
    ensures g.pending == map[] && g.active == 0 && g.outstanding == 0
  {
  }

  lemma AdmitConserved(tr: Trace, id: nat, now: real, retracted: bool, waiting: Option<nat>, health: bool)
    requires Conserved(tr)
    ensures var g' := AdmitRequest(tr.g, id, now, retracted, waiting, health).0;
      var drop := if g'.healthOutstanding > tr.g.healthOutstanding
                  then PendingSum(tr.g.pending, Size(tr.g.nativeMax)) else 0;
      g'.epoch == tr.g.epoch && g'.healthOutstanding >= tr.g.healthOutstanding &&
      Conserved(Trace(g', tr.delivered, tr.dropped + drop, tr.base, tr.starts))
  {
    hide AdmitRequest, Linked, LedgerExact, Tally, Gap, Agreed;
    LinkedOf(tr.g);
    AdmitAccounts(tr.g, id, now, retracted, waiting, health);
    AdmitAgreed(tr.g, id, now, retracted, waiting, health);
    OwedNonnegative(tr.g);
    PendingNone(Size(tr.g.nativeMax));
  }

  lemma ReleaseConserved(tr: Trace, id: nat)
    requires Conserved(tr)
    ensures var g' := ReleaseRequest(tr.g, id).0;
      SameAccounts(tr.g, g') && g'.healthOutstanding <= tr.g.healthOutstanding && g'.epoch == tr.g.epoch
  {
    hide Agreed, TokensMatch, SameTally, Total, AllTokens;
    ReleaseKeepsTally(tr.g, id);
  }

  lemma ReleaseKeepsTally(g: Gov, id: nat)
    requires Agreed(g)
    ensures SameTally(g, ReleaseRequest(g, id).0) &&
      Total(EarnedW(), ReleaseRequest(g, id).0.requests) == Total(EarnedW(), g.requests)
  {
    hide Linked, LedgerExact;
    SameTallyKept(g, ReleaseRequest(g, id).0);
  }

  lemma PolicyAccounts(g: Gov, epoch: nat, revision: nat, reference: Option<real>,
                       maxWaiting: Option<int>, maxRunning: Option<int>)
    requires Agreed(g)
    ensures var g' := UpdatePolicy(g, epoch, revision, reference, maxWaiting, maxRunning).0;
      SameAccounts(g, g') && g'.healthOutstanding == g.healthOutstanding && g'.epoch == g.epoch
  {
    hide Linked, LedgerExact, Tally, AllTokens, Total, SurfaceSeconds;
  }

  lemma AttachAccounts(g: Gov, id: nat)
    requires Agreed(g)
    ensures var g' := AttachProgress(g, id).0;
      SameAccounts(g, g') && g'.healthOutstanding == g.healthOutstanding && g'.epoch == g.epoch
  {
    hide Linked, LedgerExact, Tally;
    var g' := AttachProgress(g, id).0;
    if g' != g {
      TotalUpdate(EarnedW(), g.requests, id, g'.requests[id]);
    }
  }

  lemma ArriveAccounts(g: Gov, input: nat, horizon: nat)
    requires Agreed(g)
    ensures var g' := Next(g, Arrive(input, horizon));
      SameAccounts(g, g') && g'.healthOutstanding == g.healthOutstanding && g'.epoch == g.epoch
  {
    hide Linked, LedgerExact, Tally;
    TotalAppend(EarnedW(), g.requests, Request(input, horizon, None, None));
  }

  /** Steps that touch neither identity nor commits leave the accounts as they were. */
  lemma QuietConserved(tr: Trace, e: Event)
    requires Conserved(tr)
    requires e.Arrive? || e.ReleaseCall? || e.AttachCall? || e.ReadCall? || e.PrefillCall? || e.PreferCall?
    ensures Conserved(TNext(tr, e))
    ensures SameAccounts(tr.g, Next(tr.g, e))
  {
    hide Agreed, Gap, ReleaseRequest, AttachProgress, ReadCore, PrefillCompleted, PreferDecode;
    LinkedOf(tr.g);
    match e {
      case Arrive(input, horizon) => ArriveAccounts(tr.g, input, horizon);
      case ReleaseCall(id) => ReleaseConserved(tr, id);
      case AttachCall(id) => AttachAccounts(tr.g, id);
      case _ => ReadAccounts(tr.g, e); CoreReadHealth(tr.g, e);
    }
    SameAccountsConserved(tr, e);
  }

  lemma CoreReadHealth(g: Gov, e: Event)
    requires e.ReadCall? || e.PrefillCall? || e.PreferCall?
    ensures Next(g, e).healthOutstanding == g.healthOutstanding
  {
    hide Advance, Prefill, Choose;
  }

  lemma AdmitCallConserved(tr: Trace, e: Event)
    requires Conserved(tr) && e.AdmitCall?
    ensures Conserved(TNext(tr, e))
  {
    hide AdmitRequest, RefreshIdentity, Agreed, Gap;
    var (g1, r) := RefreshIdentity(tr.g, e.now, e.current);
    LinkedOf(tr.g);
    RefreshConserved(tr, e.now, e.current);
    RotateAccounts(tr.g, e.now, e.current);
    var tr1 := Trace(g1, tr.delivered, tr.dropped, if g1.epoch != tr.g.epoch then tr.delivered else tr.base, tr.starts);
    if r.Ok? {
      AdmitConserved(tr1, e.id, e.now, e.retracted, e.waiting, e.health);
    }
    ConservedIgnoresStarts(tr, e);
  }

  lemma PolicyCallConserved(tr: Trace, e: Event)
    requires Conserved(tr) && (e.PolicyCall? || e.RefreshCall?)
    ensures Conserved(TNext(tr, e))
  {
    hide UpdatePolicy, RefreshIdentity, Agreed, Gap;
    var (g1, r) := RefreshIdentity(tr.g, e.now, e.current);
    LinkedOf(tr.g);
    RefreshConserved(tr, e.now, e.current);
    RotateAccounts(tr.g, e.now, e.current);
    if e.PolicyCall? && r.Ok? && !g1.paused {
      PolicyAccounts(g1, e.epoch, e.revision, e.reference, e.maxWaiting, e.maxRunning);
      NextAgreed(tr.g, e);
    }
  }

  lemma ConservedIgnoresStarts(tr: Trace, e: Event)
    ensures forall starts: seq<real> :: Conserved(TNext(tr, e)) <==> Conserved(TNext(tr, e).(starts := starts))
  {
    hide Agreed, Gap, TNext;
  }

  /** Every call conserves tokens and exposure. */
  lemma StepConserved(tr: Trace, e: Event)
    requires Conserved(tr)
    ensures Conserved(TNext(tr, e))
  {
    hide Conserved, TNext, CommitBatch;
    match e
    case AdmitCall(_, _, _, _, _, _) => AdmitCallConserved(tr, e);
    case PolicyCall(_, _, _, _, _, _, _) => PolicyCallConserved(tr, e);
    case RefreshCall(_, _) => PolicyCallConserved(tr, e);
    case CommitCall(updates, now, quarantine) =>
      if CommitBatch(tr.g, updates, now, quarantine).1.Err? {
        RefusedCommitConserved(tr, e);
      } else if Taints(tr.g, quarantine) {
        DirtyCommitConserved(tr, e);
      } else {
        CleanCommitConserved(tr, e);
      }
    case _ => QuietConserved(tr, e);
  }

  lemma {:induction false} RunConserved(tr: Trace, events: seq<Event>)
    requires Conserved(tr)
    ensures Conserved(TPlay(tr, events))
    decreases |events|
  {
    hide Conserved, TNext;
    if events != [] {
      StepConserved(tr, events[0]);
      RunConserved(TNext(tr, events[0]), events[1..]);
    }
  }

  lemma BeginConserved(core: Core, nativeMax: nat, maxRunning: nat, maxWaiting: nat, exploring: bool, identity: int)
    requires Sound(core) && core.maxRunning == nativeMax && core.active == 0 && !core.quarantined
    requires core.log == Blank && core.surface == map[]
    requires Open(core, nativeMax, maxRunning, maxWaiting, exploring, identity).Ok?
    ensures Conserved(Begin(Open(core, nativeMax, maxRunning, maxWaiting, exploring, identity).value))
  {
    OpenAgreed(core, nativeMax, maxRunning, maxWaiting, exploring, identity);
    NoSurface(Size(nativeMax));
    PendingNone(Size(nativeMax));
  }

  /** Over any run the core never holds more tokens than its requests decoded after their first. */
  lemma CoreNeverOvercounts(g: Gov, events: seq<Event>)
    requires Conserved(Begin(g))
    ensures var tr := TPlay(Begin(g), events);
      AllTokens(tr.g.core.log) == SurfaceTokens(tr.g.core.surface, Size(tr.g.nativeMax)) &&
      AllTokens(tr.g.core.log) + PendingSum(tr.g.pending, Size(tr.g.nativeMax)) <= Total(EarnedW(), tr.g.requests)
  {
    hide Agreed;
    RunConserved(Begin(g), events);
    LinkedOf(TPlay(Begin(g), events).g);
  }

  // ---------- Exposure in clean runs ----------

  /** A step that starts, continues or ends a quarantine. */
  predicate Quarantines(g: Gov, e: Event) {
    Next(g, e).dirty ||
    (e.CommitCall? && Taints(g, e.quarantine) && CommitBatch(g, e.updates, e.now, e.quarantine).1.Ok?)
  }

  predicate CleanRun(g: Gov, events: seq<Event>)
    decreases |events|
  {
    events == [] || (!Quarantines(g, events[0]) && CleanRun(Next(g, events[0]), events[1..]))
  }

  lemma AdmitHealthDirty(g: Gov, id: nat, now: real, retracted: bool, waiting: Option<nat>, health: bool)
    ensures var g' := AdmitRequest(g, id, now, retracted, waiting, health).0;
      g'.healthOutstanding > g.healthOutstanding ==> g'.dirty
  {
    hide AdmitFresh;
    if AdmitRequest(g, id, now, retracted, waiting, health).0 != g {
      AdmitFreshCases(g, id, now, waiting, health);
    }
  }

  /** The calls that drop exposure: a granted health check, and an accepted contaminated commit. */
  predicate DropsExposure(g: Gov, e: Event) {
    Next(g, e).healthOutstanding > g.healthOutstanding ||
    (e.CommitCall? && Taints(g, e.quarantine) && CommitBatch(g, e.updates, e.now, e.quarantine).1.Ok?)
  }

  lemma RefreshedGap(g: Gov, now: real, current: int)
    requires Agreed(g)
    ensures var g' := RefreshIdentity(g, now, current).0;
      Agreed(g') && g'.healthOutstanding == g.healthOutstanding &&
      if g'.epoch != g.epoch then Gap(g') == 0.0 == Owed(g') else Gap(g') == Gap(g) && Owed(g') == Owed(g)
  {
    hide Agreed, Gap;
    RotateAccounts(g, now, current);
    RefreshAgreed(g, now, current);
  }

  lemma AdmitCallGap(g: Gov, e: Event)
    requires Agreed(g) && e.AdmitCall?
    ensures var g' := Next(g, e);
      if g'.epoch != g.epoch then Gap(g') == 0.0
      else Gap(g') == Gap(g) + (if DropsExposure(g, e) then Owed(g) else 0.0)
  {
    hide AdmitRequest, RefreshIdentity, Agreed, Gap, Owed;
    RefreshedGap(g, e.now, e.current);
    var (g1, r) := RefreshIdentity(g, e.now, e.current);
    if r.Ok? {
      AdmitAccounts(g1, e.id, e.now, e.retracted, e.waiting, e.health);
    }
  }

  lemma PolicyCallGap(g: Gov, e: Event)
    requires Agreed(g) && (e.PolicyCall? || e.RefreshCall?)
    ensures var g' := Next(g, e);
      !DropsExposure(g, e) && if g'.epoch != g.epoch then Gap(g') == 0.0 else Gap(g') == Gap(g)
  {
    hide UpdatePolicy, RefreshIdentity, Agreed, Gap, Owed;
    RefreshedGap(g, e.now, e.current);
    var (g1, r) := RefreshIdentity(g, e.now, e.current);
    if e.PolicyCall? && r.Ok? && !g1.paused {
      PolicyAccounts(g1, e.epoch, e.revision, e.reference, e.maxWaiting, e.maxRunning);
    }
  }

  /** A call moves the gap between the two exposure accounts exactly when it drops exposure, and then by
      all that is owed; a rotation clears both accounts. */
  lemma StepGap(tr: Trace, e: Event)
    requires Conserved(tr)
    ensures var g' := Next(tr.g, e);
      if g'.epoch != tr.g.epoch then Gap(g') == 0.0
      else Gap(g') == Gap(tr.g) + (if DropsExposure(tr.g, e) then Owed(tr.g) else 0.0)
  {
    hide Agreed, Gap, Owed, CommitBatch, RefreshIdentity, UpdatePolicy, AdmitRequest;
    if e.CommitCall? {
      if CommitBatch(tr.g, e.updates, e.now, e.quarantine).1.Err? {
        RefusedCommitConserved(tr, e);
      } else {
        CommitPublishes(tr.g, e.updates, e.now, e.quarantine);
        if Taints(tr.g, e.quarantine) {
          DirtyCommitConserved(tr, e);
        } else {
          CleanCommitConserved(tr, e);
        }
      }
    } else if e.AdmitCall? {
      AdmitCallGap(tr.g, e);
    } else if e.PolicyCall? || e.RefreshCall? {
      PolicyCallGap(tr.g, e);
    } else {
      QuietConserved(tr, e);
      QuietHealth(tr.g, e);
    }
  }

  lemma QuietHealth(g: Gov, e: Event)
    requires e.Arrive? || e.ReleaseCall? || e.AttachCall? || e.ReadCall? || e.PrefillCall? || e.PreferCall?
    ensures Next(g, e).healthOutstanding <= g.healthOutstanding
  {
    hide Advance, Prefill, Choose;
  }

  lemma DroppingQuarantines(g: Gov, e: Event)
    ensures DropsExposure(g, e) ==> Quarantines(g, e)
  {
    hide AdmitRequest, RefreshIdentity, UpdatePolicy, CommitBatch;
    if e.AdmitCall? {
      AdmitHealthDirty(RefreshIdentity(g, e.now, e.current).0, e.id, e.now, e.retracted, e.waiting, e.health);
      RefreshKeepsHealth(g, e.now, e.current);
    } else if e.PolicyCall? || e.RefreshCall? {
      RefreshKeepsHealth(g, e.now, e.current);
      PolicyKeepsHealth(g, e);
    } else if e.CommitCall? {
      CommitKeepsHealth(g, e);
    } else {
      QuietHealth(g, e);
    }
  }

  lemma RefreshKeepsHealth(g: Gov, now: real, current: int)
    ensures RefreshIdentity(g, now, current).0.healthOutstanding == g.healthOutstanding
  {
  }

  lemma PolicyKeepsHealth(g: Gov, e: Event)
    requires e.PolicyCall? || e.RefreshCall?
    ensures Next(g, e).healthOutstanding == g.healthOutstanding
  {
    hide StartSurfaceEpoch, UpdateReference;
  }

  lemma CommitKeepsHealth(g: Gov, e: Event)
    requires e.CommitCall?
    ensures Next(g, e).healthOutstanding == g.healthOutstanding
  {
    hide Propose, Settle, Quarantine;
  }

  /** Outside quarantine no call moves the gap, but for a rotation, which clears both accounts. */
  lemma CleanStepGap(tr: Trace, e: Event)
    requires Conserved(tr) && !Quarantines(tr.g, e)
    ensures if Next(tr.g, e).epoch != tr.g.epoch then Gap(Next(tr.g, e)) == 0.0 else Gap(Next(tr.g, e)) == Gap(tr.g)
  {
    hide Next, Conserved, Gap, Quarantines;
    StepGap(tr, e);
    DroppingQuarantines(tr.g, e);
  }

  /** In a run without quarantine the surface has been charged exactly the integral of the
      active count up to the last commit: all the aggregate holds, less what is still owed. */
  lemma {:induction false} CleanRunChargesAllExposure(tr: Trace, events: seq<Event>)
    requires Conserved(tr)
    ensures var g := TPlay(tr, events).g;
      Gap(tr.g) == 0.0 && CleanRun(tr.g, events) ==>
        AllSeconds(g.core.log) == SurfaceSeconds(g.core.surface, Size(g.nativeMax)) + Owed(g)
    decreases |events|
  {
    hide Conserved, Quarantines, TNext;
    if events != [] && Gap(tr.g) == 0.0 && CleanRun(tr.g, events) {
      NextOfTrace(tr, events[0]);
      CleanStepGap(tr, events[0]);
      StepConserved(tr, events[0]);
      CleanRunChargesAllExposure(TNext(tr, events[0]), events[1..]);
    }
  }
}
