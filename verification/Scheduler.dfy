/** The scheduler's policy state as a value: the reservation ledger, exploration
    budget, health contamination, Decode accounting and identity drain. Each
    operation is one atomic step under the policy lock. */
module Scheduler {
  import opened Wrappers
  import opened Ticks
  import opened CoreSpec

  const MAX_WAITING_LIMIT: nat := 3
  const EXPLORATION_INTERVAL_SECONDS: real := 2.0
  const EXPLORATION_HEADROOM: real := 1.25
  const PENDING_SECONDS: real := 60.0
  const U32: int := 0x1_0000_0000

  /** One counter for each context-pressure class. */
  type Counts = counts: seq<int> | |counts| == 4 witness [0, 0, 0, 0]
  type Class = cls: nat | cls < 4

  const NO_COUNTS: Counts := [0, 0, 0, 0]

  datatype Decision = Decision(allowed: bool, reason: Reason, forecast: Forecast,
                               projectedWaiting: nat, recovery: bool)

  /** One admission. `epoch` is history: the epoch it was granted in. */
  datatype Reservation = Reservation(cls: Class, decision: Decision, exploration: bool, health: bool,
                                     released: bool, epoch: nat)

  /** Decode progress. `entered` is history: the request was once counted as decoding. */
  datatype Progress = Progress(output: nat, decoding: bool, terminal: bool, cls: Class,
                               lastTime: Option<real>, entered: bool)

  /** A native request with what the scheduler attaches to it. */
  datatype Request = Request(input: nat, horizon: nat,
                             reservation: Option<Reservation>, progress: Option<Progress>)

  datatype Pending = Pending(tokens: nat, at: real)

  datatype Gov = Gov(core: Core, nativeMax: nat, maxRunning: nat, maxWaiting: nat,
                     outstanding: nat, admitted: Counts, active: nat, activeCounts: Counts,
                     pending: map<Key, Pending>, surfaceTime: Option<real>,
                     exploring: bool, explorationActive: bool, lastExploration: Option<real>,
                     paused: bool, healthOutstanding: nat, dirty: bool,
                     requests: seq<Request>, identity: int, epoch: nat)

  predicate ValidLimits(nativeMax: nat, maxRunning: int, maxWaiting: int) {
    0 < nativeMax < U32 && 0 < maxRunning <= nativeMax && 0 <= maxWaiting <= MAX_WAITING_LIMIT
  }

  function Open(core: Core, nativeMax: nat, maxRunning: nat, maxWaiting: nat, exploring: bool, identity: int)
    : Result<Gov>
  {
    if !ValidLimits(nativeMax, maxRunning, maxWaiting) then Err(Invalid)
    else Ok(Gov(core, nativeMax, maxRunning, maxWaiting, 0, NO_COUNTS, 0, NO_COUNTS, map[], None,
                exploring, false, None, false, 0, false, [], identity, 0))
  }

  function Bigger(a: int, b: int): int { if a >= b then a else b }
  function Smaller(a: int, b: int): int { if a <= b then a else b }

  // ---------- Admission ----------

  function PressureClass(total: nat): Class {
    if total <= 4096 then 0 else if total <= 16384 then 1 else if total <= 65536 then 2 else 3
  }

  /** The heaviest class with a nonzero count; class 0 when there is none. */
  function Heaviest(counts: Counts): Class {
    if counts[3] != 0 then 3 else if counts[2] != 0 then 2 else if counts[1] != 0 then 1 else 0
  }

  function ProjectedClass(g: Gov, cls: Class): Class {
    if Heaviest(g.admitted) > cls then Heaviest(g.admitted) else cls
  }

  datatype Blocker = Disabled | ProbeActive | Capacity | Waiting | Outstanding | Cooldown | Projection
                   | LowerRisk | LowerUnobserved | LowerHeadroom | Busy | Contaminated | Unobserved | RecentEvidence

  /** Why an exploratory admission is not allowed, if it is not. A second concurrent
      request must rest on live evidence for the adjacent lighter cell. */
  function ExplorationBlocker(g: Gov, core: Core, now: real, want: Key, waiting: Option<nat>): Result<Option<Blocker>> {
    if !g.exploring then Ok(Some(Disabled))
    else if g.explorationActive then Ok(Some(ProbeActive))
    else if g.outstanding + 1 > g.maxRunning then Ok(Some(Capacity))
    else if waiting.Some? && waiting.value != 0 then Ok(Some(Waiting))
    else if waiting.None? && g.outstanding != 0 then Ok(Some(Outstanding))
    else if g.lastExploration.Some? && now - g.lastExploration.value < EXPLORATION_INTERVAL_SECONDS then
      Ok(Some(Cooldown))
    else if want.concurrency <= 1 then Ok(if g.outstanding == 0 then None else Some(Outstanding))
    else if want.concurrency != g.outstanding + 1 then Ok(Some(Projection))
    else
      var (_, lower) :- Admit(core, now, Key(want.concurrency - 1, want.pressure));
      Ok(if !lower.allowed then Some(LowerRisk)
         else if !lower.observed then Some(LowerUnobserved)
         else if lower.tps < lower.reference * EXPLORATION_HEADROOM then Some(LowerHeadroom)
         else None)
  }

  /** A slow cell may be probed again only from a drained, clean and quiet scheduler. */
  function RecoveryBlocker(g: Gov, core: Core, now: real, want: Key, waiting: Option<nat>,
                           forecast: Forecast): Result<Option<Blocker>>
  {
    if g.outstanding != 0 || g.active != 0 then Ok(Some(Busy))
    else if g.healthOutstanding != 0 || g.dirty then Ok(Some(Contaminated))
    else if !forecast.observed then Ok(Some(Unobserved))
    else if g.surfaceTime.None? || now - g.surfaceTime.value < EXPLORATION_INTERVAL_SECONDS then
      Ok(Some(RecentEvidence))
    else ExplorationBlocker(g, core, now, want, waiting)
  }

  function ProjectedWaiting(g: Gov, waiting: Option<nat>): nat {
    var logical := Bigger(0, g.outstanding + 1 - g.maxRunning);
    if waiting.None? then logical else Bigger(logical, waiting.value + 1)
  }

  predicate HealthFits(g: Gov, health: bool, waiting: Option<nat>) {
    health && !g.paused && g.outstanding + 1 <= g.maxRunning && ProjectedWaiting(g, waiting) <= g.maxWaiting
  }

  /** The policy's verdict on a forecast, before capacity. */
  function Verdict(g: Gov, core: Core, now: real, want: Key, waiting: Option<nat>, health: bool,
                   forecast: Forecast): Result<Decision>
  {
    var projected := ProjectedWaiting(g, waiting);
    var plain := Decision(forecast.allowed, forecast.reason, forecast, projected, false);
    if g.paused then Ok(plain.(allowed := false, reason := IdentityTransition))
    else if health then Ok(plain.(allowed := true, reason := HealthCheck))
    else if forecast.reason == TpsRisk || forecast.reason == Unknown then
      var recovery := forecast.reason == TpsRisk;
      var blocker :- if recovery then RecoveryBlocker(g, core, now, want, waiting, forecast)
                     else ExplorationBlocker(g, core, now, want, waiting);
      Ok(if blocker.None? then plain.(allowed := true, reason := OnlineExploration, recovery := recovery) else plain)
    else Ok(plain)
  }

  /** Capacity comes last: a TPS-fit request is still held to the waiting limit. */
  function Capped(g: Gov, health: bool, d: Decision): Decision {
    if d.allowed && d.projectedWaiting > g.maxWaiting then d.(allowed := false, reason := WaitingLimit)
    else if d.allowed && health && g.outstanding + 1 > g.maxRunning then d.(allowed := false, reason := WaitingLimit)
    else d
  }

  /** Attach the reservation of an allowed decision to its request. */
  function Reserve(g: Gov, id: nat, now: real, cls: Class, health: bool, d: Decision): Gov
    requires id < |g.requests|
  {
    var exploration := d.reason == OnlineExploration;
    var r := Reservation(cls, d, exploration, health, false, g.epoch);
    var g1 := g.(requests := g.requests[id := g.requests[id].(reservation := Some(r))],
                 outstanding := g.outstanding + 1,
                 admitted := g.admitted[cls := g.admitted[cls] + 1]);
    var g2 := if exploration then g1.(explorationActive := true, lastExploration := Some(now)) else g1;
    if health then g2.(healthOutstanding := g2.healthOutstanding + 1, dirty := true, pending := map[]) else g2
  }

  /** A request with a reservation keeps it; a fresh one is forecast and reserved atomically. */
  function AdmitRequest(g: Gov, id: nat, now: real, retracted: bool, waiting: Option<nat>, health: bool)
    : (Gov, Result<Decision>)
  {
    if id >= |g.requests| then (g, Err(Invalid))
    else
      var req := g.requests[id];
      match req.reservation
      case Some(r) =>
        (g, if r.released || r.health != health then Err(Internal) else Ok(r.decision))
      case None =>
        if retracted then (g, Err(Internal))
        else if health && (req.input != 1 || req.horizon != 1) then (g, Err(Invalid))
        else if waiting.Some? && waiting.value >= U32 - 1 then (g, Err(Invalid))
        else if req.input + req.horizon >= U64 then (g, Err(Invalid))
        else AdmitFresh(g, id, now, waiting, health)
  }

  /** Forecast at `now`; a fitting health check quarantines the core first, and puts the
      old flag back if the forecast itself fails. */
  function FreshForecast(g: Gov, now: real, want: Key, fits: bool): (Core, Result<Forecast>) {
    if fits && Quarantine(g.core, now, g.active, true).Err? then (g.core, Err(Invalid))
    else
      var core := if fits then Quarantine(g.core, now, g.active, true).value else g.core;
      match Admit(core, now, want)
      case Ok((core', forecast)) => (core', Ok(forecast))
      case Err(e) =>
        var restored := Quarantine(core, now, g.active, g.healthOutstanding != 0 || g.dirty);
        (if fits && restored.Ok? then restored.value else core, Err(e))
  }

  function AdmitFresh(g: Gov, id: nat, now: real, waiting: Option<nat>, health: bool): (Gov, Result<Decision>)
    requires id < |g.requests|
  {
    var cls := PressureClass(g.requests[id].input + g.requests[id].horizon);
    var want := Key(Smaller(g.outstanding + 1, g.nativeMax), ProjectedClass(g, cls));
    var (core, forecast) := FreshForecast(g, now, want, HealthFits(g, health, waiting));
    var g' := g.(core := core);
    match forecast
    case Err(e) => (g', Err(e))
    case Ok(f) =>
      match Verdict(g, core, now, want, waiting, health, f)
      case Err(e) => (g', Err(e))
      case Ok(verdict) =>
        var d := Capped(g, health, verdict);
        (if d.allowed then Reserve(g', id, now, cls, health, d) else g', Ok(d))
  }

  /** Release a reservation exactly once. */
  function ReleaseRequest(g: Gov, id: nat): (Gov, Result<bool>) {
    if id >= |g.requests| then (g, Ok(false))
    else match g.requests[id].reservation
      case None => (g, Ok(false))
      case Some(r) =>
        if r.released then (g, Ok(false))
        else if g.outstanding <= 0 || g.admitted[r.cls] <= 0 then (g, Err(Internal))
        else if r.health && g.healthOutstanding <= 0 then (g, Err(Internal))
        else
          (g.(outstanding := g.outstanding - 1,
              admitted := g.admitted[r.cls := g.admitted[r.cls] - 1],
              healthOutstanding := if r.health then g.healthOutstanding - 1 else g.healthOutstanding,
              explorationActive := g.explorationActive && !r.exploration,
              requests := g.requests[id := g.requests[id].(reservation := Some(r.(released := true)))]), Ok(true))
  }

  function GetOr<T>(o: Option<T>, default: T): T {
    if o.Some? then o.value else default
  }

  /** Change the mutable policy in one compare-and-swap on (epoch, revision). */
  function UpdatePolicy(g: Gov, epoch: nat, revision: nat, reference: Option<real>,
                        maxWaiting: Option<int>, maxRunning: Option<int>): (Gov, Result<()>)
  {
    var waiting, running := GetOr(maxWaiting, g.maxWaiting), GetOr(maxRunning, g.maxRunning);
    if reference.None? && maxWaiting.None? && maxRunning.None? then (g, Err(Invalid))
    else if !ValidLimits(g.nativeMax, running, waiting) then (g, Err(Invalid))
    else if GetOr(reference, g.core.reference) < 0.0 then (g, Err(Invalid))
    else if epoch != g.epoch then (g, Err(Conflict))
    else match UpdateReference(g.core, revision, GetOr(reference, g.core.reference))
      case Err(e) => (g, Err(e))
      case Ok(core) => (g.(core := core, maxRunning := running, maxWaiting := waiting), Ok(()))
  }

  // ---------- Batch commit ----------

  datatype Update = Update(id: nat, output: nat, terminal: bool, cls: nat)

  /** What a batch proposes: counts entering and leaving each class, token deltas, new progress. */
  datatype Batch = Batch(entering: Counts, leaving: Counts, total: nat, enteringDelta: nat,
                         next: seq<Request>, seen: set<nat>)

  ghost predicate Proposal(requests: seq<Request>, b: Batch) {
    |b.next| == |requests| && b.enteringDelta <= b.total
  }

  /** What one result means for a request that is not yet terminal. */
  datatype Effect = Effect(enters: bool, leaves: bool, delta: nat, next: Progress)

  function EffectOf(p: Progress, u: Update, now: real): Result<Effect> {
    if u.output < p.output then Err(Invalid)
    else if p.decoding && p.lastTime.None? then Err(Internal)
    else if p.decoding && now < p.lastTime.value then Err(Invalid)
    else
      var enters := !p.decoding && u.output > 0 && !u.terminal;
      var delta := if p.decoding then u.output - p.output
                   else if u.terminal || u.output == 0 then 0 else u.output - 1;
      var decoding := (p.decoding || enters) && !u.terminal;
      Ok(Effect(enters, p.decoding && u.terminal, delta,
                Progress(u.output, decoding, u.terminal, p.cls, if decoding then Some(now) else None,
                         p.entered || enters)))
  }

  function Count(counts: Counts, cls: Class, one: bool): Counts {
    if one then counts[cls := counts[cls] + 1] else counts
  }

  function ProposeOne(requests: seq<Request>, b: Batch, u: Update, now: real): (r: Result<Batch>)
    requires Proposal(requests, b)
    ensures r.Ok? ==> Proposal(requests, r.value)
  {
    if u.id >= |requests| || requests[u.id].progress.None? then Err(Invalid)
    else if u.id in b.seen || u.cls >= 4 then Err(Invalid)
    else
      var p := requests[u.id].progress.value;
      if u.cls != p.cls then Err(Invalid)
      else if p.terminal then Ok(b.(seen := b.seen + {u.id}))
      else
        var e :- EffectOf(p, u, now);
        Ok(Batch(Count(b.entering, u.cls, e.enters), Count(b.leaving, u.cls, e.leaves),
                 b.total + e.delta, b.enteringDelta + (if e.enters then e.delta else 0),
                 b.next[u.id := requests[u.id].(progress := Some(e.next))], b.seen + {u.id}))
  }

  function Propose(requests: seq<Request>, updates: seq<Update>, now: real): (r: Result<Batch>)
    ensures r.Ok? ==> Proposal(requests, r.value)
  {
    if updates == [] then Ok(Batch(NO_COUNTS, NO_COUNTS, 0, 0, requests, {}))
    else
      var n := |updates| - 1;
      var b :- Propose(requests, updates[..n], now);
      ProposeOne(requests, b, updates[n], now)
  }

  function Sum4(counts: Counts): int {
    counts[0] + counts[1] + counts[2] + counts[3]
  }

  function CountsAfter(before: Counts, b: Batch): Counts {
    seq(4, i requires 0 <= i < 4 => before[i] + b.entering[i] - b.leaving[i])
  }

  function PendingAt(pending: map<Key, Pending>, key: Key): nat {
    if key in pending then pending[key].tokens else 0
  }

  function Unexpired(pending: map<Key, Pending>, now: real): map<Key, Pending> {
    map key | key in pending && now - pending[key].at <= PENDING_SECONDS :: pending[key]
  }

  /** What a clean commit publishes: the core, the pending evidence, and, as
      history, the tokens handed to the core. */
  datatype Settlement = Settlement(core: Core, pending: map<Key, Pending>, delivered: nat)

  /** The cell a batch is charged to: the batch-start count and its heaviest class. */
  function StartCell(g: Gov): Key {
    Key(g.active, Heaviest(g.activeCounts))
  }

  function ElapsedSince(g: Gov, now: real): real {
    if g.surfaceTime.None? then 0.0 else now - g.surfaceTime.value
  }

  predicate FullReplacement(g: Gov, b: Batch) {
    g.active > 0 && Sum4(b.leaving) == g.active
  }

  function Settle(g: Gov, b: Batch, now: real, after: nat, counts: Counts): Result<Settlement>
    requires b.enteringDelta <= b.total
  {
    var elapsed := ElapsedSince(g, now);
    if elapsed < 0.0 then Err(Invalid)
    else
      var seconds := elapsed * g.active as real;
      var live := Unexpired(g.pending, now);
      var start := StartCell(g);
      if FullReplacement(g, b) then
        if b.enteringDelta >= U64 then Err(Invalid)
        else
          var kept := if b.enteringDelta > 0 then map[Key(after, Heaviest(counts)) := Pending(b.enteringDelta, now)]
                      else map[];
          var retired := if seconds > 0.0 then b.total - b.enteringDelta + PendingAt(live, start) else 0;
          var core :- ObserveReplacement(g.core, now, retired, seconds, start, after);
          Ok(Settlement(core, if after == 0 then map[] else kept, retired))
      else if g.active > 0 && seconds > 0.0 then
        var delta := b.total + PendingAt(live, start);
        var core :- ObserveBatch(g.core, now, delta, seconds, start, after);
        Ok(Settlement(core, if after == 0 then map[] else live - {start}, delta))
      else
        var base := if g.active == 0 then map[] else live;
        var cell := if g.active > 0 then start else Key(after, Heaviest(counts));
        var stored := PendingAt(base, cell) + b.total;
        var kept := if b.total > 0 && (g.active > 0 || after > 0) then base[cell := Pending(stored, now)] else base;
        if b.total > 0 && (g.active > 0 || after > 0) && stored >= U64 then Err(Invalid)
        else
          var core :- Observe(g.core, now, 0, after);
          Ok(Settlement(core, if after == 0 then map[] else kept, 0))
  }

  predicate Taints(g: Gov, quarantine: bool) {
    quarantine || g.healthOutstanding != 0 || g.dirty
  }

  /** Commit a proposal: counts first, then the core, and only then publication. */
  function CommitProposed(g: Gov, b: Batch, now: real, quarantine: bool): (Gov, Result<()>)
    requires b.enteringDelta <= b.total
  {
    var after := g.active + Sum4(b.entering) - Sum4(b.leaving);
    var counts := CountsAfter(g.activeCounts, b);
    if after < 0 || counts[0] < 0 || counts[1] < 0 || counts[2] < 0 || counts[3] < 0 then (g, Err(Internal))
    else if Taints(g, quarantine) then
      match Quarantine(g.core, now, after, g.healthOutstanding > 0)
      case Err(e) => (g, Err(e))
      case Ok(core) =>
        (g.(core := core, requests := b.next, active := after, activeCounts := counts, pending := map[],
            surfaceTime := Some(now), dirty := g.healthOutstanding > 0), Ok(()))
    else
      match Settle(g, b, now, after, counts)
      case Err(e) => (g, Err(e))
      case Ok(s) =>
        (g.(core := s.core, requests := b.next, active := after, activeCounts := counts, pending := s.pending,
            surfaceTime := Some(now)), Ok(()))
  }

  /** Commit one native forward batch, all of it or nothing. */
  function CommitBatch(g: Gov, updates: seq<Update>, now: real, quarantine: bool): (Gov, Result<()>) {
    match Propose(g.requests, updates, now)
    case Err(e) => (g, Err(e))
    case Ok(b) => CommitProposed(g, b, now, quarantine)
  }

  // ---------- Identity ----------

  /** Drain, then rotate: a changed identity pauses admission until nothing is outstanding. */
  function RefreshIdentity(g: Gov, now: real, current: int): (Gov, Result<bool>) {
    if (g.paused || current != g.identity) && g.outstanding == 0 && g.active == 0 then
      match StartSurfaceEpoch(g.core, now, 0)
      case Err(e) => (g, Err(e))
      case Ok(core) =>
        (g.(core := core, identity := current, paused := false, pending := map[], surfaceTime := Some(now),
            dirty := false, epoch := g.epoch + 1), Ok(true))
    else (g.(paused := g.paused || current != g.identity), Ok(false))
  }

  // ---------- Requests and reads ----------

  /** `_progress_for`: a reserved request gets fresh progress on its first result. */
  function AttachProgress(g: Gov, id: nat): (Gov, Result<()>) {
    if id >= |g.requests| then (g, Err(Internal))
    else if g.requests[id].progress.Some? then (g, Ok(()))
    else match g.requests[id].reservation
      case None => (g, Err(Internal))
      case Some(r) =>
        var start := Progress(0, false, false, r.cls, None, false);
        (g.(requests := g.requests[id := g.requests[id].(progress := Some(start))]), Ok(()))
  }

  function ReadCore(g: Gov, now: real): (Gov, Result<()>) {
    match Advance(g.core, now)
    case Err(e) => (g, Err(e))
    case Ok(core) => (g.(core := core), Ok(()))
  }

  function PrefillCompleted(g: Gov, now: real, wall: real): (Gov, Result<()>) {
    match Prefill(g.core, now, wall)
    case Err(e) => (g, Err(e))
    case Ok(core) => (g.(core := core), Ok(()))
  }

  function PreferDecode(g: Gov, now: real, decode: bool, prefill: bool, age: real): (Gov, Result<bool>) {
    match Choose(g.core, now, decode, prefill, age)
    case Err(e) => (g, Err(e))
    case Ok((core, d)) => (g.(core := core), Ok(d))
  }

  // ---------- Steps ----------

  /** One call under the policy lock. Admission and policy changes refresh the identity first. */
  datatype Event =
    | Arrive(input: nat, horizon: nat)
    | AdmitCall(id: nat, now: real, current: int, retracted: bool, waiting: Option<nat>, health: bool)
    | ReleaseCall(id: nat)
    | PolicyCall(now: real, current: int, epoch: nat, revision: nat, reference: Option<real>,
                 maxWaiting: Option<int>, maxRunning: Option<int>)
    | RefreshCall(now: real, current: int)
    | AttachCall(id: nat)
    | CommitCall(updates: seq<Update>, now: real, quarantine: bool)
    | ReadCall(now: real)
    | PrefillCall(now: real, wall: real)
    | PreferCall(now: real, decode: bool, prefill: bool, age: real)

  function Next(g: Gov, e: Event): Gov {
    match e
    case Arrive(input, horizon) => g.(requests := g.requests + [Request(input, horizon, None, None)])
    case AdmitCall(id, now, current, retracted, waiting, health) =>
      var (g', r) := RefreshIdentity(g, now, current);
      if r.Err? then g' else AdmitRequest(g', id, now, retracted, waiting, health).0
    case ReleaseCall(id) => ReleaseRequest(g, id).0
    case PolicyCall(now, current, epoch, revision, reference, maxWaiting, maxRunning) =>
      var (g', r) := RefreshIdentity(g, now, current);
      if r.Err? || g'.paused then g' else UpdatePolicy(g', epoch, revision, reference, maxWaiting, maxRunning).0
    case RefreshCall(now, current) => RefreshIdentity(g, now, current).0
    case AttachCall(id) => AttachProgress(g, id).0
    case CommitCall(updates, now, quarantine) => CommitBatch(g, updates, now, quarantine).0
    case ReadCall(now) => ReadCore(g, now).0
    case PrefillCall(now, wall) => PrefillCompleted(g, now, wall).0
    case PreferCall(now, decode, prefill, age) => PreferDecode(g, now, decode, prefill, age).0
  }

  function Play(g: Gov, events: seq<Event>): Gov
    decreases |events|
  {
    if events == [] then g else Play(Next(g, events[0]), events[1..])
  }
}
