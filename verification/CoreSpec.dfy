/** The admission controller as a value: every operation of the native core, read
    against the unbounded log instead of the rings. Refusals are results and
    leave the caller's value as it was. */
module CoreSpec {
  import opened Wrappers
  import opened Ticks
  import opened Ledger

  const PRESSURE_CLASSES: nat := 4
  const MIN_EXPOSURE_SECONDS: real := 0.1
  const MAX_SURFACE_AGE_SECONDS: real := 60.0
  const MAX_PREFERENCE_SECONDS: real := 0.25

  /** A response-surface cell: Decode concurrency and context-pressure class. */
  datatype Key = Key(concurrency: nat, pressure: nat)

  predicate InSurface(key: Key, max: nat) {
    1 <= key.concurrency <= max && key.pressure < PRESSURE_CLASSES
  }

  /** `k` is at least as heavy as `l` in both coordinates. */
  predicate Dominates(k: Key, l: Key) {
    k.concurrency >= l.concurrency && k.pressure >= l.pressure
  }

  /** The order in which a sorted map yields its keys. */
  predicate Before(k: Key, l: Key) {
    k.concurrency < l.concurrency || (k.concurrency == l.concurrency && k.pressure < l.pressure)
  }

  /** The surface in that order: the i-th key, and the place of a key. */
  function KeyAt(i: nat): Key {
    Key(i / PRESSURE_CLASSES + 1, i % PRESSURE_CLASSES)
  }

  function Place(key: Key): nat
    requires key.concurrency > 0
  {
    PRESSURE_CLASSES * (key.concurrency - 1) + key.pressure
  }

  datatype Cell = Cell(log: Log, lastTime: Option<real>, lastQualified: Option<real>)

  const NEW_CELL := Cell(Blank, None, None)

  datatype ProfileCell = ProfileCell(key: Key, longTokens: nat, longSeconds: real,
                                     shortTokens: nat, shortSeconds: real, approved: real)

  datatype Core = Core(maxRunning: nat, reference: real, revision: nat,
                       lastTime: Option<real>, observed: bool, active: nat,
                       log: Log, run: Log, runHasTokens: bool, quarantined: bool,
                       prefillEnd: Option<real>, prefillWall: real, preferenceUntil: real,
                       surface: map<Key, Cell>, prior: map<Key, ProfileCell>, deadline: Option<real>)

  datatype Bound = Bound(value: real, usedLive: bool, usedPrior: bool)

  /** The first seven reasons belong to the core; the scheduler adds the rest. */
  datatype Reason = Fit | ReferenceDisabled | TpsRisk | ColdPrior | Unknown | WaitingLimit
                  | AggregateTpsRisk | OnlineExploration | IdentityTransition | HealthCheck

  datatype Forecast = Forecast(allowed: bool, reason: Reason, observed: bool, reference: real,
                               tps: real, projected: Key, evidence: Option<Key>, active: nat)

  datatype View = View(observed: bool, revision: nat, reference: real,
                       longTokens: nat, longSeconds: real, shortTokens: nat, shortSeconds: real,
                       active: nat, prefillEnd: Option<real>, prefillWall: real, preferenceUntil: real)

  // ---------- Construction ----------

  function New(reference: real, maxRunning: nat): Result<Core> {
    if maxRunning == 0 || reference < 0.0 then Err(Invalid)
    else Ok(Core(maxRunning, reference, 1, None, false, 0, Blank, Blank, false, false,
                 None, 0.0, 0.0, map[], map[], None))
  }

  function Rate(tokens: nat, seconds: real): real
    requires seconds > 0.0
  {
    tokens as real / seconds
  }

  /** The lower of the long rate and, where there is one, the short rate. */
  function DerivedLower(cell: ProfileCell): real
    requires cell.longSeconds > 0.0
  {
    var long := Rate(cell.longTokens, cell.longSeconds);
    if cell.shortSeconds > 0.0 then Min(Rate(cell.shortTokens, cell.shortSeconds), long) else long
  }

  predicate ValidProfileCell(cell: ProfileCell, maxRunning: nat) {
    InSurface(cell.key, maxRunning) &&
    0.0 <= cell.shortSeconds <= cell.longSeconds && MIN_EXPOSURE_SECONDS <= cell.longSeconds &&
    cell.shortTokens <= cell.longTokens &&
    (cell.shortSeconds == 0.0 ==> cell.shortTokens == 0) &&
    0.0 <= cell.approved <= DerivedLower(cell)
  }

  function ImportCells(cells: seq<ProfileCell>, maxRunning: nat): Result<map<Key, ProfileCell>> {
    if cells == [] then Ok(map[])
    else
      var n := |cells| - 1;
      var prior :- ImportCells(cells[..n], maxRunning);
      if ValidProfileCell(cells[n], maxRunning) && cells[n].key !in prior
      then Ok(prior[cells[n].key := cells[n]]) else Err(Invalid)
  }

  function NewWithProfile(reference: real, maxRunning: nat, now: real, ttl: real,
                          cells: seq<ProfileCell>): Result<Core>
  {
    if now < 0.0 || now >= MAX_CLOCK || ttl <= 0.0 then Err(Invalid)
    else if |cells| > maxRunning * PRESSURE_CLASSES || now + ttl >= MAX_CLOCK then Err(Invalid)
    else
      var core :- New(reference, maxRunning);
      var prior :- ImportCells(cells, maxRunning);
      Ok(core.(prior := prior, lastTime := Some(now), deadline := Some(now + ttl)))
  }

  // ---------- The clock ----------

  predicate ClockAccepts(c: Core, now: real) {
    0.0 <= now < MAX_CLOCK && (c.lastTime.Some? ==> c.lastTime.value <= now)
  }

  function AdvanceClock(c: Core, now: real, accumulate: bool): Result<Core> {
    if !ClockAccepts(c, now) then Err(Invalid)
    else if accumulate && c.lastTime.Some? then
      Ok(c.(lastTime := Some(now),
            log := Expose(c.log, c.lastTime.value, now, c.active),
            run := Expose(c.run, c.lastTime.value, now, c.active)))
    else Ok(c.(lastTime := Some(now)))
  }

  function Advance(c: Core, now: real): Result<Core> {
    AdvanceClock(c, now, !c.quarantined)
  }

  // ---------- Evidence ----------

  function WindowTokens(log: Log, now: real, lookback: real): nat {
    Tokens(log, Tick(now - lookback), Tick(now))
  }

  function WindowSeconds(log: Log, now: real, lookback: real): real {
    Seconds(log, Tick(now - lookback), Tick(now))
  }

  function Qualified(cell: Cell, now: real): bool {
    cell.lastQualified.Some? && now - cell.lastQualified.value <= MAX_SURFACE_AGE_SECONDS &&
    WindowSeconds(cell.log, now, WINDOW_SECONDS) >= MIN_EXPOSURE_SECONDS
  }

  function WindowRate(log: Log, now: real, lookback: real): Option<real> {
    var seconds := WindowSeconds(log, now, lookback);
    if seconds > 0.0 then Some(Rate(WindowTokens(log, now, lookback), seconds)) else None
  }

  function LowerBound(log: Log, now: real): Option<real> {
    match (WindowRate(log, now, SHORT_WINDOW_SECONDS), WindowRate(log, now, WINDOW_SECONDS))
    case (Some(short), Some(long)) => Some(Min(short, long))
    case (Some(short), None) => Some(short)
    case (None, long) => long
  }

  /** The short rate once the short window alone is qualified, the lower bound until then. */
  function AdmissionBound(log: Log, now: real): Option<real> {
    if WindowSeconds(log, now, SHORT_WINDOW_SECONDS) >= MIN_EXPOSURE_SECONDS
    then WindowRate(log, now, SHORT_WINDOW_SECONDS)
    else LowerBound(log, now)
  }

  /** The current active run's own bound, which vetoes any forecast above it. */
  function AggregateBound(c: Core, now: real): Option<real> {
    if c.active == 0 || !c.runHasTokens ||
       WindowSeconds(c.run, now, WINDOW_SECONDS) < MIN_EXPOSURE_SECONDS then None
    else
      var short := WindowSeconds(c.run, now, SHORT_WINDOW_SECONDS);
      var shortRate := WindowRate(c.run, now, SHORT_WINDOW_SECONDS);
      var long := Rate(WindowTokens(c.run, now, WINDOW_SECONDS), WindowSeconds(c.run, now, WINDOW_SECONDS));
      if short >= MIN_EXPOSURE_SECONDS then shortRate
      else if short > 0.0 then Some(Min(long, shortRate.value))
      else Some(long)
  }

  // ---------- Observation ----------

  function ObserveCell(cell: Cell, now: real, delta: nat, seconds: real): Result<Cell> {
    if seconds < 0.0 || (delta > 0 && seconds == 0.0) then Err(Invalid)
    else
      var log := Then(cell.log, Sample(Tick(now), delta, seconds));
      if WindowTokens(log, now, WINDOW_SECONDS) >= U64 then Err(Invalid)
      else
        var qualifies := seconds > 0.0 && WindowSeconds(log, now, WINDOW_SECONDS) >= MIN_EXPOSURE_SECONDS;
        Ok(Cell(log, Some(now), if qualifies then Some(now) else cell.lastQualified))
  }

  function RecordTokens(c: Core, now: real, delta: nat): Result<Core> {
    var log := Then(c.log, Sample(Tick(now), delta, 0.0));
    if WindowTokens(log, now, WINDOW_SECONDS) >= U64 then Err(Invalid) else Ok(c.(log := log))
  }

  /** A run starts when Decode resumes from idle; only tokens of a run are its evidence. */
  function UpdateActiveRun(c: Core, before: nat, after: nat, now: real, delta: nat): Result<Core> {
    var c' := if before == 0 && after > 0 then c.(run := Blank, runHasTokens := false) else c;
    if delta > 0 && (before > 0 || after > 0) then
      if Tokens(c'.run, Tick(now), Tick(now)) + delta >= U64 then Err(Invalid)
      else Ok(c'.(run := Then(c'.run, Sample(Tick(now), delta, 0.0)), runHasTokens := true))
    else Ok(c')
  }

  /** What every accepted observation does once the clock is at `now`. */
  function Record(c: Core, now: real, delta: nat, after: nat): Result<Core> {
    var c1 :- RecordTokens(c, now, delta);
    var c2 :- UpdateActiveRun(c1, c.active, after, now, delta);
    Ok(c2.(active := after, observed := true))
  }

  function Observe(c: Core, now: real, delta: nat, after: nat): Result<Core> {
    if after > c.maxRunning then Err(Invalid)
    else
      var c1 :- Advance(c, now);
      Record(c1, now, delta, after)
  }

  function Quarantine(c: Core, now: real, after: nat, enabled: bool): Result<Core> {
    if after > c.maxRunning then Err(Invalid)
    else
      var c1 :- AdvanceClock(c, now, false);
      Ok(c1.(active := after, run := Blank, runHasTokens := false, quarantined := enabled))
  }

  function CellAt(c: Core, key: Key): Cell {
    if key in c.surface then c.surface[key] else NEW_CELL
  }

  predicate ChargeAccepted(c: Core, delta: nat, seconds: real, key: Key) {
    InSurface(key, c.maxRunning) && seconds >= 0.0 && (delta > 0 ==> seconds > 0.0)
  }

  function ObserveSurface(c: Core, now: real, delta: nat, seconds: real, key: Key): Result<Core> {
    if !ChargeAccepted(c, delta, seconds, key) then Err(Invalid)
    else
      var c1 :- Advance(c, now);
      var cell :- ObserveCell(CellAt(c1, key), now, delta, seconds);
      Ok(c1.(surface := c1.surface[key := cell], observed := true))
  }

  function ObserveBatch(c: Core, now: real, delta: nat, seconds: real, key: Key, after: nat): Result<Core> {
    if !ChargeAccepted(c, delta, seconds, key) || after > c.maxRunning then Err(Invalid)
    else
      var c1 :- Advance(c, now);
      var cell :- ObserveCell(CellAt(c1, key), now, delta, seconds);
      Record(c1.(surface := c1.surface[key := cell]), now, delta, after)
  }

  /** Every running request retires at once; the entrants' run starts with no evidence. */
  function ObserveReplacement(c: Core, now: real, delta: nat, seconds: real, key: Key, after: nat): Result<Core> {
    if c.active == 0 || key.concurrency != c.active || after > c.maxRunning ||
       key.pressure >= PRESSURE_CLASSES || seconds < 0.0 || (seconds == 0.0 && delta != 0) then Err(Invalid)
    else
      var c1 :- if seconds > 0.0 then ObserveBatch(c, now, delta, seconds, key, after)
                else Observe(c, now, 0, after);
      Ok(c1.(run := Blank, runHasTokens := false))
  }

  function Prefill(c: Core, now: real, wall: real): Result<Core> {
    if wall <= 0.0 || wall > now then Err(Invalid)
    else
      var c1 :- Advance(c, now);
      Ok(c1.(prefillEnd := Some(now), prefillWall := wall, preferenceUntil := 0.0))
  }

  function UpdateReference(c: Core, revision: nat, reference: real): Result<Core> {
    if reference < 0.0 then Err(Invalid)
    else if revision != c.revision then Err(Conflict)
    else if c.revision + 1 >= U64 then Err(Invalid)
    else Ok(c.(revision := c.revision + 1, reference := reference, preferenceUntil := 0.0))
  }

  /** Forget everything observed; policy survives. The clock may restart anywhere. */
  function StartSurfaceEpoch(c: Core, now: real, after: nat): Result<Core> {
    if now < 0.0 || now >= MAX_CLOCK || after > c.maxRunning then Err(Invalid)
    else Ok(Core(c.maxRunning, c.reference, c.revision, Some(now), false, after, Blank, Blank, false, false,
                 None, 0.0, 0.0, map[], map[], None))
  }

  // ---------- Forecasts ----------

  predicate PriorActive(c: Core, now: real) {
    c.deadline.Some? && now < c.deadline.value
  }

  function LiveBound(c: Core, now: real, key: Key): Option<real> {
    if key in c.surface then AdmissionBound(c.surface[key].log, now) else None
  }

  function LiveQualified(c: Core, now: real, key: Key): bool {
    key in c.surface && Qualified(c.surface[key], now)
  }

  function PriorBound(c: Core, now: real, key: Key): Option<real> {
    if PriorActive(c, now) && key in c.prior then Some(c.prior[key].approved) else None
  }

  /** A slow retired cell may be probed again from its prior: one vacated slot, a
      quiet short window, and a current run with evidence of its own. */
  predicate Reprobes(c: Core, now: real, key: Key) {
    key in c.surface && c.surface[key].lastTime.Some? &&
    LiveBound(c, now, key).Some? && PriorBound(c, now, key).Some? &&
    LiveBound(c, now, key).value < c.reference <= PriorBound(c, now, key).value &&
    now - c.surface[key].lastTime.value >= SHORT_WINDOW_SECONDS &&
    key.concurrency == c.active + 1 && AggregateBound(c, now).Some?
  }

  function BoundFor(c: Core, now: real, key: Key): Option<Bound> {
    match (LiveBound(c, now, key), PriorBound(c, now, key))
    case (Some(live), Some(prior)) =>
      if live < prior then
        if Reprobes(c, now, key) then Some(Bound(prior, false, true)) else Some(Bound(live, true, false))
      else Some(Bound(prior, LiveQualified(c, now, key), true))
    case (Some(live), None) =>
      if LiveQualified(c, now, key) then Some(Bound(live, true, false)) else None
    case (None, Some(prior)) => Some(Bound(prior, false, true))
    case (None, None) => None
  }

  predicate LiveEvidence(c: Core, now: real, key: Key) {
    LiveQualified(c, now, key) && LowerBound(c.surface[key].log, now).Some?
  }

  function HasQualifiedLive(c: Core, now: real): bool {
    exists key :: key in c.surface && LiveEvidence(c, now, key)
  }

  /** The least bound among the first n keys that dominate `want`, the earliest key on ties. */
  function LeastBound(c: Core, now: real, want: Key, n: nat): Option<(Key, Bound)> {
    if n == 0 then None
    else
      var best := LeastBound(c, now, want, n - 1);
      var key := KeyAt(n - 1);
      if !Dominates(key, want) then best
      else match BoundFor(c, now, key)
        case None => best
        case Some(bound) =>
          if best.None? || bound.value < best.value.1.value then Some((key, bound)) else best
  }

  function Select(c: Core, now: real, want: Key): Option<(Key, Bound)> {
    match BoundFor(c, now, want)
    case Some(bound) => Some((want, bound))
    case None => LeastBound(c, now, want, PRESSURE_CLASSES * c.maxRunning)
  }

  /** The decision at an already advanced clock. */
  function Decide(c: Core, now: real, want: Key): Forecast {
    if c.reference == 0.0 then
      Forecast(true, ReferenceDisabled, HasQualifiedLive(c, now), c.reference, 0.0, want, None, c.active)
    else
      match Select(c, now, want)
      case None => Forecast(false, Unknown, false, c.reference, 0.0, want, None, c.active)
      case Some((key, bound)) =>
        if bound.value < c.reference then
          Forecast(false, TpsRisk, bound.usedLive, c.reference, bound.value, want, Some(key), c.active)
        else
          match AggregateBound(c, now)
          case Some(aggregate) =>
            if aggregate < c.reference then
              Forecast(false, AggregateTpsRisk, true, c.reference, aggregate, want, None, c.active)
            else Granted(c, want, key, bound)
          case None => Granted(c, want, key, bound)
  }

  function Granted(c: Core, want: Key, key: Key, bound: Bound): Forecast {
    Forecast(true, if bound.usedPrior && !bound.usedLive then ColdPrior else Fit,
             bound.usedLive, c.reference, bound.value, want, Some(key), c.active)
  }

  function Admit(c: Core, now: real, want: Key): Result<(Core, Forecast)> {
    if !InSurface(want, c.maxRunning) then Err(Invalid)
    else
      var c1 :- Advance(c, now);
      Ok((c1, Decide(c1, now, want)))
  }

  // ---------- Reading out ----------

  function ViewAt(c: Core, now: real): View {
    View(c.observed, c.revision, c.reference,
         WindowTokens(c.log, now, WINDOW_SECONDS), WindowSeconds(c.log, now, WINDOW_SECONDS),
         WindowTokens(c.log, now, SHORT_WINDOW_SECONDS), WindowSeconds(c.log, now, SHORT_WINDOW_SECONDS),
         c.active, c.prefillEnd, c.prefillWall, c.preferenceUntil)
  }

  function Snapshot(c: Core, now: real): Result<(Core, View)> {
    var c1 :- Advance(c, now);
    Ok((c1, ViewAt(c1, now)))
  }

  function ExportCell(c: Core, now: real, key: Key): ProfileCell
    requires LiveEvidence(c, now, key)
  {
    var log := c.surface[key].log;
    ProfileCell(key, WindowTokens(log, now, WINDOW_SECONDS), WindowSeconds(log, now, WINDOW_SECONDS),
                WindowTokens(log, now, SHORT_WINDOW_SECONDS), WindowSeconds(log, now, SHORT_WINDOW_SECONDS),
                LowerBound(log, now).value)
  }

  /** The live evidence among the first n keys, in key order. */
  function ExportFirst(c: Core, now: real, n: nat): seq<ProfileCell> {
    if n == 0 then []
    else
      ExportFirst(c, now, n - 1) +
      (if LiveEvidence(c, now, KeyAt(n - 1)) then [ExportCell(c, now, KeyAt(n - 1))] else [])
  }

  function ExportAll(c: Core, now: real): seq<ProfileCell> {
    ExportFirst(c, now, PRESSURE_CLASSES * c.maxRunning)
  }

  function Export(c: Core, now: real, capacity: nat): Result<(Core, seq<ProfileCell>)> {
    var c1 :- Advance(c, now);
    if |ExportAll(c1, now)| > capacity then Err(Invalid) else Ok((c1, ExportAll(c1, now)))
  }

  /** The blend of the long and short rates that a Prefill preference answers to. */
  function Signal(view: View): real
    requires view.longSeconds > 0.0 && view.shortSeconds >= 0.0
  {
    var mean := Rate(view.longTokens, view.longSeconds);
    if view.shortSeconds > 0.0 then
      var weight := view.shortSeconds / (view.shortSeconds + 1.0);
      mean * (1.0 - weight) + Rate(view.shortTokens, view.shortSeconds) * weight
    else mean
  }

  function Requested(wall: real, reference: real, signal: real): real {
    if signal == 0.0 then MAX_PREFERENCE_SECONDS
    else Min(wall * Max(reference / signal - 1.0, 0.0), MAX_PREFERENCE_SECONDS)
  }

  /** How long after a Prefill ends Decode is preferred. */
  function Duration(view: View, age: real): real
    requires view.longSeconds > 0.0 && view.shortSeconds >= 0.0 && age >= 0.0
  {
    Requested(view.prefillWall, view.reference, Signal(view))
      * (view.longSeconds / (view.longSeconds + 1.0)) / (1.0 + age / MAX_PREFERENCE_SECONDS)
  }

  predicate Weighs(view: View, decode: bool, prefill: bool) {
    view.prefillEnd.Some? && decode && prefill && view.reference != 0.0 && view.observed &&
    view.longSeconds > 0.0 && view.shortSeconds >= 0.0
  }

  function Choose(c: Core, now: real, decode: bool, prefill: bool, age: real): Result<(Core, bool)> {
    if age < 0.0 then Err(Invalid)
    else
      var (c1, view) :- Snapshot(c, now);
      if !Weighs(view, decode, prefill) then Ok((c1.(preferenceUntil := 0.0), false))
      else
        var duration := Duration(view, age);
        Ok((c1.(preferenceUntil := c1.prefillEnd.value + duration), now - c1.prefillEnd.value < duration))
  }
}
