/** What each operation of the controller amounts to, in tokens, seconds and requests alone: laws that
    determine the operation without naming how it is computed. */
module CoreLaws {
  import opened Wrappers
  import opened Ticks
  import opened Ledger
  import opened CoreSpec
  import opened CoreRuns
  import opened Forecasts
  import Profile

  // ---------- Windows and rates ----------

  /** What the 60 s and 2 s windows hold: the last 121 ticks, and the last 5. */
  datatype Windows = Windows(longTokens: nat, longSeconds: real, shortTokens: nat, shortSeconds: real)

  function Held(log: Log, now: real): Windows {
    Windows(Tokens(log, Tick(now) - 120, Tick(now)), Seconds(log, Tick(now) - 120, Tick(now)),
            Tokens(log, Tick(now) - 4, Tick(now)), Seconds(log, Tick(now) - 4, Tick(now)))
  }

  lemma WindowsHeld(log: Log, now: real)
    ensures Held(log, now) ==
      Windows(WindowTokens(log, now, WINDOW_SECONDS), WindowSeconds(log, now, WINDOW_SECONDS),
              WindowTokens(log, now, SHORT_WINDOW_SECONDS), WindowSeconds(log, now, SHORT_WINDOW_SECONDS))
  {
    WindowTicks(now);
  }

  lemma HeldNonnegative(log: Log, t: real, now: real)
    requires Until(log, t)
    ensures 0.0 <= Held(log, now).shortSeconds <= Held(log, now).longSeconds
    ensures Held(log, now).shortTokens <= Held(log, now).longTokens
  {
    SecondsNonnegative(log, t, Tick(now) - 4, Tick(now));
    WiderWindow(log, t, Tick(now) - 4, Tick(now), Tick(now) - 120, Tick(now));
  }

  /** Over these seconds the rate makes just these tokens. */
  predicate IsRate(rate: real, tokens: nat, seconds: real) {
    seconds > 0.0 && rate * seconds == tokens as real
  }

  /** The least of the rates of the windows that hold any time. */
  predicate IsLeastRate(rate: real, w: Windows) {
    (w.longSeconds > 0.0 ==> rate * w.longSeconds <= w.longTokens as real) &&
    (w.shortSeconds > 0.0 ==> rate * w.shortSeconds <= w.shortTokens as real) &&
    (IsRate(rate, w.longTokens, w.longSeconds) || IsRate(rate, w.shortTokens, w.shortSeconds))
  }

  lemma RateIsRate(tokens: nat, seconds: real)
    requires seconds > 0.0
    ensures IsRate(Rate(tokens, seconds), tokens, seconds)
  {
  }

  lemma LowerRate(rate: real, lower: real, tokens: nat, seconds: real)
    requires IsRate(rate, tokens, seconds) && lower <= rate
    ensures lower * seconds <= tokens as real
  {
    ProductNonnegative(rate - lower, seconds);
    assert (rate - lower) * seconds == rate * seconds - lower * seconds;
  }

  lemma LeastOfTwo(w: Windows)
    requires w.longSeconds > 0.0 && w.shortSeconds > 0.0
    ensures IsLeastRate(Min(Rate(w.shortTokens, w.shortSeconds), Rate(w.longTokens, w.longSeconds)), w)
  {
    hide IsRate, Rate;
    var short, long := Rate(w.shortTokens, w.shortSeconds), Rate(w.longTokens, w.longSeconds);
    RateIsRate(w.shortTokens, w.shortSeconds);
    RateIsRate(w.longTokens, w.longSeconds);
    LowerRate(short, Min(short, long), w.shortTokens, w.shortSeconds);
    LowerRate(long, Min(short, long), w.longTokens, w.longSeconds);
  }

  /** The lower bound is the least rate, and there is one exactly when a window holds time. */
  lemma LowerBoundLaw(log: Log, now: real)
    ensures var w := Held(log, now);
      match LowerBound(log, now)
      case None => w.longSeconds <= 0.0 && w.shortSeconds <= 0.0
      case Some(rate) => IsLeastRate(rate, w)
  {
    hide IsRate, Rate, WindowTokens, WindowSeconds, Held;
    WindowsHeld(log, now);
    var w := Held(log, now);
    if w.longSeconds > 0.0 { RateIsRate(w.longTokens, w.longSeconds); SelfRate(w.longTokens, w.longSeconds); }
    if w.shortSeconds > 0.0 { RateIsRate(w.shortTokens, w.shortSeconds); SelfRate(w.shortTokens, w.shortSeconds); }
    if w.longSeconds > 0.0 && w.shortSeconds > 0.0 { LeastOfTwo(w); }
  }

  lemma SelfRate(tokens: nat, seconds: real)
    requires seconds > 0.0
    ensures Rate(tokens, seconds) * seconds <= tokens as real
  {
  }

  /** A cell's live bound is its short rate once the 2 s window alone carries the minimum exposure, and the least
      rate until then. */
  lemma AdmissionBoundLaw(log: Log, now: real)
    ensures var w := Held(log, now);
      match AdmissionBound(log, now)
      case None => w.longSeconds <= 0.0 && w.shortSeconds <= 0.0
      case Some(rate) =>
        if w.shortSeconds >= MIN_EXPOSURE_SECONDS then IsRate(rate, w.shortTokens, w.shortSeconds)
        else IsLeastRate(rate, w)
  {
    hide IsRate, Rate, WindowTokens, WindowSeconds, Held, LowerBound, IsLeastRate;
    WindowsHeld(log, now);
    LowerBoundLaw(log, now);
    var w := Held(log, now);
    if w.shortSeconds >= MIN_EXPOSURE_SECONDS {
      RateIsRate(w.shortTokens, w.shortSeconds);
    }
  }

  /** The current run's bound: none without a run of its own evidence; then its short rate once that alone is
      qualified, and the least rate until then. */
  lemma AggregateBoundLaw(c: Core, now: real)
    ensures var w := Held(c.run, now);
      match AggregateBound(c, now)
      case None => c.active == 0 || !c.runHasTokens || w.longSeconds < MIN_EXPOSURE_SECONDS
      case Some(rate) =>
        c.active > 0 && c.runHasTokens && w.longSeconds >= MIN_EXPOSURE_SECONDS &&
        if w.shortSeconds >= MIN_EXPOSURE_SECONDS then IsRate(rate, w.shortTokens, w.shortSeconds)
        else IsLeastRate(rate, w)
  {
    hide IsRate, Rate, WindowTokens, WindowSeconds, Held;
    WindowsHeld(c.run, now);
    var w := Held(c.run, now);
    if w.longSeconds > 0.0 { RateIsRate(w.longTokens, w.longSeconds); SelfRate(w.longTokens, w.longSeconds); }
    if w.shortSeconds > 0.0 { RateIsRate(w.shortTokens, w.shortSeconds); }
    if w.longSeconds > 0.0 && w.shortSeconds > 0.0 { LeastOfTwo(w); }
  }

  // ---------- One key's bound ----------

  /** Fresh enough evidence: charged within the last 60 s to a qualified window, which still is one. */
  lemma QualifiedLaw(cell: Cell, now: real)
    ensures Qualified(cell, now) <==>
      cell.lastQualified.Some? && now - 60.0 <= cell.lastQualified.value && Held(cell.log, now).longSeconds >= 0.1
  {
    WindowsHeld(cell.log, now);
  }

  /** A prior counts until the deadline it was imported with, and says its approved rate. */
  lemma PriorBoundLaw(c: Core, now: real, key: Key)
    ensures PriorBound(c, now, key) ==
      if c.deadline.Some? && now < c.deadline.value && key in c.prior then Some(c.prior[key].approved) else None
  {
  }

  /** One vacated slot of a slow retired cell, under a run with evidence of its own. */
  predicate Refills(c: Core, now: real, key: Key, live: real, prior: real) {
    live < c.reference <= prior && key.concurrency == c.active + 1 && AggregateBound(c, now).Some? &&
    key in c.surface && c.surface[key].lastTime.Some? && c.surface[key].lastTime.value + 2.0 <= now
  }

  /** Live and prior evidence of one key: the lower counts, unless a slot is being refilled; unqualified live
      evidence alone does not, but can lower a prior. */
  lemma BoundLaw(c: Core, now: real, key: Key)
    ensures var live := if key in c.surface then AdmissionBound(c.surface[key].log, now) else None;
      var qualified := key in c.surface && Qualified(c.surface[key], now);
      var prior := PriorBound(c, now, key);
      match BoundFor(c, now, key)
      case None => prior.None? && (live.None? || !qualified)
      case Some(b) =>
        var lowers := live.Some? && prior.Some? && live.value < prior.value;
        var refills := lowers && Refills(c, now, key, live.value, prior.value);
        var byLive := prior.None? || (lowers && !refills);
        (byLive ==> live.Some? && b.value == live.value && b.usedLive && !b.usedPrior && (prior.None? ==> qualified)) &&
        (!byLive ==> prior.Some? && b.value == prior.value && b.usedPrior &&
                     (b.usedLive <==> live.Some? && qualified && !refills))
  {
    hide Qualified, AdmissionBound, AggregateBound;
  }

  /** Live evidence alone decides by tokens and seconds: with the 2 s window qualified, its tokens must reach the
      reference over its seconds; until then every window that holds time must. */
  lemma LiveAdmissionLaw(c: Core, now: real, want: Key)
    requires Sound(c) && c.reference > 0.0 && !PriorActive(c, now) && LiveEvidence(c, now, want)
    requires AggregateBound(c, now).None? || AggregateBound(c, now).value >= c.reference
    ensures var w := Held(c.surface[want].log, now);
      Decide(c, now, want).allowed <==>
        if w.shortSeconds >= MIN_EXPOSURE_SECONDS then w.shortTokens as real >= c.reference * w.shortSeconds
        else (w.longSeconds > 0.0 ==> w.longTokens as real >= c.reference * w.longSeconds) &&
             (w.shortSeconds > 0.0 ==> w.shortTokens as real >= c.reference * w.shortSeconds)
  {
    hide Sound, AdmissionBound, Held, IsRate, IsLeastRate, Qualified, LowerBound, AggregateBound;
    var log := c.surface[want].log;
    AdmissionBoundLaw(log, now);
    LiveWindow(c, now, want);
    BoundLaw(c, now, want);
    var bound := AdmissionBound(log, now).value;
    ReachLaw(bound, c.reference, Held(log, now));
  }

  lemma LiveWindow(c: Core, now: real, want: Key)
    requires LiveEvidence(c, now, want)
    ensures Held(c.surface[want].log, now).longSeconds >= MIN_EXPOSURE_SECONDS && Qualified(c.surface[want], now)
  {
    QualifiedLaw(c.surface[want], now);
  }

  lemma ReachLaw(bound: real, reference: real, w: Windows)
    requires w.longSeconds >= MIN_EXPOSURE_SECONDS
    requires if w.shortSeconds >= MIN_EXPOSURE_SECONDS then IsRate(bound, w.shortTokens, w.shortSeconds)
             else IsLeastRate(bound, w)
    ensures bound >= reference <==>
      if w.shortSeconds >= MIN_EXPOSURE_SECONDS then w.shortTokens as real >= reference * w.shortSeconds
      else (w.longSeconds > 0.0 ==> w.longTokens as real >= reference * w.longSeconds) &&
           (w.shortSeconds > 0.0 ==> w.shortTokens as real >= reference * w.shortSeconds)
  {
    Reaches(bound, reference, w.shortSeconds);
    Reaches(bound, reference, w.longSeconds);
  }

  lemma Reaches(bound: real, reference: real, seconds: real)
    ensures seconds > 0.0 ==> (bound >= reference <==> bound * seconds >= reference * seconds)
  {
    if seconds > 0.0 {
      assert (bound - reference) * seconds == bound * seconds - reference * seconds;
      if bound >= reference {
        ProductNonnegative(bound - reference, seconds);
      } else {
        ScaleStrict(reference - bound, seconds);
        assert (reference - bound) * seconds == reference * seconds - bound * seconds;
      }
    }
  }

  /** At least as many requests and as heavy a class. */
  predicate AsHeavy(k: Key, want: Key) {
    want.concurrency <= k.concurrency && want.pressure <= k.pressure
  }

  /** The evidence of an admission: the key's own bound; else the least bound of the keys at least as heavy, and of
      those with that bound the one with fewest requests, then the lightest class. */
  lemma EvidenceLaw(c: Core, now: real, want: Key)
    requires Sound(c)
    ensures match Select(c, now, want)
      case None => forall k :: AsHeavy(k, want) ==> BoundFor(c, now, k).None?
      case Some((key, bound)) =>
        BoundFor(c, now, key) == Some(bound) && AsHeavy(key, want) &&
        (BoundFor(c, now, want).Some? ==> key == want) &&
        (BoundFor(c, now, want).None? ==> forall k ::
          AsHeavy(k, want) && BoundFor(c, now, k).Some? ==>
            bound.value <= BoundFor(c, now, k).value.value &&
            (bound.value == BoundFor(c, now, k).value.value ==>
              key.concurrency < k.concurrency || (key.concurrency == k.concurrency && key.pressure <= k.pressure)))
  {
    hide Sound, BoundFor, Select;
    SelectMeaning(c, now, want);
  }

  /** A key is covered exactly when some cell is at least as heavy. */
  lemma CoveredLaw(cells: seq<ProfileCell>, want: Key)
    ensures Profile.Covers(cells, want) <==> exists i :: 0 <= i < |cells| && AsHeavy(cells[i].key, want)
  {
    if i :| 0 <= i < |cells| && AsHeavy(cells[i].key, want) {
      assert cells[i] in cells && Dominates(cells[i].key, want);
    }
  }

  // ---------- The decision ----------

  /** Every field of the decision, by which evidence there is and whether it reaches the reference. */
  lemma DecisionLaw(c: Core, now: real, want: Key)
    requires Sound(c)
    ensures var f := Decide(c, now, want);
      var aggregate := AggregateBound(c, now);
      f.projected == want && f.active == c.active && f.reference == c.reference &&
      (c.reference == 0.0 ==>
        f.allowed && f.reason == ReferenceDisabled && f.tps == 0.0 && f.evidence.None? &&
        (f.observed <==> exists key :: LiveEvidence(c, now, key))) &&
      (c.reference > 0.0 && (forall key :: !Selected(c, now, want, key)) ==>
        !f.allowed && f.reason == Unknown && f.tps == 0.0 && f.evidence.None? && !f.observed) &&
      (c.reference > 0.0 ==> forall key :: Selected(c, now, want, key) ==>
        var b := BoundFor(c, now, key).value;
        if b.value < c.reference then
          !f.allowed && f.reason == TpsRisk && f.tps == b.value && f.evidence == Some(key) && f.observed == b.usedLive
        else if aggregate.Some? && aggregate.value < c.reference then
          !f.allowed && f.reason == AggregateTpsRisk && f.tps == aggregate.value && f.evidence.None? && f.observed
        else
          f.allowed && f.tps == b.value && f.evidence == Some(key) && f.observed == b.usedLive &&
          f.reason == if b.usedPrior && !b.usedLive then ColdPrior else Fit)
  {
    hide Sound, Selected, Select, BoundFor, AggregateBound;
    forall key | Selected(c, now, want, key)
      ensures Select(c, now, want).Some? && BoundFor(c, now, key) == Some(Select(c, now, want).value.1)
      ensures Select(c, now, want).value.0 == key
    {
      SelectedKey(c, now, want, key);
    }
    SelectMeaning(c, now, want);
  }

  lemma SelectedKey(c: Core, now: real, want: Key, key: Key)
    requires Sound(c) && Selected(c, now, want, key)
    ensures BoundFor(c, now, key).Some? && Select(c, now, want) == Some((key, BoundFor(c, now, key).value))
  {
    SelectMeaning(c, now, want);
    if Select(c, now, want).Some? {
      SelectedUnique(c, now, want, key, Select(c, now, want).value.0);
    }
  }

  // ---------- Observations ----------

  /** The second log is the first with tokens and seconds added at tick `k`. */
  ghost predicate Adds(a: Log, b: Log, k: int, tokens: nat, seconds: real) {
    forall first, last :: first <= last + 1 ==>
      Tokens(b, first, last) == Tokens(a, first, last) + (if first <= k <= last then tokens else 0) &&
      Seconds(b, first, last) == Seconds(a, first, last) + (if first <= k <= last then seconds else 0.0)
  }

  /** The second log is the first with `active` sequences charged over [from, to]. */
  ghost predicate Charges(a: Log, b: Log, from: real, to: real, active: nat) {
    forall first, last :: first <= last + 1 ==>
      Tokens(b, first, last) == Tokens(a, first, last) &&
      Seconds(b, first, last) ==
        Seconds(a, first, last) + active as real * Meet(from, to, Edge(first), Edge(last + 1))
  }

  ghost predicate Silent(log: Log) {
    forall first, last :: Tokens(log, first, last) == 0 && Seconds(log, first, last) == 0.0
  }

  lemma SampleLaw(log: Log, k: int, tokens: nat, seconds: real)
    ensures Adds(log, Then(log, Sample(k, tokens, seconds)), k, tokens, seconds)
  {
  }

  /** The clock moves; aggregate and run are charged for the active sequences outside quarantine, nothing else. */
  lemma ClockLaw(c: Core, now: real)
    requires Sound(c)
    ensures Advance(c, now).Ok? <==> 0.0 <= now < MAX_CLOCK && (c.lastTime.Some? ==> c.lastTime.value <= now)
    ensures Advance(c, now).Ok? ==>
      var d := Advance(c, now).value;
      d == c.(lastTime := Some(now), log := d.log, run := d.run) &&
      if c.quarantined || c.lastTime.None? then d.log == c.log && d.run == c.run
      else Charges(c.log, d.log, c.lastTime.value, now, c.active) &&
           Charges(c.run, d.run, c.lastTime.value, now, c.active)
  {
    if Advance(c, now).Ok? && !c.quarantined && c.lastTime.Some? {
      SpanLaw(c.log, c.lastTime.value, now, c.active);
      SpanLaw(c.run, c.lastTime.value, now, c.active);
    }
  }

  lemma SpanLaw(log: Log, from: real, to: real, active: nat)
    requires Until(log, from) && 0.0 <= from <= to
    ensures Charges(log, Expose(log, from, to, active), from, to, active)
  {
    hide Until, Expose, Tokens, Seconds, EntrySeconds;
    forall first, last | first <= last + 1
      ensures Tokens(Expose(log, from, to, active), first, last) == Tokens(log, first, last)
      ensures Seconds(Expose(log, from, to, active), first, last)
           == Seconds(log, first, last) + active as real * Meet(from, to, Edge(first), Edge(last + 1))
    {
      ExposeAdds(log, from, to, active, first, last);
      SpanSeconds(from, to, active, first, last);
    }
  }

  lemma SpanSeconds(from: real, to: real, active: nat, first: int, last: int)
    ensures EntrySeconds(Exposed(from, to, active), first, last)
         == active as real * Meet(from, to, Edge(first), Edge(last + 1))
  {
  }

  /** A charge to a cell: refused for tokens without time or a full window; else added at its tick, and qualifying
      when it brings time to a window with enough of it. */
  lemma ChargeLaw(cell: Cell, now: real, delta: nat, seconds: real)
    ensures match ObserveCell(cell, now, delta, seconds)
      case Err(e) =>
        e == Invalid &&
        (seconds < 0.0 || (delta > 0 && seconds == 0.0) || Held(cell.log, now).longTokens + delta >= U64)
      case Ok(d) =>
        seconds >= 0.0 && (delta > 0 ==> seconds > 0.0) && Held(cell.log, now).longTokens + delta < U64 &&
        Adds(cell.log, d.log, Tick(now), delta, seconds) && d.lastTime == Some(now) &&
        d.lastQualified ==
          if seconds > 0.0 && Held(cell.log, now).longSeconds + seconds >= 0.1 then Some(now) else cell.lastQualified
  {
    hide Adds;
    var log := Then(cell.log, Sample(Tick(now), delta, seconds));
    WindowsHeld(log, now);
    SampleLaw(cell.log, Tick(now), delta, seconds);
  }

  /** Tokens of an observation go to the aggregate, and to the run while one is on; resuming from idle begins it. */
  ghost predicate Recorded(c: Core, d: Core, now: real, delta: nat, after: nat) {
    var running := c.active > 0 || after > 0;
    var resumes := c.active == 0 && after > 0;
    Adds(c.log, d.log, Tick(now), delta, 0.0) && d.active == after && d.observed &&
    (d.runHasTokens <==> (delta > 0 && running) || (c.runHasTokens && !resumes)) &&
    Adds(if resumes then Blank else c.run, d.run, Tick(now), if running then delta else 0, 0.0) &&
    d == c.(log := d.log, run := d.run, runHasTokens := d.runHasTokens, active := after, observed := true)
  }

  lemma NothingAdded(log: Log, k: int)
    ensures Adds(log, log, k, 0, 0.0)
  {
  }

  lemma RecordLaw(c: Core, now: real, delta: nat, after: nat)
    requires Record(c, now, delta, after).Ok?
    ensures Recorded(c, Record(c, now, delta, after).value, now, delta, after)
  {
    hide Adds, WindowTokens;
    SampleLaw(c.log, Tick(now), delta, 0.0);
    var base := if c.active == 0 && after > 0 then Blank else c.run;
    SampleLaw(base, Tick(now), delta, 0.0);
    NothingAdded(base, Tick(now));
  }

  lemma BlankSilent()
    ensures Silent(Blank)
  {
  }

  lemma ObserveLaw(c: Core, now: real, delta: nat, after: nat)
    requires Observe(c, now, delta, after).Ok?
    ensures Advance(c, now).Ok? &&
      Recorded(Advance(c, now).value, Observe(c, now, delta, after).value, now, delta, after)
  {
    hide Record, Advance, Recorded;
    RecordLaw(Advance(c, now).value, now, delta, after);
  }

  /** A batch charges one cell and records its tokens; no other cell changes. */
  lemma BatchLaw(c: Core, now: real, delta: nat, seconds: real, key: Key, after: nat)
    requires ObserveBatch(c, now, delta, seconds, key, after).Ok?
    ensures var d := ObserveBatch(c, now, delta, seconds, key, after).value;
      Advance(c, now).Ok? &&
      var c1 := Advance(c, now).value;
      var cell := ObserveCell(CellAt(c, key), now, delta, seconds);
      cell.Ok? && d.surface == c.surface[key := cell.value] &&
      Recorded(c1.(surface := d.surface), d, now, delta, after)
  {
    hide Record, Recorded, ObserveCell;
    var c1 := Advance(c, now).value;
    var cell := ObserveCell(CellAt(c1, key), now, delta, seconds);
    RecordLaw(c1.(surface := c1.surface[key := cell.value]), now, delta, after);
    RecordPolicy(c1.(surface := c1.surface[key := cell.value]), now, delta, after);
  }

  lemma RecordPolicy(c: Core, now: real, delta: nat, after: nat)
    requires Record(c, now, delta, after).Ok?
    ensures Record(c, now, delta, after).value.surface == c.surface
  {
  }

  /** A cell that was never charged holds nothing. */
  lemma CellAtLaw(c: Core, key: Key)
    ensures if key in c.surface then CellAt(c, key) == c.surface[key]
            else Silent(CellAt(c, key).log) && CellAt(c, key).lastTime.None? && CellAt(c, key).lastQualified.None?
  {
    BlankSilent();
  }

  /** A surface observation charges one cell and nothing else. */
  lemma SurfaceLaw(c: Core, now: real, delta: nat, seconds: real, key: Key)
    requires ObserveSurface(c, now, delta, seconds, key).Ok?
    ensures var d := ObserveSurface(c, now, delta, seconds, key).value;
      var cell := ObserveCell(CellAt(c, key), now, delta, seconds);
      Advance(c, now).Ok? && cell.Ok? && InSurface(key, c.maxRunning) &&
      d == Advance(c, now).value.(surface := c.surface[key := cell.value], observed := true)
  {
    hide ObserveCell;
  }

  /** A replacement is the batch, or the plain observation when no time passed, after which the run is empty. */
  lemma ReplacementLaw(c: Core, now: real, delta: nat, seconds: real, key: Key, after: nat)
    requires ObserveReplacement(c, now, delta, seconds, key, after).Ok?
    ensures var d := ObserveReplacement(c, now, delta, seconds, key, after).value;
      c.active > 0 && key.concurrency == c.active && key.pressure < 4 && after <= c.maxRunning &&
      Silent(d.run) && !d.runHasTokens &&
      exists e: Core :: d == e.(run := d.run, runHasTokens := false) &&
        (if seconds > 0.0 then ObserveBatch(c, now, delta, seconds, key, after) == Ok(e)
         else delta == 0 && seconds == 0.0 && Observe(c, now, 0, after) == Ok(e))
  {
    hide ObserveBatch, Observe;
    BlankSilent();
  }

  /** A quarantine moves the clock without charging, ends the run, and touches no other evidence or policy. */
  lemma QuarantineLaw(c: Core, now: real, after: nat, enabled: bool)
    ensures match Quarantine(c, now, after, enabled)
      case Err(e) => e == Invalid && (after > c.maxRunning || !ClockAccepts(c, now))
      case Ok(d) =>
        after <= c.maxRunning && ClockAccepts(c, now) && Silent(d.run) &&
        d == c.(lastTime := Some(now), active := after, run := d.run, runHasTokens := false, quarantined := enabled)
  {
    BlankSilent();
  }

  /** A Prefill report: its end and wall, and no preference yet. */
  lemma PrefillLaw(c: Core, now: real, wall: real)
    ensures match Prefill(c, now, wall)
      case Err(e) => e == Invalid && (wall <= 0.0 || wall > now || !ClockAccepts(c, now))
      case Ok(d) =>
        0.0 < wall <= now && ClockAccepts(c, now) &&
        d == Advance(c, now).value.(prefillEnd := Some(now), prefillWall := wall, preferenceUntil := 0.0)
  {
    hide Expose;
  }

  /** A reference change needs the current revision, and raises it; it ends any preference. */
  lemma ReferenceLaw(c: Core, revision: nat, reference: real)
    ensures match UpdateReference(c, revision, reference)
      case Err(Invalid) => reference < 0.0 || (revision == c.revision && c.revision + 1 >= U64)
      case Err(Conflict) => reference >= 0.0 && revision != c.revision
      case Err(Internal) => false
      case Ok(d) =>
        reference >= 0.0 && revision == c.revision && c.revision + 1 < U64 &&
        d == c.(revision := c.revision + 1, reference := reference, preferenceUntil := 0.0)
  {
  }

  /** A new epoch is a fresh controller that keeps the policy and knows its clock and count. */
  lemma EpochLaw(c: Core, now: real, after: nat)
    requires c.maxRunning > 0 && c.reference >= 0.0
    ensures match StartSurfaceEpoch(c, now, after)
      case Err(e) => e == Invalid && (now < 0.0 || now >= MAX_CLOCK || after > c.maxRunning)
      case Ok(d) =>
        0.0 <= now < MAX_CLOCK && after <= c.maxRunning &&
        Ok(d) == match New(c.reference, c.maxRunning)
                 case Ok(e) => Ok(e.(revision := c.revision, lastTime := Some(now), active := after))
                 case Err(e) => Err(e)
  {
  }

  /** A fresh controller knows only its policy, at revision 1. */
  lemma NewLaw(reference: real, maxRunning: nat)
    ensures match New(reference, maxRunning)
      case Err(e) => e == Invalid && (maxRunning == 0 || reference < 0.0)
      case Ok(c) =>
        maxRunning > 0 && reference >= 0.0 &&
        c.maxRunning == maxRunning && c.reference == reference && c.revision == 1 &&
        c.lastTime.None? && !c.observed && c.active == 0 && Silent(c.log) && Silent(c.run) && !c.runHasTokens &&
        !c.quarantined && c.prefillEnd.None? && c.prefillWall == 0.0 && c.preferenceUntil == 0.0 &&
        c.surface == map[] && c.prior == map[] && c.deadline.None?
  {
    BlankSilent();
  }

  // ---------- Profiles ----------

  /** A valid cell: on the surface, with enough time in its long window, short evidence within the long, and an
      approved rate that neither window contradicts. */
  lemma ProfileCellLaw(cell: ProfileCell, maxRunning: nat)
    ensures ValidProfileCell(cell, maxRunning) <==>
      1 <= cell.key.concurrency <= maxRunning && cell.key.pressure < 4 &&
      cell.longSeconds >= 0.1 && 0.0 <= cell.shortSeconds <= cell.longSeconds && cell.shortTokens <= cell.longTokens &&
      (cell.shortSeconds == 0.0 ==> cell.shortTokens == 0) && cell.approved >= 0.0 &&
      cell.approved * cell.longSeconds <= cell.longTokens as real &&
      cell.approved * cell.shortSeconds <= cell.shortTokens as real
  {
    hide Rate;
    if cell.longSeconds >= 0.1 && 0.0 <= cell.shortSeconds {
      RateReaches(cell.approved, cell.longTokens, cell.longSeconds);
      if cell.shortSeconds > 0.0 {
        RateReaches(cell.approved, cell.shortTokens, cell.shortSeconds);
      }
    }
  }

  lemma RateReaches(rate: real, tokens: nat, seconds: real)
    requires seconds > 0.0
    ensures rate <= Rate(tokens, seconds) <==> rate * seconds <= tokens as real
  {
    RateIsRate(tokens, seconds);
    Reaches(Rate(tokens, seconds), rate, seconds);
  }

  lemma LeastUnique(rate: real, w: Windows)
    requires w.longSeconds > 0.0 && w.shortSeconds >= 0.0
    ensures IsLeastRate(rate, w) <==>
      rate == if w.shortSeconds > 0.0
              then Min(Rate(w.shortTokens, w.shortSeconds), Rate(w.longTokens, w.longSeconds))
              else Rate(w.longTokens, w.longSeconds)
  {
    hide Rate;
    RateIsRate(w.longTokens, w.longSeconds);
    RateReaches(rate, w.longTokens, w.longSeconds);
    SameRate(rate, w.longTokens, w.longSeconds);
    if w.shortSeconds > 0.0 {
      RateReaches(rate, w.shortTokens, w.shortSeconds);
      SameRate(rate, w.shortTokens, w.shortSeconds);
    }
  }

  lemma SameRate(rate: real, tokens: nat, seconds: real)
    requires seconds > 0.0
    ensures IsRate(rate, tokens, seconds) <==> rate == Rate(tokens, seconds)
  {
    Reaches(Rate(tokens, seconds), rate, seconds);
    Reaches(rate, Rate(tokens, seconds), seconds);
    RateIsRate(tokens, seconds);
  }

  /** A document cell is valid when its evidence is, its tokens fit u64, and the rate it states is the least one. */
  lemma DocumentCellLaw(doc: Profile.DocumentCell, maxRunning: nat)
    ensures var cell := doc.evidence;
      Profile.ValidDocumentCell(doc, maxRunning) <==>
        ValidProfileCell(cell, maxRunning) && cell.longTokens < U64 &&
        IsLeastRate(doc.stated, Windows(cell.longTokens, cell.longSeconds, cell.shortTokens, cell.shortSeconds))
  {
    hide Rate, IsLeastRate;
    var cell := doc.evidence;
    if ValidProfileCell(cell, maxRunning) {
      LeastUnique(doc.stated, Windows(cell.longTokens, cell.longSeconds, cell.shortTokens, cell.shortSeconds));
    }
  }

  ghost predicate AllValid(cells: seq<ProfileCell>, maxRunning: nat) {
    forall i :: 0 <= i < |cells| ==> ValidProfileCell(cells[i], maxRunning)
  }

  ghost predicate AllDistinct(cells: seq<ProfileCell>) {
    forall i, j :: 0 <= i < j < |cells| ==> cells[i].key != cells[j].key
  }

  /** The map holds these cells, each under its key. */
  ghost predicate Holds(prior: map<Key, ProfileCell>, cells: seq<ProfileCell>) {
    (forall i :: 0 <= i < |cells| ==> cells[i].key in prior && prior[cells[i].key] == cells[i]) &&
    forall key :: key in prior ==> exists i :: 0 <= i < |cells| && cells[i].key == key
  }

  /** An import takes every cell under its key, or refuses all for one invalid cell or repeated key. */
  lemma {:induction false} ImportLaw(cells: seq<ProfileCell>, maxRunning: nat)
    ensures match ImportCells(cells, maxRunning)
      case Err(e) => e == Invalid && !(AllValid(cells, maxRunning) && AllDistinct(cells))
      case Ok(prior) => AllValid(cells, maxRunning) && AllDistinct(cells) && Holds(prior, cells)
  {
    hide ValidProfileCell, AllValid, AllDistinct, Holds;
    if cells == [] {
      NothingImported(maxRunning);
    } else {
      var n := |cells| - 1;
      ImportLaw(cells[..n], maxRunning);
      ValidMore(cells, maxRunning);
      if ImportCells(cells[..n], maxRunning).Ok? {
        DistinctMore(cells, ImportCells(cells[..n], maxRunning).value);
      } else {
        DistinctLess(cells);
      }
    }
  }

  lemma NothingImported(maxRunning: nat)
    ensures AllValid([], maxRunning) && AllDistinct([]) && Holds(map[], [])
  {
  }

  lemma ValidMore(cells: seq<ProfileCell>, maxRunning: nat)
    requires cells != []
    ensures var n := |cells| - 1;
      AllValid(cells, maxRunning) <==> AllValid(cells[..n], maxRunning) && ValidProfileCell(cells[n], maxRunning)
  {
    hide ValidProfileCell;
    var n := |cells| - 1;
    assert forall i :: 0 <= i < n ==> cells[..n][i] == cells[i];
  }

  lemma DistinctLess(cells: seq<ProfileCell>)
    requires cells != []
    ensures AllDistinct(cells) ==> AllDistinct(cells[..|cells| - 1])
  {
  }

  lemma DistinctMore(cells: seq<ProfileCell>, prior: map<Key, ProfileCell>)
    requires cells != [] && Holds(prior, cells[..|cells| - 1]) && AllDistinct(cells[..|cells| - 1])
    ensures var last := cells[|cells| - 1];
      (AllDistinct(cells) <==> last.key !in prior) && (last.key !in prior ==> Holds(prior[last.key := last], cells))
  {
    var n := |cells| - 1;
    var last := cells[n];
    assert forall i :: 0 <= i < n ==> cells[..n][i] == cells[i];
    if last.key in prior {
      var i :| 0 <= i < n && cells[..n][i].key == last.key;
      assert cells[i].key == cells[n].key;
    } else {
      forall key | key in prior || key == last.key ensures exists i :: 0 <= i < |cells| && cells[i].key == key {
        if key == last.key {
          assert cells[n].key == key;
        } else {
          var i :| 0 <= i < n && cells[..n][i].key == key;
          assert cells[i].key == key;
        }
      }
    }
  }

  /** A controller with a profile is a fresh one with the imported priors, its clock, and their deadline. */
  lemma ProfileLaw(reference: real, maxRunning: nat, now: real, ttl: real, cells: seq<ProfileCell>)
    ensures match NewWithProfile(reference, maxRunning, now, ttl, cells)
      case Err(e) =>
        e == Invalid &&
        (now < 0.0 || now >= MAX_CLOCK || ttl <= 0.0 || now + ttl >= MAX_CLOCK || |cells| > 4 * maxRunning ||
         maxRunning == 0 || reference < 0.0 || ImportCells(cells, maxRunning).Err?)
      case Ok(c) =>
        0.0 <= now && 0.0 < ttl && now + ttl < MAX_CLOCK && |cells| <= 4 * maxRunning &&
        New(reference, maxRunning).Ok? && ImportCells(cells, maxRunning).Ok? &&
        c == New(reference, maxRunning).value.(prior := ImportCells(cells, maxRunning).value, lastTime := Some(now),
                                               deadline := Some(now + ttl))
  {
    ImportLaw(cells, maxRunning);
  }

  /** An exported cell says what its windows hold, and the least of their rates. */
  lemma ExportCellLaw(c: Core, now: real, key: Key)
    requires LiveEvidence(c, now, key)
    ensures var cell, w := ExportCell(c, now, key), Held(c.surface[key].log, now);
      cell.key == key && cell.longTokens == w.longTokens && cell.longSeconds == w.longSeconds &&
      cell.shortTokens == w.shortTokens && cell.shortSeconds == w.shortSeconds && IsLeastRate(cell.approved, w)
  {
    hide IsLeastRate, LowerBound;
    WindowsHeld(c.surface[key].log, now);
    LowerBoundLaw(c.surface[key].log, now);
  }

  /** An export beyond the capacity is refused; else the state moves by the clock alone. */
  lemma ExportLaw(c: Core, now: real, capacity: nat)
    ensures match Export(c, now, capacity)
      case Err(e) => Advance(c, now).Err? || |ExportAll(Advance(c, now).value, now)| > capacity
      case Ok((d, cells)) =>
        Advance(c, now) == Ok(d) && cells == ExportAll(d, now) && |cells| <= capacity
  {
    hide ExportAll, Advance;
  }

  // ---------- Snapshots and preference ----------

  /** A snapshot says what the aggregate's windows hold, and the policy and Prefill as they are. */
  lemma SnapshotLaw(c: Core, now: real)
    ensures match Snapshot(c, now)
      case Err(e) => Advance(c, now) == Err(e)
      case Ok((d, v)) =>
        Advance(c, now) == Ok(d) &&
        var w := Held(d.log, now);
        v == View(c.observed, c.revision, c.reference, w.longTokens, w.longSeconds, w.shortTokens, w.shortSeconds,
                  c.active, c.prefillEnd, c.prefillWall, c.preferenceUntil)
  {
    hide Expose;
    if Advance(c, now).Ok? {
      WindowsHeld(Advance(c, now).value.log, now);
    }
  }

  /** The signal weighs the short rate by its own seconds against one second of the long rate. */
  lemma SignalLaw(view: View)
    requires view.longSeconds > 0.0 && view.shortSeconds >= 0.0
    ensures var mean := Rate(view.longTokens, view.longSeconds);
      IsRate(mean, view.longTokens, view.longSeconds) &&
      if view.shortSeconds > 0.0 then Signal(view) * (view.shortSeconds + 1.0) == mean + view.shortTokens as real
      else Signal(view) == mean
  {
    hide Rate, IsRate;
    RateIsRate(view.longTokens, view.longSeconds);
    if view.shortSeconds > 0.0 {
      RateIsRate(view.shortTokens, view.shortSeconds);
      Weighted(Rate(view.longTokens, view.longSeconds), Rate(view.shortTokens, view.shortSeconds), view.shortTokens,
               view.shortSeconds);
    }
  }

  lemma Weighted(mean: real, short: real, tokens: nat, seconds: real)
    requires IsRate(short, tokens, seconds)
    ensures var weight := seconds / (seconds + 1.0);
      (mean * (1.0 - weight) + short * weight) * (seconds + 1.0) == mean + tokens as real
  {
    var weight := seconds / (seconds + 1.0);
    assert weight * (seconds + 1.0) == seconds;
    assert (1.0 - weight) * (seconds + 1.0) == 1.0;
    assert mean * (1.0 - weight) * (seconds + 1.0) == mean * ((1.0 - weight) * (seconds + 1.0));
    assert short * weight * (seconds + 1.0) == short * (weight * (seconds + 1.0));
  }

  /** The request: a quarter second when nothing decodes; else the wall times the shortfall, at most that. */
  lemma RequestedLaw(wall: real, reference: real, signal: real)
    requires wall > 0.0 && signal >= 0.0
    ensures if signal == 0.0 then Requested(wall, reference, signal) == 0.25
            else Requested(wall, reference, signal) * signal == Min(wall * Max(reference - signal, 0.0), 0.25 * signal)
  {
    if signal > 0.0 {
      var shortfall := Max(reference / signal - 1.0, 0.0);
      Shortfall(reference, signal);
      assert wall * shortfall * signal == wall * (shortfall * signal);
      var wish := wall * shortfall;
      assert Requested(wall, reference, signal) == Min(wish, 0.25);
      MinScales(wish, 0.25, signal);
    }
  }

  lemma Shortfall(reference: real, signal: real)
    requires signal > 0.0
    ensures Max(reference / signal - 1.0, 0.0) * signal == Max(reference - signal, 0.0)
  {
    var ratio := reference / signal;
    assert ratio * signal == reference;
    assert (ratio - 1.0) * signal == reference - signal;
    if ratio >= 1.0 {
      ProductNonnegative(ratio - 1.0, signal);
    } else {
      ScaleStrict(1.0 - ratio, signal);
      assert (1.0 - ratio) * signal == signal - reference;
    }
  }

  lemma MinScales(x: real, y: real, s: real)
    requires s > 0.0
    ensures Min(x, y) * s == Min(x * s, y * s)
  {
    Reaches(y, x, s);
  }

  /** The duration: the request, discounted by the exposure behind it and by the queue's age in quarter seconds. */
  lemma DurationLaw(view: View, age: real)
    requires view.longSeconds > 0.0 && view.shortSeconds >= 0.0 && age >= 0.0
    ensures Duration(view, age) * (1.0 + 4.0 * age) * (view.longSeconds + 1.0)
         == Requested(view.prefillWall, view.reference, Signal(view)) * view.longSeconds
  {
    hide Requested, Signal;
    var requested := Requested(view.prefillWall, view.reference, Signal(view));
    assert age / MAX_PREFERENCE_SECONDS == 4.0 * age;
    Discounted(requested, view.longSeconds, 1.0 + age / MAX_PREFERENCE_SECONDS);
  }

  lemma Discounted(x: real, mass: real, d: real)
    requires mass > 0.0 && d >= 1.0
    ensures x * (mass / (mass + 1.0)) / d * d * (mass + 1.0) == x * mass
  {
    var fraction := mass / (mass + 1.0);
    assert fraction * (mass + 1.0) == mass;
    var scaled := x * fraction;
    assert scaled / d * d == scaled;
    assert scaled * (mass + 1.0) == x * (fraction * (mass + 1.0));
  }

  /** Decode is preferred exactly while the duration since the Prefill's end lasts, given both kinds of work, a
      reference, an observation and exposure in the window. */
  lemma ChooseLaw(c: Core, now: real, decode: bool, prefill: bool, age: real)
    requires Sound(c)
    ensures match Choose(c, now, decode, prefill, age)
      case Err(e) => e == Invalid && (age < 0.0 || !ClockAccepts(c, now))
      case Ok((d, preferred)) =>
        age >= 0.0 && ClockAccepts(c, now) &&
        var c1 := Advance(c, now).value;
        var view := ViewAt(c1, now);
        var weighs :=
          decode && prefill && c.prefillEnd.Some? && c.reference > 0.0 && c.observed && view.longSeconds > 0.0;
        d == c1.(preferenceUntil := d.preferenceUntil) &&
        (!weighs ==> !preferred && d.preferenceUntil == 0.0) &&
        (weighs ==>
          (view.shortSeconds >= 0.0 && (preferred <==> now < c.prefillEnd.value + Duration(view, age)) &&
           d.preferenceUntil == c.prefillEnd.value + Duration(view, age)))
  {
    hide Duration, Expose;
    if ClockAccepts(c, now) {
      ReadSound(c, now);
      var log := Advance(c, now).value.log;
      HeldNonnegative(log, now, now);
      WindowsHeld(log, now);
    }
  }

  /** The windows' tokens, weighed together, are fewer than the reference asks: the short window's own seconds against
      one second of the long rate. */
  predicate FallsShort(w: Windows, reference: real) {
    if w.shortSeconds > 0.0
    then w.longTokens as real + w.shortTokens as real * w.longSeconds
           < reference * (w.shortSeconds + 1.0) * w.longSeconds
    else w.longTokens as real < reference * w.longSeconds
  }

  /** The moment a Prefill ends Decode is preferred exactly when both kinds of work wait, something was observed, and
      the tokens of the windows fall short of a positive reference. */
  lemma PreferredByTokens(c: Core, now: real, decode: bool, prefill: bool, age: real)
    requires Sound(c) && ClockAccepts(c, now) && c.prefillEnd == Some(now) && age >= 0.0
    ensures var w := Held(Advance(c, now).value.log, now);
      Step(c, DoChoose(now, decode, prefill, age)).1 ==
        Chosen(decode && prefill && c.reference > 0.0 && c.observed && w.longSeconds > 0.0 &&
               FallsShort(w, c.reference))
  {
    hide Signal, Held, WindowTokens, WindowSeconds, Sound, Expose, FallsShort, Step;
    var c1 := Advance(c, now).value;
    var view := ViewAt(c1, now);
    SoundReference(c);
    ReadSound(c, now);
    LogUntil(c1);
    HeldNonnegative(c1.log, now, now);
    WindowsHeld(c1.log, now);
    PreferredAtPrefillEnd(c, now, decode, prefill, age);
    if view.longSeconds > 0.0 {
      SignalShort(view);
    }
  }

  lemma SoundReference(c: Core)
    requires Sound(c)
    ensures c.reference >= 0.0
  {
  }

  lemma LogUntil(c: Core)
    requires Sound(c) && c.lastTime.Some?
    ensures Until(c.log, c.lastTime.value)
  {
  }

  lemma SignalShort(view: View)
    requires view.longSeconds > 0.0 && view.shortSeconds >= 0.0
    ensures Signal(view) < view.reference <==>
      FallsShort(Windows(view.longTokens, view.longSeconds, view.shortTokens, view.shortSeconds), view.reference)
  {
    hide Signal, Rate;
    SignalLaw(view);
    var s, r, m, n := Signal(view), view.reference, view.longSeconds, view.shortSeconds + 1.0;
    var mean := Rate(view.longTokens, view.longSeconds);
    if view.shortSeconds > 0.0 {
      ScaleStrict(n, m);
      Reaches(s, r, n * m);
      assert s * (n * m) == s * n * m;
      assert s * n * m == (mean + view.shortTokens as real) * m;
      assert (mean + view.shortTokens as real) * m == mean * m + view.shortTokens as real * m;
      assert r * (n * m) == r * n * m;
    } else {
      Reaches(s, r, m);
    }
  }
}
