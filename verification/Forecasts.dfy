/** What the controller's decisions mean: selection, stalls, priors, preference. */
module Forecasts {
  import opened Wrappers
  import opened Ticks
  import opened Ledger
  import opened CoreSpec
  import opened CoreRuns

  // ---------- Selection ----------

  /** The evidence an admission may rest on: the wanted key's own bound, or else the
      least bound among the heavier keys, the first of them on ties. */
  ghost predicate Selected(c: Core, now: real, want: Key, key: Key) {
    BoundFor(c, now, key).Some? && Dominates(key, want) &&
    (BoundFor(c, now, want).Some? ==> key == want) &&
    forall k :: BoundFor(c, now, want).None? && Dominates(k, want) && BoundFor(c, now, k).Some? && k != key ==>
      BoundFor(c, now, key).value.value < BoundFor(c, now, k).value.value ||
      (BoundFor(c, now, key).value.value == BoundFor(c, now, k).value.value && Before(key, k))
  }

  lemma PlaceOf(key: Key, max: nat)
    requires InSurface(key, max)
    ensures Place(key) < PRESSURE_CLASSES * max && KeyAt(Place(key)) == key
  {
  }

  lemma KeysAscend(i: nat, j: nat)
    requires i < j
    ensures Before(KeyAt(i), KeyAt(j))
  {
  }

  lemma {:induction false} LeastBoundIsLeast(c: Core, now: real, want: Key, n: nat)
    ensures var best := LeastBound(c, now, want, n);
      match best
      case None => forall i: nat :: i < n && Dominates(KeyAt(i), want) ==> BoundFor(c, now, KeyAt(i)).None?
      case Some((key, bound)) =>
        (exists i: nat :: i < n && KeyAt(i) == key) && Dominates(key, want) && BoundFor(c, now, key) == Some(bound) &&
        forall i: nat :: i < n && Dominates(KeyAt(i), want) && BoundFor(c, now, KeyAt(i)).Some? && KeyAt(i) != key ==>
          bound.value < BoundFor(c, now, KeyAt(i)).value.value ||
          (bound.value == BoundFor(c, now, KeyAt(i)).value.value && Before(key, KeyAt(i)))
  {
    hide BoundFor, KeyAt, Dominates;
    if n > 0 {
      LeastBoundIsLeast(c, now, want, n - 1);
      var best := LeastBound(c, now, want, n - 1);
      if best.Some? {
        var i: nat :| i < n - 1 && KeyAt(i) == best.value.0;
        KeysAscend(i, n - 1);
      }
    }
  }

  lemma BoundsInSurface(c: Core, now: real, key: Key)
    requires Sound(c) && BoundFor(c, now, key).Some?
    ensures InSurface(key, c.maxRunning)
  {
  }

  /** The scan finds exactly the selected evidence, and misses none. */
  lemma SelectMeaning(c: Core, now: real, want: Key)
    requires Sound(c)
    ensures match Select(c, now, want)
      case None => forall key :: Dominates(key, want) ==> BoundFor(c, now, key).None?
      case Some((key, bound)) => Selected(c, now, want, key) && BoundFor(c, now, key) == Some(bound)
  {
    if BoundFor(c, now, want).None? {
      var n := PRESSURE_CLASSES * c.maxRunning;
      LeastBoundIsLeast(c, now, want, n);
      forall key | Dominates(key, want) && BoundFor(c, now, key).Some?
        ensures Place(key) < n && KeyAt(Place(key)) == key
      {
        BoundsInSurface(c, now, key);
        PlaceOf(key, c.maxRunning);
      }
    }
  }

  /** There is at most one such evidence. */
  lemma SelectedUnique(c: Core, now: real, want: Key, k: Key, l: Key)
    requires Selected(c, now, want, k) && Selected(c, now, want, l)
    ensures k == l
  {
  }

  /** With a positive reference a request is allowed exactly when its evidence and the
      aggregate of the current run both reach the reference. */
  lemma AllowedExactly(c: Core, now: real, want: Key)
    requires Sound(c) && c.reference > 0.0
    ensures var f := Decide(c, now, want);
      var aggregate := AggregateBound(c, now);
      (f.allowed <==>
        (exists key :: Selected(c, now, want, key) && BoundFor(c, now, key).value.value >= c.reference) &&
        (aggregate.Some? ==> aggregate.value >= c.reference)) &&
      (f.allowed ==>
        f.evidence.Some? && Selected(c, now, want, f.evidence.value) &&
        f.tps == BoundFor(c, now, f.evidence.value).value.value)
  {
    SelectMeaning(c, now, want);
    var sel := Select(c, now, want);
    if sel.Some? {
      forall key | Selected(c, now, want, key) ensures key == sel.value.0 {
        SelectedUnique(c, now, want, key, sel.value.0);
      }
    }
  }

  /** An active prior caps its own key, and lifts a slow live rate only when one vacated
      slot is being refilled. */
  lemma PriorCapsForecast(c: Core, now: real, key: Key)
    requires PriorBound(c, now, key).Some?
    ensures BoundFor(c, now, key).Some?
    ensures BoundFor(c, now, key).value.value <= PriorBound(c, now, key).value
    ensures LiveBound(c, now, key).Some? && BoundFor(c, now, key).value.value > LiveBound(c, now, key).value ==>
      key.concurrency == c.active + 1 && LiveBound(c, now, key).value < c.reference <= PriorBound(c, now, key).value &&
      now - c.surface[key].lastTime.value >= SHORT_WINDOW_SECONDS && AggregateBound(c, now).Some?
  {
  }

  // ---------- Stalls ----------

  lemma RatePositive(tokens: nat, seconds: real)
    requires tokens > 0 && seconds > 0.0
    ensures Rate(tokens, seconds) > 0.0
  {
    var r := Rate(tokens, seconds);
    assert r * seconds == tokens as real;
    if r <= 0.0 {
      ScaleSign(r, seconds);
    }
  }

  lemma ScaleSign(r: real, s: real)
    requires r <= 0.0 && s > 0.0
    ensures r * s <= 0.0
  {
  }

  lemma {:induction false} LastTokenCounts(log: Log, first: int, last: int)
    requires LastToken(log).Some? && first <= LastToken(log).value <= last
    ensures Tokens(log, first, last) > 0
  {
    if !(log.entry.Sample? && log.entry.tokens > 0) {
      LastTokenCounts(log.before, first, last);
    }
  }

  /** The aggregate bound of a running, unquarantined controller is zero exactly when the
      run's last token has left the short window. */
  lemma StallBound(c: Core, now: real)
    requires Sound(c) && c.lastTime == Some(now) && !c.quarantined && c.active > 0 && c.runHasTokens
    ensures AggregateBound(c, now) == Some(0.0) <==> LastToken(c.run).value < Tick(now) - 4
  {
    WindowTicks(now);
    TickBrackets(now);
    var last, first := LastToken(c.run).value, Tick(now) - 4;
    var short := Seconds(c.run, first, Tick(now));
    WiderWindow(c.run, now, first, Tick(now), Tick(now) - 120, Tick(now));
    SecondsNonnegative(c.run, now, first, Tick(now));
    if last < first {
      assert short >= now - Edge(first) >= 2.0;
      assert Tokens(c.run, first, Tick(now)) == 0;
      assert Rate(0, short) == 0.0;
    } else {
      LastTokenWithin(c.run, now);
      LastTokenCounts(c.run, first, Tick(now));
      if short > 0.0 {
        RatePositive(Tokens(c.run, first, Tick(now)), short);
      }
      var long := Seconds(c.run, Tick(now) - 120, Tick(now));
      if long > 0.0 {
        RatePositive(Tokens(c.run, Tick(now) - 120, Tick(now)), long);
      }
    }
  }

  lemma {:induction false} LastTokenWithin(log: Log, t: real)
    requires Until(log, t) && LastToken(log).Some?
    ensures 0 <= LastToken(log).value <= Tick(t)
  {
    if !(log.entry.Sample? && log.entry.tokens > 0) {
      LastTokenWithin(log.before, t);
    }
  }

  /** In every run: 2.5 s after its last token a stalled controller admits nothing. */
  lemma StalledRunAdmitsNothing(c0: Core, ops: seq<Op>, lastTokenAt: real, now: real, want: Key)
    requires Sound(c0) && ClockAccepts(Run(c0, ops), now) && InSurface(want, c0.maxRunning)
    requires var c := Run(c0, ops);
      !c.quarantined && c.active > 0 && c.reference > 0.0 &&
      LastToken(c.run) == Some(Tick(lastTokenAt)) && now - lastTokenAt >= 2.5
    ensures var r := Admit(Run(c0, ops), now, want);
      r.Ok? ==> AggregateBound(r.value.0, now) == Some(0.0) && !r.value.1.allowed
  {
    RunSound(c0, ops);
    var c := Run(c0, ops);
    ReadSound(c, now);
    var c1 := Advance(c, now).value;
    if c.lastTime.Some? {
      ExposeTokens(c.run, c.lastTime.value, now, c.active);
    }
    TickMonotone(lastTokenAt, now - 2.5);
    var x := 2.0 * now;
    assert (x - 5.0).Floor == x.Floor - 5;
    StallBound(c1, now);
    AllowedExactly(c1, now, want);
  }

  // ---------- Reads ----------

  /** No reading can overflow, whenever it is taken. */
  lemma ReadingsFit(c: Core, now: real)
    requires Sound(c) && ClockAccepts(c, now)
    ensures var c' := Advance(c, now).value;
      WindowTokens(c'.log, now, WINDOW_SECONDS) < U64 && WindowTokens(c'.log, now, SHORT_WINDOW_SECONDS) < U64 &&
      WindowTokens(c'.run, now, WINDOW_SECONDS) < U64 && WindowTokens(c'.run, now, SHORT_WINDOW_SECONDS) < U64 &&
      (forall key :: key in c'.surface ==>
        WindowTokens(c'.surface[key].log, now, WINDOW_SECONDS) < U64 &&
        WindowTokens(c'.surface[key].log, now, SHORT_WINDOW_SECONDS) < U64) &&
      |ExportAll(c', now)| <= PRESSURE_CLASSES * c'.maxRunning
  {
    ReadSound(c, now);
    var c' := Advance(c, now).value;
    SafeLater(c'.log, now, now, SHORT_WINDOW_SECONDS);
    forall key | key in c'.surface
      ensures WindowTokens(c'.surface[key].log, now, WINDOW_SECONDS) < U64
      ensures WindowTokens(c'.surface[key].log, now, SHORT_WINDOW_SECONDS) < U64
    {
      CellReadable(c'.surface[key], now, now);
    }
    ExportCount(c', now, PRESSURE_CLASSES * c'.maxRunning);
  }

  /** In every run a read is refused only for its own arguments or the clock. */
  lemma ReadsNeverFail(c0: Core, ops: seq<Op>, now: real, key: Key, decode: bool, prefill: bool, age: real)
    requires Sound(c0)
    ensures var c := Run(c0, ops);
      (Snapshot(c, now).Ok? <==> ClockAccepts(c, now)) &&
      (Admit(c, now, key).Ok? <==> ClockAccepts(c, now) && InSurface(key, c0.maxRunning)) &&
      (Choose(c, now, decode, prefill, age).Ok? <==> ClockAccepts(c, now) && age >= 0.0) &&
      (Export(c, now, PRESSURE_CLASSES * c0.maxRunning).Ok? <==> ClockAccepts(c, now))
  {
    RunSound(c0, ops);
    RunMax(c0, ops);
    var c := Run(c0, ops);
    if ClockAccepts(c, now) {
      ReadingsFit(c, now);
    }
  }

  lemma {:induction false} ExportCount(c: Core, now: real, n: nat)
    ensures |ExportFirst(c, now, n)| <= n
  {
    if n > 0 {
      ExportCount(c, now, n - 1);
    }
  }

  // ---------- Decode preference ----------

  /** The end of the latest Prefill of the current epoch, read off the calls themselves. */
  ghost function LatestPrefill(c: Core, ops: seq<Op>, latest: Option<real>): Option<real>
    decreases |ops|
  {
    if ops == [] then latest
    else
      var (c', out) := Step(c, ops[0]);
      var latest' := if ops[0].DoPrefill? && out.Done? then Some(ops[0].now)
                     else if ops[0].DoStartEpoch? && out.Done? then None else latest;
      LatestPrefill(c', ops[1..], latest')
  }

  /** Only an accepted Prefill or a new epoch touches the Prefill end. */
  lemma StepPrefillEnd(c: Core, op: Op)
    ensures var (c', out) := Step(c, op);
      c'.prefillEnd == if op.DoPrefill? && out.Done? then Some(op.now)
                       else if op.DoStartEpoch? && out.Done? then None else c.prefillEnd
  {
    if Step(c, op).1.Done? {
      match op
      case DoObserve(now, delta, after) => ObserveEffect(c, now, delta, after);
      case DoObserveBatch(now, delta, seconds, key, after) => BatchEffect(c, now, delta, seconds, key, after);
      case DoObserveReplacement(now, delta, seconds, key, after) =>
        ReplacementEffect(c, now, delta, seconds, key, after);
      case _ =>
    }
  }

  lemma {:induction false} PrefillEndIsLatest(c: Core, ops: seq<Op>)
    ensures Run(c, ops).prefillEnd == LatestPrefill(c, ops, c.prefillEnd)
    decreases |ops|
  {
    if ops != [] {
      StepPrefillEnd(c, ops[0]);
      PrefillEndIsLatest(Step(c, ops[0]).0, ops[1..]);
    }
  }

  lemma ShrinkProduct(x: real, y: real)
    requires 0.0 <= x && 0.0 <= y < 1.0
    ensures 0.0 <= x * y <= x && (x > 0.0 ==> x * y < x)
  {
  }

  lemma QuotientAtMost(x: real, d: real)
    requires 0.0 <= x && d >= 1.0
    ensures 0.0 <= x / d <= x
  {
    var q := x / d;
    assert q * d == x;
    if q < 0.0 {
      ScaleStrict(-q, d);
    } else {
      GrowProduct(q, d);
    }
  }

  lemma GrowProduct(q: real, d: real)
    requires 0.0 <= q && 1.0 <= d
    ensures q <= q * d
  {
  }

  lemma FractionBelowOne(mass: real)
    requires mass > 0.0
    ensures 0.0 <= mass / (mass + 1.0) < 1.0
  {
    var q := mass / (mass + 1.0);
    assert q * (mass + 1.0) == mass;
    if q >= 1.0 {
      GrowProduct(mass + 1.0, q);
    }
    if q < 0.0 {
      ScaleSign(q, mass + 1.0);
    }
  }

  lemma ProductNonnegative(x: real, y: real)
    requires x >= 0.0 && y >= 0.0
    ensures x * y >= 0.0
  {
  }

  lemma RequestedBounds(wall: real, reference: real, signal: real)
    requires wall >= 0.0
    ensures 0.0 <= Requested(wall, reference, signal) <= MAX_PREFERENCE_SECONDS
  {
    if signal != 0.0 {
      ProductNonnegative(wall, Max(reference / signal - 1.0, 0.0));
    }
  }

  lemma DurationBelowQuarter(view: View, age: real)
    requires view.longSeconds > 0.0 && view.shortSeconds >= 0.0 && age >= 0.0 && view.prefillWall >= 0.0
    ensures 0.0 <= Duration(view, age) < MAX_PREFERENCE_SECONDS
  {
    var requested := Requested(view.prefillWall, view.reference, Signal(view));
    RequestedBounds(view.prefillWall, view.reference, Signal(view));
    var mass := view.longSeconds;
    FractionBelowOne(mass);
    ShrinkProduct(requested, mass / (mass + 1.0));
    QuotientAtMost(requested * (mass / (mass + 1.0)), 1.0 + age / MAX_PREFERENCE_SECONDS);
  }

  /** Across any run, Decode is preferred only within a quarter second of the latest Prefill. */
  lemma PreferenceIsBrief(c0: Core, ops: seq<Op>, now: real, decode: bool, prefill: bool, age: real)
    requires Sound(c0)
    ensures Step(Run(c0, ops), DoChoose(now, decode, prefill, age)).1 == Chosen(true) ==>
      var end := LatestPrefill(c0, ops, c0.prefillEnd);
      end.Some? && 0.0 <= now - end.value < MAX_PREFERENCE_SECONDS
  {
    RunSound(c0, ops);
    PrefillEndIsLatest(c0, ops);
    var c := Run(c0, ops);
    if Step(c, DoChoose(now, decode, prefill, age)).1 == Chosen(true) {
      var c1 := Advance(c, now).value;
      DurationBelowQuarter(ViewAt(c1, now), age);
    }
  }

  lemma QuotientAntitone(x: real, d: real, e: real)
    requires 0.0 <= x && 0.0 < d <= e
    ensures x / e <= x / d
  {
    var p, q := x / d, x / e;
    assert p * d == x && q * e == x;
    if p < 0.0 {
      ScaleStrict(-p, d);
    } else if q > p {
      ScaleStrict(q - p, e);
      ProductNonnegative(p, e - d);
    }
  }

  lemma ScaleStrict(x: real, y: real)
    requires x > 0.0 && y > 0.0
    ensures x * y > 0.0
  {
  }

  lemma OlderShortens(view: View, age: real, older: real)
    requires view.longSeconds > 0.0 && view.shortSeconds >= 0.0 && 0.0 <= age <= older && view.prefillWall >= 0.0
    ensures Duration(view, older) <= Duration(view, age)
  {
    var requested := Requested(view.prefillWall, view.reference, Signal(view));
    RequestedBounds(view.prefillWall, view.reference, Signal(view));
    FractionBelowOne(view.longSeconds);
    ShrinkProduct(requested, view.longSeconds / (view.longSeconds + 1.0));
    QuotientAntitone(requested * (view.longSeconds / (view.longSeconds + 1.0)),
                     1.0 + age / MAX_PREFERENCE_SECONDS, 1.0 + older / MAX_PREFERENCE_SECONDS);
  }

  /** A longer queue age can only end the preference, never start it. */
  lemma AgeOnlyEndsPreference(c: Core, now: real, decode: bool, prefill: bool, age: real, older: real)
    requires Sound(c) && 0.0 <= age <= older
    ensures Step(c, DoChoose(now, decode, prefill, older)).1 == Chosen(true) ==>
            Step(c, DoChoose(now, decode, prefill, age)).1 == Chosen(true)
  {
    if Step(c, DoChoose(now, decode, prefill, older)).1 == Chosen(true) {
      var c1 := Advance(c, now).value;
      OlderShortens(ViewAt(c1, now), age, older);
    }
  }

  /** The signal is a weighted mean of the long and the short rate. */
  lemma SignalBetweenRates(view: View)
    requires view.longSeconds > 0.0 && view.shortSeconds > 0.0
    ensures var long, short := Rate(view.longTokens, view.longSeconds), Rate(view.shortTokens, view.shortSeconds);
      Min(long, short) <= Signal(view) <= Max(long, short)
  {
    hide Rate;
    var long, short := Rate(view.longTokens, view.longSeconds), Rate(view.shortTokens, view.shortSeconds);
    var weight := view.shortSeconds / (view.shortSeconds + 1.0);
    FractionBelowOne(view.shortSeconds);
    MeanBetween(long, short, weight);
  }

  lemma MeanBetween(x: real, y: real, weight: real)
    requires 0.0 <= weight <= 1.0
    ensures Min(x, y) <= x * (1.0 - weight) + y * weight <= Max(x, y)
  {
    if x <= y {
      ProductNonnegative(y - x, weight);
      ProductNonnegative(y - x, 1.0 - weight);
    } else {
      ProductNonnegative(x - y, weight);
      ProductNonnegative(x - y, 1.0 - weight);
    }
  }

  lemma SignalNonnegative(view: View)
    requires view.longSeconds > 0.0 && view.shortSeconds >= 0.0
    ensures Signal(view) >= 0.0
  {
    hide Rate;
    RateNonnegative(view.longTokens, view.longSeconds);
    if view.shortSeconds > 0.0 {
      RateNonnegative(view.shortTokens, view.shortSeconds);
      SignalBetweenRates(view);
    }
  }

  lemma RateNonnegative(tokens: nat, seconds: real)
    requires seconds > 0.0
    ensures Rate(tokens, seconds) >= 0.0
  {
    if tokens > 0 {
      RatePositive(tokens, seconds);
    }
  }

  /** A shortfall asks for some preference; a met reference asks for none. */
  lemma RequestedSign(wall: real, reference: real, signal: real)
    requires wall > 0.0 && reference > 0.0 && signal >= 0.0
    ensures Requested(wall, reference, signal) > 0.0 <==> signal < reference
    ensures signal > 0.0 && signal < reference ==>
      Requested(wall, reference, signal) * signal <= wall * (reference - signal)
  {
    if signal > 0.0 {
      var ratio := reference / signal;
      assert ratio * signal == reference;
      if signal < reference {
        assert (ratio - 1.0) * signal == reference - signal;
        if ratio <= 1.0 {
          ProductNonnegative(1.0 - ratio, signal);
          assert false;
        }
        var shortfall := Max(reference / signal - 1.0, 0.0);
        assert shortfall == ratio - 1.0;
        assert Requested(wall, reference, signal) == Min(wall * shortfall, MAX_PREFERENCE_SECONDS) <= wall * shortfall;
        ScaleStrict(wall, ratio - 1.0);
        assert wall * (ratio - 1.0) * signal == wall * (reference - signal);
        ProductNonnegative(wall * (ratio - 1.0) - Requested(wall, reference, signal), signal);
      } else if ratio > 1.0 {
        ScaleStrict(ratio - 1.0, signal);
      }
    }
  }

  lemma DurationSign(view: View, age: real)
    requires view.longSeconds > 0.0 && view.shortSeconds >= 0.0 && age >= 0.0 && view.prefillWall > 0.0
    ensures var requested := Requested(view.prefillWall, view.reference, Signal(view));
      Duration(view, age) <= requested && (Duration(view, age) > 0.0 <==> requested > 0.0)
  {
    hide Signal, Requested;
    var requested := Requested(view.prefillWall, view.reference, Signal(view));
    RequestedBounds(view.prefillWall, view.reference, Signal(view));
    FractionPositive(view.longSeconds);
    FractionBelowOne(view.longSeconds);
    ScaledSign(requested, view.longSeconds / (view.longSeconds + 1.0), 1.0 + age / MAX_PREFERENCE_SECONDS);
  }

  /** Scaling by a proper fraction and dividing by at least one keep the sign and never increase. */
  lemma ScaledSign(x: real, fraction: real, d: real)
    requires x >= 0.0 && 0.0 < fraction < 1.0 && d >= 1.0
    ensures x * fraction / d <= x && (x * fraction / d > 0.0 <==> x > 0.0)
  {
    ShrinkProduct(x, fraction);
    QuotientAtMost(x * fraction, d);
    if x > 0.0 {
      ScaleStrict(x, fraction);
      QuotientPositive(x * fraction, d);
    }
  }

  lemma FractionPositive(mass: real)
    requires mass > 0.0
    ensures mass / (mass + 1.0) > 0.0
  {
    QuotientPositive(mass, mass + 1.0);
  }

  lemma QuotientPositive(x: real, d: real)
    requires x > 0.0 && d > 0.0
    ensures x / d > 0.0
  {
    var q := x / d;
    assert q * d == x;
    if q <= 0.0 {
      ProductNonnegative(-q, d);
    }
  }

  /** The moment a Prefill ends, Decode is preferred exactly when its rate is short of the reference. */
  lemma PreferredAtPrefillEnd(c: Core, now: real, decode: bool, prefill: bool, age: real)
    requires Sound(c) && ClockAccepts(c, now) && c.prefillEnd == Some(now) && age >= 0.0
    ensures var view := ViewAt(Advance(c, now).value, now);
      Step(c, DoChoose(now, decode, prefill, age)).1 ==
        Chosen(Weighs(view, decode, prefill) && Signal(view) < view.reference)
  {
    hide Signal, Duration, WindowTokens, WindowSeconds;
    var view := ViewAt(Advance(c, now).value, now);
    if Weighs(view, decode, prefill) {
      DurationSign(view, age);
      SignalNonnegative(view);
      RequestedSign(view.prefillWall, view.reference, Signal(view));
    }
  }

  /** Decode is preferred only until the tokens the Prefill cost it, at the reference rate, are made up. */
  lemma PreferenceRepays(c: Core, now: real, decode: bool, prefill: bool, age: real)
    requires Sound(c) && Step(c, DoChoose(now, decode, prefill, age)).1 == Chosen(true)
    ensures var view := ViewAt(Advance(c, now).value, now);
      Weighs(view, decode, prefill) && Signal(view) < view.reference &&
      (now - view.prefillEnd.value) * Signal(view) <= view.prefillWall * (view.reference - Signal(view))
  {
    hide Signal, Duration, WindowTokens, WindowSeconds;
    var view := ViewAt(Advance(c, now).value, now);
    DurationSign(view, age);
    SignalNonnegative(view);
    RequestedSign(view.prefillWall, view.reference, Signal(view));
    var signal := Signal(view);
    if signal > 0.0 {
      ProductNonnegative(Requested(view.prefillWall, view.reference, signal) - (now - view.prefillEnd.value), signal);
    } else {
      ProductNonnegative(view.prefillWall, view.reference);
    }
  }
}
