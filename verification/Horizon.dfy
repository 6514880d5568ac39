/** What a quarantine can still see of an earlier read: nothing, once the span that the read charged lies
    behind every window. Logs that agree on all a window can reach are never told apart. */
module Horizon {
  import opened Wrappers
  import opened Ticks
  import opened Ledger
  import opened CoreSpec
  import opened CoreRuns
  import opened Transparency

  /** The logs read the same in every window from tick `k` on. */
  ghost predicate AgreeFrom(a: Log, b: Log, k: int) {
    forall first, last :: k <= first <= last + 1 ==>
      Tokens(a, first, last) == Tokens(b, first, last) && Seconds(a, first, last) == Seconds(b, first, last)
  }

  lemma AgreeThen(a: Log, b: Log, k: int, e: Entry)
    requires AgreeFrom(a, b, k)
    ensures AgreeFrom(Then(a, e), Then(b, e), k)
  {
    forall first, last | k <= first <= last + 1
      ensures Tokens(Then(a, e), first, last) == Tokens(Then(b, e), first, last)
      ensures Seconds(Then(a, e), first, last) == Seconds(Then(b, e), first, last)
    {
      assert Tokens(a, first, last) == Tokens(b, first, last);
    }
  }

  lemma AgreeExposed(a: Log, b: Log, k: int, from: real, to: real, active: nat)
    requires AgreeFrom(a, b, k) && Until(a, from) && Until(b, from) && 0.0 <= from <= to
    ensures AgreeFrom(Expose(a, from, to, active), Expose(b, from, to, active), k)
  {
    hide Until, Expose;
    forall first, last | k <= first <= last + 1
      ensures Tokens(Expose(a, from, to, active), first, last) == Tokens(Expose(b, from, to, active), first, last)
      ensures Seconds(Expose(a, from, to, active), first, last) == Seconds(Expose(b, from, to, active), first, last)
    {
      ExposeAdds(a, from, to, active, first, last);
      ExposeAdds(b, from, to, active, first, last);
    }
  }

  /** Two controllers that differ only in logs no window can tell apart any more. */
  ghost predicate Alike(c: Core, d: Core, k: int) {
    Sound(c) && Sound(d) && d == c.(log := d.log) && AgreeFrom(c.log, d.log, k) &&
    c.lastTime.Some? && k <= Tick(c.lastTime.value) - 120
  }

  lemma AlikeWindows(a: Log, b: Log, k: int, now: real)
    requires AgreeFrom(a, b, k) && 0.0 <= now && k <= Tick(now) - 120
    ensures WindowTokens(a, now, WINDOW_SECONDS) == WindowTokens(b, now, WINDOW_SECONDS)
    ensures WindowSeconds(a, now, WINDOW_SECONDS) == WindowSeconds(b, now, WINDOW_SECONDS)
    ensures WindowTokens(a, now, SHORT_WINDOW_SECONDS) == WindowTokens(b, now, SHORT_WINDOW_SECONDS)
    ensures WindowSeconds(a, now, SHORT_WINDOW_SECONDS) == WindowSeconds(b, now, SHORT_WINDOW_SECONDS)
  {
    WindowTicks(now);
  }

  /** Alike up to soundness, once the clock stands at `now`. */
  ghost predicate AlikeAt(c: Core, d: Core, k: int, now: real) {
    d == c.(log := d.log) && AgreeFrom(c.log, d.log, k) && c.lastTime == Some(now) && 0.0 <= now && k <= Tick(now) - 120
  }

  lemma AdvanceAlike(c: Core, d: Core, k: int, now: real, accumulate: bool)
    requires Alike(c, d, k)
    ensures var r, s := AdvanceClock(c, now, accumulate), AdvanceClock(d, now, accumulate);
      match r
      case Err(e) => s == Err(e)
      case Ok(c') => s.Ok? && AlikeAt(c', s.value, k, now)
  {
    hide AgreeFrom, Until;
    var last := c.lastTime.value;
    SoundUntil(c);
    SoundUntil(d);
    if ClockAccepts(c, now) {
      AgreeExposed(c.log, d.log, k, last, now, c.active);
      TickMonotone(last, now);
    }
  }

  lemma SoundUntil(c: Core)
    requires Sound(c) && c.lastTime.Some?
    ensures Until(c.log, c.lastTime.value) && 0.0 <= c.lastTime.value
  {
  }

  /** The same answer, and then either the same state or states still alike. */
  ghost predicate SameAnswer(c: Core, d: Core, k: int, op: Op) {
    var (c', out), (d', out') := Step(c, op), Step(d, op);
    out == out' && (c' == d' || (d' == c'.(log := d'.log) && AgreeFrom(c'.log, d'.log, k) &&
                                 c'.lastTime.Some? && k <= Tick(c'.lastTime.value) - 120))
  }

  lemma RecordAlike(c: Core, d: Core, k: int, now: real, delta: nat, after: nat)
    requires AlikeAt(c, d, k, now)
    ensures var r, s := Record(c, now, delta, after), Record(d, now, delta, after);
      match r
      case Err(e) => s == Err(e)
      case Ok(c') => s.Ok? && AlikeAt(c', s.value, k, now)
  {
    hide WindowTokens, AgreeFrom;
    var sample := Sample(Tick(now), delta, 0.0);
    AgreeThen(c.log, d.log, k, sample);
    AlikeWindows(Then(c.log, sample), Then(d.log, sample), k, now);
  }

  lemma ObserveAlike(c: Core, d: Core, k: int, now: real, delta: nat, after: nat)
    requires Alike(c, d, k)
    ensures var r, s := Observe(c, now, delta, after), Observe(d, now, delta, after);
      match r
      case Err(e) => s == Err(e)
      case Ok(c') => s.Ok? && AlikeAt(c', s.value, k, now)
  {
    hide AgreeFrom, Sound, Record, AdvanceClock;
    AdvanceAlike(c, d, k, now, !c.quarantined);
    if Advance(c, now).Ok? {
      RecordAlike(Advance(c, now).value, Advance(d, now).value, k, now, delta, after);
    }
  }

  lemma BatchAlike(c: Core, d: Core, k: int, now: real, delta: nat, seconds: real, key: Key, after: nat)
    requires Alike(c, d, k)
    ensures var r := ObserveBatch(c, now, delta, seconds, key, after);
      var s := ObserveBatch(d, now, delta, seconds, key, after);
      match r
      case Err(e) => s == Err(e)
      case Ok(c') => s.Ok? && AlikeAt(c', s.value, k, now)
  {
    hide AgreeFrom, Sound, Record, AdvanceClock, ObserveCell;
    AdvanceAlike(c, d, k, now, !c.quarantined);
    if Advance(c, now).Ok? {
      var c1, d1 := Advance(c, now).value, Advance(d, now).value;
      var cell := ObserveCell(CellAt(c1, key), now, delta, seconds);
      if cell.Ok? {
        RecordAlike(c1.(surface := c1.surface[key := cell.value]), d1.(surface := d1.surface[key := cell.value]), k,
                    now, delta, after);
      }
    }
  }

  lemma WriteAlike(c: Core, d: Core, k: int, op: Op)
    requires Alike(c, d, k) && (op.DoObserve? || op.DoObserveBatch? || op.DoObserveReplacement?)
    ensures SameAnswer(c, d, k, op)
  {
    hide AgreeFrom, Sound, Observe, ObserveBatch;
    match op
    case DoObserve(now, delta, after) => ObserveAlike(c, d, k, now, delta, after);
    case DoObserveBatch(now, delta, seconds, key, after) => BatchAlike(c, d, k, now, delta, seconds, key, after);
    case DoObserveReplacement(now, delta, seconds, key, after) =>
      BatchAlike(c, d, k, now, delta, seconds, key, after);
      ObserveAlike(c, d, k, now, 0, after);
  }

  lemma OtherWriteAlike(c: Core, d: Core, k: int, op: Op)
    requires Alike(c, d, k)
    requires op.DoQuarantine? || op.DoObserveSurface? || op.DoPrefill? || op.DoUpdateReference? || op.DoStartEpoch?
    ensures SameAnswer(c, d, k, op)
  {
    hide AgreeFrom, Sound, AdvanceClock, ObserveCell;
    if op.DoQuarantine? {
      AdvanceAlike(c, d, k, op.now, false);
    } else if op.DoObserveSurface? || op.DoPrefill? {
      AdvanceAlike(c, d, k, op.now, !c.quarantined);
    }
  }

  lemma ViewAlike(c: Core, d: Core, k: int, now: real)
    requires AlikeAt(c, d, k, now)
    ensures ViewAt(c, now) == ViewAt(d, now)
  {
    hide WindowTokens, WindowSeconds, AgreeFrom;
    AlikeWindows(c.log, d.log, k, now);
  }

  lemma ReadAlike(c: Core, d: Core, k: int, op: Op)
    requires Alike(c, d, k) && IsRead(op)
    ensures SameAnswer(c, d, k, op)
  {
    hide SameAnswer, Alike;
    match op
    case DoSnapshot(now) => SnapshotAlike(c, d, k, op);
    case DoChoose(now, decode, prefill, age) => ChooseAlike(c, d, k, op);
    case _ => ForecastAlike(c, d, k, op);
  }

  lemma SnapshotAlike(c: Core, d: Core, k: int, op: Op)
    requires Alike(c, d, k) && op.DoSnapshot?
    ensures SameAnswer(c, d, k, op)
  {
    hide AgreeFrom, Sound, AdvanceClock, ViewAt;
    AdvanceAlike(c, d, k, op.now, !c.quarantined);
    if Advance(c, op.now).Ok? {
      ViewAlike(Advance(c, op.now).value, Advance(d, op.now).value, k, op.now);
    }
  }

  lemma ChooseAlike(c: Core, d: Core, k: int, op: Op)
    requires Alike(c, d, k) && op.DoChoose?
    ensures SameAnswer(c, d, k, op)
  {
    hide AgreeFrom, Sound, AdvanceClock, ViewAt, Choose;
    AdvanceAlike(c, d, k, op.now, !c.quarantined);
    if Advance(c, op.now).Ok? {
      ViewAlike(Advance(c, op.now).value, Advance(d, op.now).value, k, op.now);
    }
    ChooseByView(c, d, op.now, op.decode, op.prefill, op.age);
  }

  /** A choice depends on the view alone, and leaves only its deadline. */
  lemma ChooseByView(c: Core, d: Core, now: real, decode: bool, prefill: bool, age: real)
    requires match (Advance(c, now), Advance(d, now))
      case (Ok(c1), Ok(d1)) => ViewAt(c1, now) == ViewAt(d1, now)
      case (Err(e), Err(f)) => e == f
      case _ => false
    ensures match (Choose(c, now, decode, prefill, age), Choose(d, now, decode, prefill, age))
      case (Ok((c', x)), Ok((d', y))) =>
        x == y && Advance(c, now).Ok? && Advance(d, now).Ok? &&
        c' == Advance(c, now).value.(preferenceUntil := c'.preferenceUntil) &&
        d' == Advance(d, now).value.(preferenceUntil := c'.preferenceUntil)
      case (Err(e), Err(f)) => e == f
      case _ => false
  {
    hide Duration, Advance, WindowTokens, WindowSeconds;
  }

  lemma ForecastAlike(c: Core, d: Core, k: int, op: Op)
    requires Alike(c, d, k) && (op.DoAdmit? || op.DoExport?)
    ensures SameAnswer(c, d, k, op)
  {
    hide AgreeFrom, Sound, AdvanceClock, Decide, ExportAll;
    AdvanceAlike(c, d, k, op.now, !c.quarantined);
    if Advance(c, op.now).Ok? {
      SameReads(Advance(c, op.now).value, Advance(d, op.now).value, op);
    }
  }

  lemma SameReads(c: Core, d: Core, op: Op)
    requires IsRead(op) && d == c.(log := d.log)
    ensures op.DoAdmit? ==> Decide(c, op.now, op.key) == Decide(d, op.now, op.key)
    ensures op.DoExport? ==> ExportAll(c, op.now) == ExportAll(d, op.now)
  {
    hide Decide, ExportFirst;
    match op
    case DoAdmit(now, key) => BareDecide(c, d, now, key);
    case DoExport(now, capacity) => BareExport(c, d, now, PRESSURE_CLASSES * c.maxRunning);
    case _ =>
  }

  lemma StepAlike(c: Core, d: Core, k: int, op: Op)
    requires Alike(c, d, k)
    ensures SameAnswer(c, d, k, op)
    ensures Step(c, op).0 == Step(d, op).0 || Alike(Step(c, op).0, Step(d, op).0, k)
  {
    hide AgreeFrom, Sound, Step;
    if IsRead(op) {
      ReadAlike(c, d, k, op);
    } else if op.DoObserve? || op.DoObserveBatch? || op.DoObserveReplacement? {
      WriteAlike(c, d, k, op);
    } else {
      OtherWriteAlike(c, d, k, op);
    }
    StepSound(c, op);
    StepSound(d, op);
  }

  /** No later call, whatever the run, tells them apart. */
  lemma {:induction false} RunAlike(c: Core, d: Core, k: int, ops: seq<Op>)
    requires c == d || Alike(c, d, k)
    ensures Outputs(c, ops) == Outputs(d, ops)
    decreases |ops|
  {
    hide Alike, Step;
    if ops != [] && c != d {
      StepAlike(c, d, k, ops[0]);
      RunAlike(Step(c, ops[0]).0, Step(d, ops[0]).0, k, ops[1..]);
    }
  }

  // ---------- Quarantine ----------

  /** The read at `t` charged nothing, or only time behind every window from `now` on. */
  predicate Unseen(c: Core, t: real, now: real) {
    c.active == 0 || c.quarantined || c.lastTime == Some(t) || t <= Edge(Tick(now) - 120)
  }

  lemma UnseenAgrees(c: Core, t: real, now: real)
    requires Sound(c) && ClockAccepts(c, t) && t <= now && Unseen(c, t, now)
    ensures AgreeFrom(Advance(c, t).value.log, c.log, Tick(now) - 120)
  {
    if c.active > 0 && !c.quarantined && c.lastTime != Some(t) && c.lastTime.Some? {
      hide Sound, Until, Expose;
      var last, k := c.lastTime.value, Tick(now) - 120;
      SoundUntil(c);
      forall first, until | k <= first <= until + 1
        ensures Tokens(Expose(c.log, last, t, c.active), first, until) == Tokens(c.log, first, until)
        ensures Seconds(Expose(c.log, last, t, c.active), first, until) == Seconds(c.log, first, until)
      {
        ExposeAdds(c.log, last, t, c.active, first, until);
        assert Meet(last, t, Edge(first), Edge(until + 1)) == 0.0;
      }
    }
  }

  lemma SeenShows(c: Core, t: real, now: real)
    requires Sound(c) && ClockAccepts(c, t) && t <= now && !Unseen(c, t, now)
    ensures WindowSeconds(Advance(c, t).value.log, now, WINDOW_SECONDS) > WindowSeconds(c.log, now, WINDOW_SECONDS)
  {
    hide Sound, Until, Expose;
    assert c.lastTime.Some? by { SoundWhenActive(c); }
    var last, first := c.lastTime.value, Tick(now) - 120;
    SoundUntil(c);
    WindowTicks(now);
    TickBrackets(now);
    SpanShows(c.log, last, t, c.active, first, Tick(now));
  }

  /** A span that reaches into a window shows in it. */
  lemma SpanShows(log: Log, from: real, to: real, active: nat, first: int, last: int)
    requires Until(log, from) && 0.0 <= from < to && active > 0 && first <= last && Edge(first) < to
    requires to <= Edge(last + 1)
    ensures Seconds(Expose(log, from, to, active), first, last) > Seconds(log, first, last)
  {
    hide Until, Expose, Seconds;
    ExposeAdds(log, from, to, active, first, last);
    ScalePositive(active, Meet(from, to, Edge(first), Edge(last + 1)));
  }

  lemma ScalePositive(n: nat, x: real)
    requires n > 0 && x > 0.0
    ensures n as real * x > 0.0
  {
  }

  lemma SoundWhenActive(c: Core)
    requires Sound(c) && c.active > 0
    ensures c.lastTime.Some?
  {
  }

  lemma QuarantineAlike(c: Core, t: real, now: real, after: nat, enabled: bool)
    requires Sound(c) && ClockAccepts(c, t) && t <= now < MAX_CLOCK && after <= c.maxRunning
    ensures Quarantine(Advance(c, t).value, now, after, enabled).Ok? && Quarantine(c, now, after, enabled).Ok?
    ensures var seen, bare := Quarantine(Advance(c, t).value, now, after, enabled).value,
                              Quarantine(c, now, after, enabled).value;
      Sound(seen) && Sound(bare) && bare == seen.(log := bare.log) && seen.lastTime == Some(now) &&
      seen.log == Advance(c, t).value.log && bare.log == c.log
  {
    hide Sound;
    StepSound(c, DoSnapshot(t));
    QuarantineSound(Advance(c, t).value, now, after, enabled);
    QuarantineSound(c, now, after, enabled);
  }

  lemma FirstLook(c: Core, now: real)
    requires Sound(c) && c.lastTime == Some(now)
    ensures Outputs(c, [DoSnapshot(now)]) == [Viewed(ViewAt(c, now))]
  {
    assert Advance(c, now) == Ok(c);
    assert [DoSnapshot(now)][1..] == [];
  }

  /** A quarantine tells an earlier read apart, by any output of any later run, exactly when that read
      charged exposure which a window can still show. */
  lemma QuarantineSeesRead(c: Core, t: real, now: real, after: nat, enabled: bool)
    requires Sound(c) && ClockAccepts(c, t) && t <= now < MAX_CLOCK && after <= c.maxRunning
    ensures Quarantine(Advance(c, t).value, now, after, enabled).Ok? && Quarantine(c, now, after, enabled).Ok?
    ensures var seen, bare := Quarantine(Advance(c, t).value, now, after, enabled).value,
                              Quarantine(c, now, after, enabled).value;
      (forall ops: seq<Op> :: Outputs(seen, ops) == Outputs(bare, ops)) <==> Unseen(c, t, now)
  {
    hide Sound, Quarantine, Unseen, AgreeFrom, Outputs;
    QuarantineAlike(c, t, now, after, enabled);
    var seen := Quarantine(Advance(c, t).value, now, after, enabled).value;
    var bare := Quarantine(c, now, after, enabled).value;
    if Unseen(c, t, now) {
      UnseenAgrees(c, t, now);
      forall ops: seq<Op> ensures Outputs(seen, ops) == Outputs(bare, ops) {
        RunAlike(seen, bare, Tick(now) - 120, ops);
      }
    } else {
      SeenShows(c, t, now);
      FirstLook(seen, now);
      FirstLook(bare, now);
      assert Viewed(ViewAt(seen, now)) != Viewed(ViewAt(bare, now));
      assert [Viewed(ViewAt(seen, now))][0] != [Viewed(ViewAt(bare, now))][0];
    }
  }
}
