/** Reading the controller changes nothing that any later call can observe, save
    that a quarantine drops the interval it closes. */
module Transparency {
  import opened Ledger
  import opened CoreSpec
  import opened CoreRuns

  predicate IsRead(op: Op) {
    op.DoSnapshot? || op.DoAdmit? || op.DoExport? || op.DoChoose?
  }

  /** An output without the preference deadline, which every `choose` restarts. */
  function Blur(out: Output): Output {
    if out.Viewed? then Viewed(out.view.(preferenceUntil := 0.0)) else out
  }

  function BlurAll(outs: seq<Output>): seq<Output> {
    if outs == [] then [] else [Blur(outs[0])] + BlurAll(outs[1..])
  }

  function Undated(c: Core): Core {
    c.(preferenceUntil := 0.0)
  }

  /** `d` is `c`, or `c` after a read at time `t`, up to the preference deadline. */
  ghost predicate Follows(c: Core, d: Core, t: real) {
    Undated(d) == Undated(c) || (ClockAccepts(c, t) && Undated(d) == Undated(Advance(c, t).value))
  }

  predicate Accepted(c: Core, op: Op) {
    !Step(c, op).1.Refused?
  }

  /** Until a call moves the clock, no call looks before `t` and none is a quarantine. */
  predicate Undisturbed(c: Core, ops: seq<Op>, t: real)
    decreases |ops|
  {
    ops == [] ||
    (if ops[0].DoUpdateReference? then Undisturbed(Step(c, ops[0]).0, ops[1..], t)
     else if ops[0].DoStartEpoch? then Accepted(c, ops[0]) || Undisturbed(c, ops[1..], t)
     else
       ops[0].now >= t &&
       if Accepted(c, ops[0]) then !ops[0].DoQuarantine? else Undisturbed(c, ops[1..], t))
  }

  lemma AdvanceTwice(c: Core, t: real, now: real)
    requires Sound(c) && ClockAccepts(c, t) && t <= now
    ensures Advance(Advance(c, t).value, now) == Advance(c, now)
  {
    if c.lastTime.Some? {
      ExposeTwice(c.log, c.lastTime.value, t, now, c.active);
      ExposeTwice(c.run, c.lastTime.value, t, now, c.active);
    }
  }

  // ---------- One step ----------

  /** The preference deadline is never read. */
  lemma UndatedAdvance(c: Core, d: Core, now: real)
    requires Undated(c) == Undated(d)
    ensures Advance(c, now).Ok? == Advance(d, now).Ok?
    ensures Advance(c, now).Err? ==> Advance(c, now) == Advance(d, now)
    ensures Advance(c, now).Ok? ==> Undated(Advance(c, now).value) == Undated(Advance(d, now).value)
  {
  }

  /** What forecasts and exports can see: neither the preference deadline nor the aggregate. */
  function Bare(c: Core): Core {
    c.(preferenceUntil := 0.0, log := Blank)
  }

  lemma BareBound(c: Core, d: Core, now: real, key: Key)
    requires Bare(c) == Bare(d)
    ensures BoundFor(c, now, key) == BoundFor(d, now, key)
    ensures AggregateBound(c, now) == AggregateBound(d, now)
  {
  }

  lemma {:induction false} BareLeast(c: Core, d: Core, now: real, want: Key, n: nat)
    requires Bare(c) == Bare(d)
    ensures LeastBound(c, now, want, n) == LeastBound(d, now, want, n)
  {
    if n > 0 {
      BareLeast(c, d, now, want, n - 1);
      BareBound(c, d, now, KeyAt(n - 1));
    }
  }

  lemma BareDecide(c: Core, d: Core, now: real, want: Key)
    requires Bare(c) == Bare(d)
    ensures Decide(c, now, want) == Decide(d, now, want)
  {
    BareBound(c, d, now, want);
    BareLeast(c, d, now, want, PRESSURE_CLASSES * c.maxRunning);
    assert c.surface == d.surface;
    forall key
      ensures (key in c.surface && LiveEvidence(c, now, key)) == (key in d.surface && LiveEvidence(d, now, key))
    {
    }
  }

  lemma {:induction false} BareExport(c: Core, d: Core, now: real, n: nat)
    requires Bare(c) == Bare(d)
    ensures ExportFirst(c, now, n) == ExportFirst(d, now, n)
  {
    if n > 0 {
      BareExport(c, d, now, n - 1);
      assert c.surface == d.surface;
    }
  }

  lemma UndatedRecord(c: Core, d: Core, now: real, delta: nat, after: nat)
    requires Undated(c) == Undated(d)
    ensures var r, s := Record(c, now, delta, after), Record(d, now, delta, after);
      r.Ok? == s.Ok? && (r.Ok? ==> Undated(r.value) == Undated(s.value)) && (r.Err? ==> r == s)
  {
    hide WindowTokens, Tokens;
  }

  /** Calls that advance the clock first depend only on the advanced, undated value. */
  ghost predicate SameAt(c: Core, d: Core, now: real) {
    c.maxRunning == d.maxRunning && c.active == d.active &&
    Advance(c, now).Ok? == Advance(d, now).Ok? && (Advance(c, now).Err? ==> Advance(c, now) == Advance(d, now)) &&
    (Advance(c, now).Ok? ==> Undated(Advance(c, now).value) == Undated(Advance(d, now).value))
  }

  ghost predicate SameEffect(c: Core, d: Core, op: Op) {
    var (c', out), (d', out') := Step(c, op), Step(d, op);
    Blur(out) == Blur(out') && out.Refused? == out'.Refused? && (!out.Refused? ==> Undated(c') == Undated(d'))
  }

  lemma SameRead(c: Core, d: Core, op: Op)
    requires IsRead(op) && SameAt(c, d, op.now)
    ensures SameEffect(c, d, op)
  {
    if Advance(c, op.now).Ok? {
      var c1, d1 := Advance(c, op.now).value, Advance(d, op.now).value;
      match op
      case DoSnapshot(now) =>
      case DoAdmit(now, key) => BareDecide(c1, d1, now, key);
      case DoExport(now, capacity) => BareExport(c1, d1, now, PRESSURE_CLASSES * c1.maxRunning);
      case DoChoose(now, decode, prefill, age) => SameChoose(c, d, op);
    }
  }

  lemma SameChoose(c: Core, d: Core, op: Op)
    requires op.DoChoose? && SameAt(c, d, op.now) && Advance(c, op.now).Ok?
    ensures SameEffect(c, d, op)
  {
    var c1, d1 := Advance(c, op.now).value, Advance(d, op.now).value;
    var v, w := ViewAt(c1, op.now), ViewAt(d1, op.now);
    assert v.(preferenceUntil := 0.0) == w.(preferenceUntil := 0.0);
    if op.age >= 0.0 && Weighs(v, op.decode, op.prefill) {
      assert Signal(v) == Signal(w);
      assert Duration(v, op.age) == Duration(w, op.age);
    }
  }

  lemma SameObserve(c: Core, d: Core, now: real, delta: nat, after: nat)
    requires SameAt(c, d, now)
    ensures SameEffect(c, d, DoObserve(now, delta, after))
  {
    if Advance(c, now).Ok? {
      UndatedRecord(Advance(c, now).value, Advance(d, now).value, now, delta, after);
    }
  }

  lemma SameBatch(c: Core, d: Core, now: real, delta: nat, seconds: real, key: Key, after: nat)
    requires SameAt(c, d, now)
    ensures SameEffect(c, d, DoObserveBatch(now, delta, seconds, key, after))
  {
    if Advance(c, now).Ok? {
      var c1, d1 := Advance(c, now).value, Advance(d, now).value;
      assert c1.surface == d1.surface;
      var cell := ObserveCell(CellAt(c1, key), now, delta, seconds);
      if cell.Ok? {
        UndatedRecord(c1.(surface := c1.surface[key := cell.value]), d1.(surface := d1.surface[key := cell.value]),
                      now, delta, after);
      }
    }
  }

  lemma SameReplacement(c: Core, d: Core, now: real, delta: nat, seconds: real, key: Key, after: nat)
    requires SameAt(c, d, now)
    ensures SameEffect(c, d, DoObserveReplacement(now, delta, seconds, key, after))
  {
    hide ObserveBatch, Observe, Advance;
    if seconds > 0.0 {
      SameBatch(c, d, now, delta, seconds, key, after);
    } else {
      SameObserve(c, d, now, 0, after);
    }
  }

  lemma SameSurface(c: Core, d: Core, now: real, delta: nat, seconds: real, key: Key)
    requires SameAt(c, d, now)
    ensures SameEffect(c, d, DoObserveSurface(now, delta, seconds, key))
  {
    hide ObserveCell, Advance;
    if Advance(c, now).Ok? {
      assert Advance(c, now).value.surface == Advance(d, now).value.surface;
    }
  }

  lemma SameStep(c: Core, d: Core, op: Op)
    requires !op.DoUpdateReference? && !op.DoStartEpoch? && !op.DoQuarantine? && SameAt(c, d, op.now)
    ensures SameEffect(c, d, op)
  {
    if IsRead(op) {
      SameRead(c, d, op);
    } else {
      match op
      case DoObserve(now, delta, after) => SameObserve(c, d, now, delta, after);
      case DoObserveSurface(now, delta, seconds, key) => SameSurface(c, d, now, delta, seconds, key);
      case DoObserveBatch(now, delta, seconds, key, after) => SameBatch(c, d, now, delta, seconds, key, after);
      case DoObserveReplacement(now, delta, seconds, key, after) =>
        SameReplacement(c, d, now, delta, seconds, key, after);
      case DoPrefill(now, wall) =>
    }
  }

  /** Equal values up to the deadline stay so under every call, quarantine included. */
  lemma UndatedStep(c: Core, d: Core, op: Op)
    requires Undated(c) == Undated(d)
    ensures Blur(Step(c, op).1) == Blur(Step(d, op).1) && Undated(Step(c, op).0) == Undated(Step(d, op).0)
  {
    if !op.DoUpdateReference? && !op.DoStartEpoch? && !op.DoQuarantine? {
      hide Step, Blur, Undated;
      UndatedAdvance(c, d, op.now);
      SameStep(c, d, op);
      RefusedKeeps(c, op);
      RefusedKeeps(d, op);
    }
  }

  lemma {:induction false} UndatedRun(c: Core, d: Core, ops: seq<Op>)
    requires Undated(c) == Undated(d)
    ensures BlurAll(Outputs(c, ops)) == BlurAll(Outputs(d, ops))
    decreases |ops|
  {
    if ops != [] {
      UndatedStep(c, d, ops[0]);
      UndatedRun(Step(c, ops[0]).0, Step(d, ops[0]).0, ops[1..]);
    }
  }

  // ---------- Whole runs ----------

  lemma TrailingStep(c: Core, d: Core, t: real, op: Op)
    requires Sound(c) && ClockAccepts(c, t) && Undated(d) == Undated(Advance(c, t).value)
    requires !op.DoUpdateReference? && !op.DoStartEpoch? && !op.DoQuarantine? && op.now >= t
    ensures SameEffect(c, d, op)
  {
    AdvanceTwice(c, t, op.now);
    UndatedAdvance(d, Advance(c, t).value, op.now);
    SameStep(c, d, op);
  }

  /** A value ahead by one read answers every later call of an undisturbed run alike. */
  lemma {:induction false} FollowerAgrees(c: Core, d: Core, t: real, ops: seq<Op>)
    requires Sound(c) && Follows(c, d, t) && Undisturbed(c, ops, t)
    ensures BlurAll(Outputs(c, ops)) == BlurAll(Outputs(d, ops))
    decreases |ops|
  {
    hide Sound, Step, Advance;
    if Undated(c) == Undated(d) {
      UndatedRun(c, d, ops);
    } else if ops != [] {
      var op := ops[0];
      StepSound(c, op);
      RefusedKeeps(c, op);
      RefusedKeeps(d, op);
      if op.DoUpdateReference? || op.DoStartEpoch? || op.DoQuarantine? {
        FollowerSlowStep(c, d, t, op);
      } else {
        TrailingStep(c, d, t, op);
      }
      if op.DoStartEpoch? && Accepted(c, op) {
        UndatedRun(Step(c, op).0, Step(d, op).0, ops[1..]);
      } else if op.DoUpdateReference? || !Accepted(c, op) {
        FollowerAgrees(Step(c, op).0, Step(d, op).0, t, ops[1..]);
      } else {
        UndatedRun(Step(c, op).0, Step(d, op).0, ops[1..]);
      }
    }
  }

  lemma PolicyCommutes(c: Core, d: Core, t: real, revision: nat, reference: real)
    requires ClockAccepts(c, t) && Undated(d) == Undated(Advance(c, t).value)
    ensures var op := DoUpdateReference(revision, reference);
      Step(c, op).1 == Step(d, op).1 && Follows(Step(c, op).0, Step(d, op).0, t)
  {
    assert c.revision == d.revision;
    if UpdateReference(c, revision, reference).Ok? {
      var c', d' := UpdateReference(c, revision, reference).value, UpdateReference(d, revision, reference).value;
      assert Undated(d') == Undated(Advance(c', t).value);
    }
  }

  lemma FollowerSlowStep(c: Core, d: Core, t: real, op: Op)
    requires Sound(c) && ClockAccepts(c, t) && Undated(d) == Undated(Advance(c, t).value)
    requires op.DoUpdateReference? || op.DoStartEpoch? || (op.DoQuarantine? && op.now >= t)
    ensures Blur(Step(c, op).1) == Blur(Step(d, op).1)
    ensures op.DoUpdateReference? ==> Follows(Step(c, op).0, Step(d, op).0, t)
    ensures op.DoStartEpoch? && Accepted(c, op) ==> Undated(Step(c, op).0) == Undated(Step(d, op).0)
    ensures !op.DoUpdateReference? && !Accepted(c, op) ==> Step(c, op).0 == c && Step(d, op).0 == d
  {
    hide Sound, Step, Expose;
    if op.DoUpdateReference? {
      PolicyCommutes(c, d, t, op.revision, op.reference);
      RefusedKeeps(c, op);
    } else {
      SlowOutputs(c, d, t, op);
    }
  }

  lemma SlowOutputs(c: Core, d: Core, t: real, op: Op)
    requires Sound(c) && ClockAccepts(c, t) && Undated(d) == Undated(Advance(c, t).value)
    requires op.DoStartEpoch? || (op.DoQuarantine? && op.now >= t)
    ensures Step(c, op).1 == Step(d, op).1
    ensures op.DoStartEpoch? && Accepted(c, op) ==> Undated(Step(c, op).0) == Undated(Step(d, op).0)
    ensures !Accepted(c, op) ==> Step(c, op).0 == c && Step(d, op).0 == d
  {
    hide Sound, Expose;
  }

  /** A call that advances the clock gives the same whether or not a read came first. */
  lemma StepAfterRead(c: Core, t: real, op: Op)
    requires Sound(c) && ClockAccepts(c, t)
    requires !op.DoUpdateReference? && !op.DoStartEpoch? && !op.DoQuarantine? && op.now >= t
    ensures var d := Advance(c, t).value;
      Step(c, op).1 == Step(d, op).1 && (Accepted(c, op) ==> Step(c, op).0 == Step(d, op).0)
  {
    hide Sound, Expose, Record, ObserveCell, ViewAt, Decide, ExportAll, Weighs, Duration, Advance;
    AdvanceTwice(c, t, op.now);
    AdvanceKeeps(c, t);
  }

  lemma AdvanceKeeps(c: Core, t: real)
    requires ClockAccepts(c, t)
    ensures Advance(c, t).Ok?
    ensures var d := Advance(c, t).value;
      d.maxRunning == c.maxRunning && d.active == c.active && d.reference == c.reference && d.revision == c.revision &&
      d.surface == c.surface && d.quarantined == c.quarantined
  {
  }

  lemma PolicyAfterRead(c: Core, t: real, op: Op)
    requires ClockAccepts(c, t) && (op.DoUpdateReference? || op.DoStartEpoch?)
    ensures var d := Advance(c, t).value;
      Step(c, op).1 == Step(d, op).1 &&
      (op.DoStartEpoch? && Accepted(c, op) ==> Step(c, op).0 == Step(d, op).0) &&
      (op.DoUpdateReference? ==>
        ClockAccepts(Step(c, op).0, t) && Step(d, op).0 == Advance(Step(c, op).0, t).value)
  {
    hide Expose;
    if op.DoUpdateReference? {
      hide StartSurfaceEpoch;
      AdvanceKeeps(c, t);
    }
  }

  /** The clock alone of a read at `t`, up to the last output and bit. */
  lemma {:induction false} ClockRead(c: Core, t: real, ops: seq<Op>)
    requires Sound(c) && ClockAccepts(c, t) && Undisturbed(c, ops, t)
    ensures Outputs(Advance(c, t).value, ops) == Outputs(c, ops)
    decreases |ops|
  {
    hide Sound, Step, Expose;
    if ops != [] {
      var op, d := ops[0], Advance(c, t).value;
      StepSound(c, op);
      RefusedKeeps(c, op);
      RefusedKeeps(d, op);
      if op.DoUpdateReference? || op.DoStartEpoch? {
        PolicyAfterRead(c, t, op);
      } else if !op.DoQuarantine? {
        StepAfterRead(c, t, op);
      } else {
        QuarantineRefused(c, t, op);
      }
      if op.DoUpdateReference? || !Accepted(c, op) {
        ClockRead(Step(c, op).0, t, ops[1..]);
      }
    }
  }

  lemma QuarantineRefused(c: Core, t: real, op: Op)
    requires ClockAccepts(c, t) && op.DoQuarantine? && op.now >= t && !Accepted(c, op)
    ensures Step(Advance(c, t).value, op).1 == Step(c, op).1
  {
  }

  /** A snapshot, forecast or export at `t` changes no later output at all; see `ReadTransparency`
      for `choose`, which restarts the preference deadline that snapshots show. */
  lemma ExactTransparency(c: Core, read: Op, ops: seq<Op>)
    requires Sound(c) && IsRead(read) && !read.DoChoose? && Accepted(c, read) && Undisturbed(c, ops, read.now)
    ensures Outputs(Step(c, read).0, ops) == Outputs(c, ops)
  {
    ClockRead(c, read.now, ops);
  }

  /** A read at `t` is invisible to every later run whose next clock call is no quarantine. */
  lemma ReadTransparency(c: Core, read: Op, ops: seq<Op>)
    requires Sound(c) && IsRead(read) && Accepted(c, read) && Undisturbed(c, ops, read.now)
    ensures BlurAll(Outputs(Step(c, read).0, ops)) == BlurAll(Outputs(c, ops))
  {
    FollowerAgrees(c, Step(c, read).0, read.now, ops);
  }
}
