/** The controller in place: rings updated slot by slot, and every call run on a
    copy that is published only on success. Each method is proved against the
    operation of the same name on the unbounded log. */
module Controller {
  import opened Wrappers
  import opened Ticks
  import opened Ledger
  import opened Ring
  import opened CoreSpec
  import opened CoreRuns
  import Forecasts

  function Elapsed(lastTime: Option<real>): real {
    if lastTime.Some? then lastTime.value else 0.0
  }

  method CopyRing(ring: array<Bucket>) returns (copy: array<Bucket>)
    requires ring.Length == BUCKETS
    ensures fresh(copy) && copy.Length == BUCKETS && copy[..] == ring[..]
  {
    copy := new Bucket[BUCKETS](i requires 0 <= i < BUCKETS reads ring => ring[i]);
    assert copy[..] == ring[..];
  }

  class SurfaceCell {
    const buckets: array<Bucket>
    var lastTime: Option<real>
    var lastQualified: Option<real>
    ghost var view: Cell

    ghost predicate Mirrored()
      reads this, buckets
    {
      buckets.Length == BUCKETS && view.lastTime == lastTime && view.lastQualified == lastQualified &&
      0.0 <= Elapsed(lastTime) && Until(view.log, Elapsed(lastTime)) &&
      Mirrors(buckets[..], view.log, Elapsed(lastTime))
    }

    constructor ()
      ensures Mirrored() && view == NEW_CELL && lastTime.None? && fresh(buckets)
    {
      buckets := new Bucket[BUCKETS](_ => EMPTY);
      lastTime, lastQualified := None, None;
      view := NEW_CELL;
      new;
      assert buckets[..] == seq(BUCKETS, _ => EMPTY);
      EmptyMirrors(0.0);
    }

    constructor Clone(cell: SurfaceCell)
      requires cell.Mirrored()
      ensures Mirrored() && Same(this, cell) && fresh(buckets)
    {
      var ring := CopyRing(cell.buckets);
      buckets := ring;
      lastTime, lastQualified := cell.lastTime, cell.lastQualified;
      view := cell.view;
    }

    method Observe(now: real, delta: nat, seconds: real) returns (r: Result<()>)
      requires Mirrored() && Elapsed(lastTime) <= now
      modifies this, buckets
      ensures r.Err? ==> r.error == Invalid
      ensures r.Ok? <==> ObserveCell(old(view), now, delta, seconds).Ok?
      ensures r.Ok? ==>
        Mirrored() && view == ObserveCell(old(view), now, delta, seconds).value && lastTime == Some(now)
    {
      if seconds < 0.0 || (delta > 0 && seconds == 0.0) {
        return Err(Invalid);
      }
      var k := Tick(now);
      TickMonotone(0.0, now);
      SampleMirrors(buckets[..], view.log, Elapsed(lastTime), now, delta, seconds);
      ghost var log := Then(view.log, Sample(k, delta, seconds));
      WindowTicks(now);
      WiderWindow(log, now, k, k, k - 120, k);
      var i := Slot(buckets, k);
      if buckets[i].tokens + delta >= U64 {
        return Err(Invalid);
      }
      buckets[i] := Bucket(k, buckets[i].tokens + delta, buckets[i].seconds + seconds);
      assert Mirrors(buckets[..], log, now);
      lastTime := Some(now);
      var recent := Evidence(buckets, now, WINDOW_SECONDS, log, now);
      if recent.Err? {
        return Err(Invalid);
      }
      if seconds > 0.0 && recent.value.1 >= MIN_EXPOSURE_SECONDS {
        lastQualified := Some(now);
      }
      view := ObserveCell(view, now, delta, seconds).value;
      return Ok(());
    }

    method IsQualified(now: real) returns (r: Result<bool>)
      requires Mirrored() && Elapsed(lastTime) <= now
      ensures r.Err? ==> r.error == Invalid
      ensures r.Ok? ==> r.value == Qualified(view, now)
      ensures LogSafe(view.log, Elapsed(lastTime)) ==> r.Ok?
    {
      if LogSafe(view.log, Elapsed(lastTime)) {
        SafeLater(view.log, Elapsed(lastTime), now, WINDOW_SECONDS);
      }
      var recent := Evidence(buckets, now, WINDOW_SECONDS, view.log, Elapsed(lastTime));
      if recent.Err? {
        return Err(recent.error);
      }
      return Ok(lastQualified.Some? && now - lastQualified.value <= MAX_SURFACE_AGE_SECONDS &&
                recent.value.1 >= MIN_EXPOSURE_SECONDS);
    }

    method Lower(now: real) returns (r: Result<Option<real>>)
      requires Mirrored() && Elapsed(lastTime) <= now
      ensures r.Err? ==> r.error == Invalid
      ensures r.Ok? ==> r.value == LowerBound(view.log, now)
      ensures LogSafe(view.log, Elapsed(lastTime)) ==> r.Ok?
    {
      if LogSafe(view.log, Elapsed(lastTime)) {
        SafeLater(view.log, Elapsed(lastTime), now, WINDOW_SECONDS);
        SafeLater(view.log, Elapsed(lastTime), now, SHORT_WINDOW_SECONDS);
      }
      var long := Evidence(buckets, now, WINDOW_SECONDS, view.log, Elapsed(lastTime));
      if long.Err? {
        return Err(long.error);
      }
      var short := Evidence(buckets, now, SHORT_WINDOW_SECONDS, view.log, Elapsed(lastTime));
      if short.Err? {
        return Err(short.error);
      }
      var longTps := if long.value.1 > 0.0 then Some(Rate(long.value.0, long.value.1)) else None;
      var shortTps := if short.value.1 > 0.0 then Some(Rate(short.value.0, short.value.1)) else None;
      match (shortTps, longTps)
      case (Some(a), Some(b)) => return Ok(Some(Min(a, b)));
      case (Some(a), None) => return Ok(Some(a));
      case (None, b) => return Ok(b);
    }

    method Admissible(now: real) returns (r: Result<Option<real>>)
      requires Mirrored() && Elapsed(lastTime) <= now
      ensures r.Err? ==> r.error == Invalid
      ensures r.Ok? ==> r.value == AdmissionBound(view.log, now)
      ensures LogSafe(view.log, Elapsed(lastTime)) ==> r.Ok?
    {
      if LogSafe(view.log, Elapsed(lastTime)) {
        SafeLater(view.log, Elapsed(lastTime), now, SHORT_WINDOW_SECONDS);
      }
      var short := Evidence(buckets, now, SHORT_WINDOW_SECONDS, view.log, Elapsed(lastTime));
      if short.Err? {
        return Err(short.error);
      }
      if short.value.1 >= MIN_EXPOSURE_SECONDS {
        return Ok(Some(Rate(short.value.0, short.value.1)));
      }
      r := Lower(now);
    }
  }

  /** A deep copy: new cells, new rings, the same views. */
  method CloneCells(cells: map<Key, SurfaceCell>, ghost views: map<Key, Cell>, ghost limit: real)
    returns (copy: map<Key, SurfaceCell>, ghost footprint: set<object>)
    requires CellsMirrored(cells, views, limit)
    ensures fresh(footprint) && CellsMirrored(copy, views, limit)
    ensures forall a, b :: a !in footprint && b !in footprint ==> CellsOwned(copy, footprint, a, b)
  {
    hide SurfaceCell.Mirrored;
    copy, footprint := map[], {};
    var keys := cells.Keys;
    while keys != {}
      invariant keys <= cells.Keys && copy.Keys == cells.Keys - keys
      invariant fresh(footprint)
      invariant forall k :: k in copy ==> copy[k] in footprint && copy[k].buckets in footprint
      invariant forall k :: k in copy ==> copy[k].Mirrored() && Same(copy[k], cells[k])
      invariant Apart(copy)
      decreases keys
    {
      var key :| key in keys;
      var cell := new SurfaceCell.Clone(cells[key]);
      copy, footprint := copy[key := cell], footprint + {cell, cell.buckets};
      keys := keys - {key};
    }
  }

  /** Each cell shows its own view and was last written by time `limit`. */
  ghost predicate CellsMirrored(cells: map<Key, SurfaceCell>, views: map<Key, Cell>, limit: real)
    reads cells.Values, set c | c in cells.Values :: c.buckets
  {
    cells.Keys == views.Keys &&
    forall k :: k in cells ==>
      cells[k].Mirrored() && cells[k].view == views[k] && Elapsed(cells[k].lastTime) <= limit
  }

  lemma PutCell(cells: map<Key, SurfaceCell>, views: map<Key, Cell>, limit: real, key: Key, cell: SurfaceCell)
    requires CellsMirrored(cells, views, limit)
    requires cell.Mirrored() && Elapsed(cell.lastTime) <= limit
    ensures CellsMirrored(cells[key := cell], views[key := cell.view], limit)
  {
    hide SurfaceCell.Mirrored;
  }

  lemma CellOf(cells: map<Key, SurfaceCell>, views: map<Key, Cell>, limit: real, key: Key)
    requires CellsMirrored(cells, views, limit) && key in cells
    ensures key in views && cells[key].Mirrored() && cells[key].view == views[key]
    ensures Elapsed(cells[key].lastTime) <= limit
  {
  }

  lemma NoCells(limit: real)
    ensures CellsMirrored(map[], map[], limit)
  {
  }

  lemma PutTwice<V>(m: map<Key, V>, key: Key, first: V, second: V)
    ensures m[key := first][key := second] == m[key := second]
    ensures (m[key := first] - {key})[key := second] == m[key := second]
  {
  }

  lemma DropCell(cells: map<Key, SurfaceCell>, views: map<Key, Cell>, limit: real, key: Key)
    requires CellsMirrored(cells, views, limit)
    ensures CellsMirrored(cells - {key}, views - {key}, limit)
  {
    hide SurfaceCell.Mirrored;
  }

  lemma LaterCells(cells: map<Key, SurfaceCell>, views: map<Key, Cell>, limit: real, later: real)
    requires CellsMirrored(cells, views, limit) && limit <= later
    ensures CellsMirrored(cells, views, later)
  {
    hide SurfaceCell.Mirrored;
  }

  /** The cells and their rings lie inside `repr`, clear of the two shared rings. */
  ghost predicate CellsOwned(cells: map<Key, SurfaceCell>, repr: set<object>, a: array<Bucket>, b: array<Bucket>) {
    Apart(cells) &&
    forall k :: k in cells ==>
      cells[k] in repr && cells[k].buckets in repr && cells[k].buckets != a && cells[k].buckets != b
  }

  lemma OwnCell(cells: map<Key, SurfaceCell>, repr: set<object>, a: array<Bucket>, b: array<Bucket>,
                key: Key, cell: SurfaceCell)
    requires CellsOwned(cells, repr, a, b) && a in repr && b in repr
    requires cell !in repr && cell.buckets !in repr
    ensures CellsOwned(cells[key := cell], repr + {cell, cell.buckets}, a, b)
  {
  }

  ghost predicate Same(a: SurfaceCell, b: SurfaceCell)
    reads a, b
  {
    a.view == b.view && a.lastTime == b.lastTime
  }

  /** No two keys share a cell or a ring. */
  ghost predicate Apart(cells: map<Key, SurfaceCell>) {
    forall k, l :: k in cells && l in cells && k != l ==>
      cells[k] != cells[l] && cells[k].buckets != cells[l].buckets
  }

  /** `self.bucket(index).seconds += exposure`. */
  method Charge(ring: array<Bucket>, index: int, exposure: real)
    requires ring.Length == BUCKETS && 0 <= index
    modifies ring
    ensures var was := Held(old(ring[..]), index);
      ring[..] == old(ring[..])[index % BUCKETS := was.(seconds := was.seconds + exposure)]
  {
    var i := Slot(ring, index);
    ring[i] := ring[i].(seconds := ring[i].seconds + exposure);
    assert ring[..] == old(ring[..])[i := ring[i]];
  }

  /** Charge both rings tick by tick over [last, now], reaching back at most 121 ticks. */
  method ChargeGap(buckets: array<Bucket>, runBuckets: array<Bucket>, last: real, now: real, active: nat,
                   ghost log: Log, ghost run: Log)
    returns (ghost turns: nat)
    requires buckets != runBuckets && 0.0 <= last <= now && Until(log, last) && Until(run, last)
    requires Mirrors(buckets[..], log, last) && Mirrors(runBuckets[..], run, last)
    modifies buckets, runBuckets
    ensures Mirrors(buckets[..], Expose(log, last, now, active), now) && Until(Expose(log, last, now, active), now)
    ensures Mirrors(runBuckets[..], Expose(run, last, now, active), now) && Until(Expose(run, last, now, active), now)
    ensures turns <= BUCKETS
  {
    hide Accruing, Exposure;
    turns := 0;
    AdvanceBegins(buckets[..], log, last, active, now);
    AdvanceBegins(runBuckets[..], run, last, active, now);
    ExposeAdds(log, last, now, active, 0, 0);
    ExposeAdds(run, last, now, active, 0, 0);
    if active == 0 {
      QuietAdvance(buckets[..], log, last, now);
      QuietAdvance(runBuckets[..], run, last, now);
      return;
    }
    hide Mirrors, Until, Expose;
    var start := ClampedStart(last, now);
    ghost var from := Tick(start);
    while start < now
      invariant last <= start <= now && Tick(now) - 120 <= from <= Tick(start)
      invariant Accruing(buckets[..], log, last, start, active, now)
      invariant Accruing(runBuckets[..], run, last, start, active, now)
      invariant turns <= Tick(start) - from + (if start == now then 1 else 0)
      decreases Tick(now) - Tick(start) + (if start < now then 1 else 0)
    {
      var index := Tick(start);
      var end := Min(Edge(index + 1), now);
      TurnBounds(start, now);
      AdvanceTurns(buckets[..], log, last, start, end, active, now);
      AdvanceTurns(runBuckets[..], run, last, start, end, active, now);
      Charge(buckets, index, Exposure(start, end, active));
      Charge(runBuckets, index, Exposure(start, end, active));
      start := end;
      turns := turns + 1;
    }
    AdvanceEnds(buckets[..], log, last, active, now);
    AdvanceEnds(runBuckets[..], run, last, active, now);
  }

  class State {
    const buckets: array<Bucket>
    const activeRunBuckets: array<Bucket>
    const maxRunning: nat
    var lastTime: Option<real>
    var observed: bool
    var active: nat
    var activeRunHasTokens: bool
    var quarantined: bool
    var revision: nat
    var reference: real
    var prefillEnd: Option<real>
    var prefillWall: real
    var preferenceUntil: real
    var surface: map<Key, SurfaceCell>
    var profilePrior: map<Key, ProfileCell>
    var profileDeadline: Option<real>
    ghost var view: Core
    ghost var Repr: set<object>

    ghost predicate Scalars()
      reads this
    {
      view.maxRunning == maxRunning && view.lastTime == lastTime && view.observed == observed &&
      view.active == active && view.runHasTokens == activeRunHasTokens && view.quarantined == quarantined &&
      view.revision == revision && view.reference == reference && view.prefillEnd == prefillEnd &&
      view.prefillWall == prefillWall && view.preferenceUntil == preferenceUntil &&
      view.prior == profilePrior && view.deadline == profileDeadline
    }

    ghost predicate Owned()
      reads this
    {
      this in Repr && buckets in Repr && activeRunBuckets in Repr && buckets != activeRunBuckets &&
      buckets.Length == BUCKETS && activeRunBuckets.Length == BUCKETS &&
      CellsOwned(surface, Repr, buckets, activeRunBuckets)
    }

    /** The fields, rings and cells show the view; nothing is said of its soundness. */
    ghost predicate Mirrored()
      reads this, Repr
    {
      Owned() && Scalars() && CellsMirrored(surface, view.surface, Elapsed(lastTime)) && 0.0 <= Elapsed(lastTime) &&
      Until(view.log, Elapsed(lastTime)) && Mirrors(buckets[..], view.log, Elapsed(lastTime)) &&
      Until(view.run, Elapsed(lastTime)) && Mirrors(activeRunBuckets[..], view.run, Elapsed(lastTime))
    }

    constructor (reference: real, maxRunning: nat)
      requires maxRunning > 0 && reference >= 0.0
      ensures Mirrored() && fresh(Repr) && view == CoreSpec.New(reference, maxRunning).value
    {
      buckets := new Bucket[BUCKETS](_ => EMPTY);
      activeRunBuckets := new Bucket[BUCKETS](_ => EMPTY);
      this.maxRunning := maxRunning;
      lastTime, observed, active, activeRunHasTokens, quarantined := None, false, 0, false, false;
      revision, this.reference := 1, reference;
      prefillEnd, prefillWall, preferenceUntil := None, 0.0, 0.0;
      surface, profilePrior, profileDeadline := map[], map[], None;
      view := CoreSpec.New(reference, maxRunning).value;
      new;
      Repr := {this, buckets, activeRunBuckets};
      assert buckets[..] == seq(BUCKETS, _ => EMPTY) == activeRunBuckets[..];
      EmptyMirrors(0.0);
    }

    constructor Clone(s: State)
      requires s.Mirrored()
      ensures Mirrored() && fresh(Repr) && view == s.view
    {
      hide SurfaceCell.Mirrored, CellsMirrored, Mirrors, Until;
      var ring := CopyRing(s.buckets);
      var runRing := CopyRing(s.activeRunBuckets);
      var cells, footprint := CloneCells(s.surface, s.view.surface, Elapsed(s.lastTime));
      buckets, activeRunBuckets, surface := ring, runRing, cells;
      maxRunning := s.maxRunning;
      lastTime, observed, active := s.lastTime, s.observed, s.active;
      activeRunHasTokens, quarantined := s.activeRunHasTokens, s.quarantined;
      revision, reference := s.revision, s.reference;
      prefillEnd, prefillWall, preferenceUntil := s.prefillEnd, s.prefillWall, s.preferenceUntil;
      profilePrior, profileDeadline := s.profilePrior, s.profileDeadline;
      view := s.view;
      Repr := {this, ring, runRing} + footprint;
    }

    // ---------- The clock ----------

    /** Move the clock to `now`, charging the active sequences when `accumulate` says so. */
    method AdvanceClock(now: real, accumulate: bool) returns (r: Result<()>, ghost turns: nat)
      requires Mirrored()
      modifies this, buckets, activeRunBuckets
      ensures r.Err? ==> r.error == Invalid
      ensures Repr == old(Repr) && surface == old(surface)
      ensures r.Ok? <==> CoreSpec.AdvanceClock(old(view), now, accumulate).Ok?
      ensures r.Ok? ==> Mirrored() && view == CoreSpec.AdvanceClock(old(view), now, accumulate).value
      ensures turns <= BUCKETS
    {
      hide SurfaceCell.Mirrored, CellsMirrored, Mirrors, Until, Expose;
      turns := 0;
      if now < 0.0 || now >= MAX_CLOCK || (lastTime.Some? && now < lastTime.value) {
        return Err(Invalid), 0;
      }
      if lastTime.Some? && accumulate {
        turns := ChargeGap(buckets, activeRunBuckets, lastTime.value, now, active, view.log, view.run);
      } else {
        QuietAdvance(buckets[..], view.log, Elapsed(lastTime), now);
        QuietAdvance(activeRunBuckets[..], view.run, Elapsed(lastTime), now);
      }
      LaterCells(surface, view.surface, Elapsed(lastTime), now);
      view := CoreSpec.AdvanceClock(view, now, accumulate).value;
      lastTime := Some(now);
      return Ok(()), turns;
    }

    // ---------- Observation ----------

    method RecordTokens(now: real, delta: nat) returns (r: Result<()>)
      requires Mirrored() && lastTime == Some(now)
      modifies this, buckets
      ensures r.Err? ==> r.error == Invalid
      ensures Repr == old(Repr) && surface == old(surface)
      ensures r.Ok? <==> CoreSpec.RecordTokens(old(view), now, delta).Ok?
      ensures r.Ok? ==> Mirrored() && view == CoreSpec.RecordTokens(old(view), now, delta).value
    {
      hide SurfaceCell.Mirrored, CellsMirrored, Mirrors;
      var k := Tick(now);
      TickMonotone(0.0, now);
      WindowTicks(now);
      SampleMirrors(buckets[..], view.log, now, now, delta, 0.0);
      ghost var log := Then(view.log, Sample(k, delta, 0.0));
      WiderWindow(log, now, k, k, k - 120, k);
      var i := Slot(buckets, k);
      if buckets[i].tokens + delta >= U64 {
        return Err(Invalid);
      }
      buckets[i] := buckets[i].(tokens := buckets[i].tokens + delta);
      assert buckets[..] == old(buckets[..])[i := buckets[i]];
      var window := Evidence(buckets, now, WINDOW_SECONDS, log, now);
      if window.Err? {
        return Err(window.error);
      }
      view := view.(log := log);
      return Ok(());
    }

    method UpdateActiveRun(before: nat, after: nat, now: real, delta: nat) returns (r: Result<()>)
      requires Mirrored() && lastTime == Some(now)
      modifies this, activeRunBuckets
      ensures r.Err? ==> r.error == Invalid
      ensures Repr == old(Repr) && surface == old(surface)
      ensures r.Ok? <==> CoreSpec.UpdateActiveRun(old(view), before, after, now, delta).Ok?
      ensures r.Ok? ==> Mirrored() && view == CoreSpec.UpdateActiveRun(old(view), before, after, now, delta).value
    {
      hide SurfaceCell.Mirrored, CellsMirrored, Mirrors;
      if before == 0 && after > 0 {
        ClearRun();
      }
      if delta > 0 && (before > 0 || after > 0) {
        r := RecordActiveRunTokens(now, delta);
        return;
      }
      return Ok(());
    }

    method RecordActiveRunTokens(now: real, delta: nat) returns (r: Result<()>)
      requires Mirrored() && lastTime == Some(now)
      modifies this, activeRunBuckets
      ensures r.Err? ==> r.error == Invalid
      ensures Repr == old(Repr) && surface == old(surface)
      ensures r.Ok? <==> Tokens(old(view).run, Tick(now), Tick(now)) + delta < U64
      ensures r.Ok? ==>
        (Mirrored() &&
         view == old(view).(run := Then(old(view).run, Sample(Tick(now), delta, 0.0)), runHasTokens := true))
    {
      hide SurfaceCell.Mirrored, CellsMirrored, Mirrors;
      var k := Tick(now);
      TickMonotone(0.0, now);
      SampleMirrors(activeRunBuckets[..], view.run, now, now, delta, 0.0);
      var i := Slot(activeRunBuckets, k);
      if activeRunBuckets[i].tokens + delta >= U64 {
        return Err(Invalid);
      }
      activeRunBuckets[i] := activeRunBuckets[i].(tokens := activeRunBuckets[i].tokens + delta);
      assert activeRunBuckets[..] == old(activeRunBuckets[..])[i := activeRunBuckets[i]];
      activeRunHasTokens := true;
      view := view.(run := Then(view.run, Sample(k, delta, 0.0)), runHasTokens := true);
      return Ok(());
    }

    method ClearRun()
      requires Mirrored()
      modifies this, activeRunBuckets
      ensures Mirrored() && Repr == old(Repr) && surface == old(surface)
      ensures view == old(view).(run := Blank, runHasTokens := false)
    {
      hide SurfaceCell.Mirrored, CellsMirrored, Mirrors;
      Clear(activeRunBuckets);
      EmptyMirrors(Elapsed(lastTime));
      activeRunHasTokens := false;
      view := view.(run := Blank, runHasTokens := false);
    }

    lemma FieldsShowView()
      requires Mirrored()
      ensures Scalars()
    {
    }

    method SetActive(after: nat, seen: bool)
      requires Mirrored()
      modifies this`active, this`observed, this`view
      ensures Mirrored() && view == old(view).(active := after, observed := seen)
    {
      hide SurfaceCell.Mirrored, CellsMirrored, Mirrors, Until;
      active, observed := after, seen;
      view := view.(active := after, observed := seen);
    }

    method SetQuarantined(enabled: bool)
      requires Mirrored()
      modifies this`quarantined, this`view
      ensures Mirrored() && view == old(view).(quarantined := enabled)
    {
      hide SurfaceCell.Mirrored, CellsMirrored, Mirrors, Until;
      quarantined := enabled;
      view := view.(quarantined := enabled);
    }

    /** The tail every accepted observation shares. */
    method Record(now: real, delta: nat, before: nat, after: nat) returns (r: Result<()>)
      requires Mirrored() && lastTime == Some(now) && before == active
      modifies this, buckets, activeRunBuckets
      ensures r.Err? ==> r.error == Invalid
      ensures Repr == old(Repr) && surface == old(surface)
      ensures r.Ok? <==> CoreSpec.Record(old(view), now, delta, after).Ok?
      ensures r.Ok? ==> Mirrored() && view == CoreSpec.Record(old(view), now, delta, after).value
    {
      hide State.Mirrored, CoreSpec.UpdateActiveRun;
      FieldsShowView();
      r := RecordTokens(now, delta);
      if r.Err? { return; }
      FieldsShowView();
      r := UpdateActiveRun(before, after, now, delta);
      if r.Err? { return; }
      SetActive(after, true);
    }

    method ObserveInPlace(now: real, delta: nat, after: nat) returns (r: Result<()>)
      requires Mirrored()
      modifies Repr
      ensures r.Err? ==> r.error == Invalid
      ensures Repr == old(Repr)
      ensures r.Ok? <==> CoreSpec.Observe(old(view), now, delta, after).Ok?
      ensures r.Ok? ==> Mirrored() && view == CoreSpec.Observe(old(view), now, delta, after).value
    {
      hide SurfaceCell.Mirrored, CellsMirrored, Mirrors, CoreSpec.Record;
      if after > maxRunning {
        return Err(Invalid);
      }
      var before := active;
      ghost var turns;
      r, turns := AdvanceClock(now, !quarantined);
      if r.Err? { return; }
      r := Record(now, delta, before, after);
    }

    method QuarantineInPlace(now: real, after: nat, enabled: bool) returns (r: Result<()>)
      requires Mirrored()
      modifies Repr
      ensures r.Err? ==> r.error == Invalid
      ensures Repr == old(Repr)
      ensures r.Ok? <==> CoreSpec.Quarantine(old(view), now, after, enabled).Ok?
      ensures r.Ok? ==> Mirrored() && view == CoreSpec.Quarantine(old(view), now, after, enabled).value
    {
      hide SurfaceCell.Mirrored, CellsMirrored, Mirrors;
      if after > maxRunning {
        return Err(Invalid);
      }
      ghost var turns;
      r, turns := AdvanceClock(now, false);
      if r.Err? { return; }
      SetActive(after, observed);
      ClearRun();
      SetQuarantined(enabled);
    }

    /** The cell of a key, created on first use. */
    method Entry(key: Key) returns (cell: SurfaceCell)
      requires Mirrored()
      modifies this`surface, this`Repr, this`view
      ensures fresh(Repr - old(Repr)) && old(Repr) <= Repr && lastTime == old(lastTime)
      ensures Mirrored() && key in surface && surface[key] == cell
      ensures view == old(view).(surface := old(view).surface[key := CellAt(old(view), key)])
    {
      hide SurfaceCell.Mirrored, Mirrored;
      SurfaceShown();
      if key !in surface {
        cell := new SurfaceCell();
        Install(key, cell);
      } else {
        cell := surface[key];
        assert view.surface == view.surface[key := CellAt(view, key)];
      }
    }

    lemma SurfaceShown()
      requires Mirrored()
      ensures surface.Keys == view.surface.Keys && 0.0 <= Elapsed(lastTime)
    {
    }

    /** Put a new cell under its key. */
    method Install(key: Key, cell: SurfaceCell)
      requires Mirrored() && key !in surface && cell !in Repr && cell.buckets !in Repr
      requires cell.Mirrored() && cell.view == NEW_CELL && Elapsed(cell.lastTime) <= Elapsed(lastTime)
      modifies this`surface, this`Repr, this`view
      ensures Mirrored() && surface == old(surface)[key := cell] && Repr == old(Repr) + {cell, cell.buckets}
      ensures view == old(view).(surface := old(view).surface[key := NEW_CELL])
    {
      hide SurfaceCell.Mirrored, CellsOwned, CellsMirrored, Mirrors, Until;
      PutCell(surface, view.surface, Elapsed(lastTime), key, cell);
      OwnCell(surface, Repr, buckets, activeRunBuckets, key, cell);
      surface := surface[key := cell];
      Repr := Repr + {cell, cell.buckets};
      view := view.(surface := view.surface[key := NEW_CELL]);
    }

    method ObserveCellAt(key: Key, now: real, delta: nat, seconds: real) returns (r: Result<()>)
      requires Mirrored() && lastTime == Some(now)
      modifies Repr
      ensures r.Err? ==> r.error == Invalid
      ensures fresh(Repr - old(Repr))
      ensures r.Ok? <==> ObserveCell(CellAt(old(view), key), now, delta, seconds).Ok?
      ensures r.Ok? ==> Mirrored() && view == old(view).(surface := old(view).surface[key :=
        ObserveCell(CellAt(old(view), key), now, delta, seconds).value])
    {
      hide SurfaceCell.Mirrored, CellsMirrored, Mirrors, Until, ObserveCell;
      ghost var was := view;
      var cell := Entry(key);
      ghost var views := view.surface;
      CellOf(surface, views, now, key);
      DropCell(surface, views, now, key);
      r := cell.Observe(now, delta, seconds);
      if r.Err? { return; }
      PutCell(surface - {key}, views - {key}, now, key, cell);
      PutTwice(was.surface, key, CellAt(was, key), cell.view);
      assert (surface - {key})[key := cell] == surface;
      view := view.(surface := was.surface[key := cell.view]);
    }

    method ObserveSurfaceInPlace(now: real, delta: nat, seconds: real, key: Key) returns (r: Result<()>)
      requires Mirrored()
      modifies Repr
      ensures r.Err? ==> r.error == Invalid
      ensures fresh(Repr - old(Repr))
      ensures r.Ok? <==> CoreSpec.ObserveSurface(old(view), now, delta, seconds, key).Ok?
      ensures r.Ok? ==> Mirrored() && view == CoreSpec.ObserveSurface(old(view), now, delta, seconds, key).value
    {
      hide SurfaceCell.Mirrored, CellsMirrored, Mirrors, Until, ObserveCell;
      if key.concurrency == 0 || key.concurrency > maxRunning || key.pressure >= PRESSURE_CLASSES ||
         seconds < 0.0 || (delta > 0 && seconds == 0.0) {
        return Err(Invalid);
      }
      ghost var turns;
      r, turns := AdvanceClock(now, !quarantined);
      if r.Err? { return; }
      r := ObserveCellAt(key, now, delta, seconds);
      if r.Err? { return; }
      SetActive(active, true);
    }

    method ObserveBatchInPlace(now: real, delta: nat, seconds: real, key: Key, after: nat) returns (r: Result<()>)
      requires Mirrored()
      modifies Repr
      ensures r.Err? ==> r.error == Invalid
      ensures fresh(Repr - old(Repr))
      ensures r.Ok? <==> CoreSpec.ObserveBatch(old(view), now, delta, seconds, key, after).Ok?
      ensures r.Ok? ==> Mirrored() && view == CoreSpec.ObserveBatch(old(view), now, delta, seconds, key, after).value
    {
      hide SurfaceCell.Mirrored, CellsMirrored, Mirrors, Until, ObserveCell, CoreSpec.Record;
      if key.concurrency == 0 || key.concurrency > maxRunning || key.pressure >= PRESSURE_CLASSES ||
         after > maxRunning || seconds < 0.0 || (delta > 0 && seconds == 0.0) {
        return Err(Invalid);
      }
      var before := active;
      ghost var turns;
      r, turns := AdvanceClock(now, !quarantined);
      if r.Err? { return; }
      r := ObserveCellAt(key, now, delta, seconds);
      if r.Err? { return; }
      r := Record(now, delta, before, after);
    }

    method ObserveReplacementInPlace(now: real, delta: nat, seconds: real, key: Key, after: nat) returns (r: Result<()>)
      requires Mirrored()
      modifies Repr
      ensures r.Err? ==> r.error == Invalid
      ensures fresh(Repr - old(Repr))
      ensures r.Ok? <==> CoreSpec.ObserveReplacement(old(view), now, delta, seconds, key, after).Ok?
      ensures r.Ok? ==>
        Mirrored() && view == CoreSpec.ObserveReplacement(old(view), now, delta, seconds, key, after).value
    {
      hide SurfaceCell.Mirrored, CellsMirrored, Mirrors, Until, CoreSpec.ObserveBatch, CoreSpec.Observe;
      if active == 0 || key.concurrency != active || after > maxRunning || key.pressure >= PRESSURE_CLASSES ||
         seconds < 0.0 || (seconds == 0.0 && delta != 0) {
        return Err(Invalid);
      }
      if seconds > 0.0 {
        r := ObserveBatchInPlace(now, delta, seconds, key, after);
      } else {
        r := ObserveInPlace(now, 0, after);
      }
      if r.Err? { return; }
      ClearRun();
    }

    method PrefillInPlace(now: real, wall: real) returns (r: Result<()>)
      requires Mirrored()
      modifies Repr
      ensures r.Err? ==> r.error == Invalid
      ensures Repr == old(Repr)
      ensures r.Ok? <==> CoreSpec.Prefill(old(view), now, wall).Ok?
      ensures r.Ok? ==> Mirrored() && view == CoreSpec.Prefill(old(view), now, wall).value
    {
      hide SurfaceCell.Mirrored, CellsMirrored, Mirrors, Until;
      if wall <= 0.0 || wall > now {
        return Err(Invalid);
      }
      ghost var turns;
      r, turns := AdvanceClock(now, !quarantined);
      if r.Err? { return; }
      SetPreference(Some(now), wall, 0.0);
    }

    method SetPreference(end: Option<real>, wall: real, until: real)
      requires Mirrored()
      modifies this`prefillEnd, this`prefillWall, this`preferenceUntil, this`view
      ensures Mirrored() && view == old(view).(prefillEnd := end, prefillWall := wall, preferenceUntil := until)
    {
      hide SurfaceCell.Mirrored, CellsMirrored, Mirrors, Until;
      prefillEnd, prefillWall, preferenceUntil := end, wall, until;
      view := view.(prefillEnd := end, prefillWall := wall, preferenceUntil := until);
    }

    method UpdateReferenceInPlace(expected: nat, newReference: real) returns (r: Result<()>)
      requires Mirrored()
      modifies Repr
      ensures Repr == old(Repr)
      ensures r.Ok? <==> CoreSpec.UpdateReference(old(view), expected, newReference).Ok?
      ensures r.Ok? ==> Mirrored() && view == CoreSpec.UpdateReference(old(view), expected, newReference).value
      ensures r.Err? ==> r.error == CoreSpec.UpdateReference(old(view), expected, newReference).error
    {
      hide SurfaceCell.Mirrored, CellsMirrored, Mirrors, Until;
      if newReference < 0.0 {
        return Err(Invalid);
      }
      if expected != revision {
        return Err(Conflict);
      }
      if revision + 1 >= U64 {
        return Err(Invalid);
      }
      revision, reference, preferenceUntil := revision + 1, newReference, 0.0;
      view := view.(revision := revision, reference := newReference, preferenceUntil := 0.0);
      return Ok(());
    }

    method StartSurfaceEpochInPlace(now: real, after: nat) returns (r: Result<()>)
      requires Mirrored()
      modifies Repr
      ensures r.Err? ==> r.error == Invalid
      ensures Repr == old(Repr)
      ensures r.Ok? <==> CoreSpec.StartSurfaceEpoch(old(view), now, after).Ok?
      ensures r.Ok? ==> Mirrored() && view == CoreSpec.StartSurfaceEpoch(old(view), now, after).value
    {
      hide SurfaceCell.Mirrored, CellsMirrored, Mirrors;
      if now < 0.0 || now >= MAX_CLOCK || after > maxRunning {
        return Err(Invalid);
      }
      SetActive(after, false);
      SetQuarantined(false);
      SetPreference(None, 0.0, 0.0);
      ForgetSurface();
      ForgetRings(now);
      return Ok(());
    }

    method ForgetSurface()
      requires Mirrored()
      modifies this`surface, this`profilePrior, this`profileDeadline, this`view
      ensures Mirrored()
      ensures surface == map[] && view == old(view).(surface := map[], prior := map[], deadline := None)
    {
      hide SurfaceCell.Mirrored, CellsMirrored, Mirrors, Until;
      surface, profilePrior, profileDeadline := map[], map[], None;
      view := view.(surface := map[], prior := map[], deadline := None);
      NoCells(Elapsed(lastTime));
    }

    method ForgetRings(now: real)
      requires Mirrored() && 0.0 <= now && surface == map[]
      modifies this, buckets, activeRunBuckets
      ensures Mirrored() && Repr == old(Repr)
      ensures view == old(view).(log := Blank, run := Blank, runHasTokens := false, lastTime := Some(now))
    {
      hide SurfaceCell.Mirrored, CellsMirrored, Mirrors, Until;
      SurfaceKeys();
      Clear(buckets);
      Clear(activeRunBuckets);
      EmptyMirrors(now);
      lastTime, activeRunHasTokens := Some(now), false;
      view := view.(log := Blank, run := Blank, runHasTokens := false, lastTime := Some(now));
      NoCells(now);
    }

    // ---------- Forecasts ----------

    method BoundForKey(now: real, key: Key) returns (r: Result<Option<Bound>>)
      requires Mirrored() && lastTime == Some(now)
      ensures r.Err? ==> r.error == Invalid
      ensures r.Ok? ==> r.value == BoundFor(view, now, key)
      ensures Sound(view) ==> r.Ok?
    {
      hide SurfaceCell.Mirrored, CellsMirrored, Mirrors, Until, AdmissionBound, Qualified, AggregateBound;
      var live: Option<real>, liveQualified: bool, lastLiveAt: Option<real> := None, false, None;
      SurfaceKeys();
      if key in surface {
        var cell := surface[key];
        CellOf(surface, view.surface, now, key);
        CellSafe(key, now);
        var bound := cell.Admissible(now);
        if bound.Err? { return Err(bound.error); }
        var qualified := cell.IsQualified(now);
        if qualified.Err? { return Err(qualified.error); }
        live, liveQualified, lastLiveAt := bound.value, qualified.value, cell.lastTime;
        CellTime(cell);
      }
      var prior := if profileDeadline.Some? && now < profileDeadline.value && key in profilePrior
                   then Some(profilePrior[key].approved) else None;
      r := Blend(now, key, live, liveQualified, lastLiveAt, prior);
    }

    /** A live and a prior bound of one key, blended. */
    method Blend(now: real, key: Key, live: Option<real>, liveQualified: bool, lastLiveAt: Option<real>,
                 prior: Option<real>) returns (r: Result<Option<Bound>>)
      requires Mirrored() && lastTime == Some(now)
      requires live == LiveBound(view, now, key) && prior == PriorBound(view, now, key)
      requires liveQualified == LiveQualified(view, now, key)
      requires lastLiveAt == if key in view.surface then view.surface[key].lastTime else None
      ensures r.Err? ==> r.error == Invalid
      ensures r.Ok? ==> r.value == BoundFor(view, now, key)
      ensures Sound(view) ==> r.Ok?
    {
      hide CellsMirrored, Mirrors, Until, LiveBound, LiveQualified, PriorBound, AggregateBound;
      SurfaceKeys();
      var aggregate := AggregateLiveLowerBound(now);
      match (live, prior)
      case (Some(l), Some(p)) =>
        if l < p {
          var reprobe := false;
          if lastLiveAt.Some? && l < reference && p >= reference &&
             now - lastLiveAt.value >= SHORT_WINDOW_SECONDS && key.concurrency == active + 1 {
            if aggregate.Err? { return Err(aggregate.error); }
            reprobe := aggregate.value.Some?;
          }
          return Ok(Some(if reprobe then Bound(p, false, true) else Bound(l, true, false)));
        }
        return Ok(Some(Bound(p, liveQualified, true)));
      case (Some(l), None) => return Ok(if liveQualified then Some(Bound(l, true, false)) else None);
      case (None, Some(p)) => return Ok(Some(Bound(p, false, true)));
      case (None, None) => return Ok(None);
    }

    lemma SurfaceKeys()
      requires Mirrored()
      ensures surface.Keys == view.surface.Keys && Scalars()
      ensures CellsMirrored(surface, view.surface, Elapsed(lastTime))
    {
    }

    lemma CellTime(cell: SurfaceCell)
      requires cell.Mirrored()
      ensures cell.view.lastTime == cell.lastTime
    {
    }

    lemma CellSafe(key: Key, now: real)
      requires Mirrored() && lastTime == Some(now) && key in surface
      ensures Sound(view) ==> LogSafe(surface[key].view.log, Elapsed(surface[key].lastTime))
    {
      CellTime(surface[key]);
    }

    method AggregateLiveLowerBound(now: real) returns (r: Result<Option<real>>)
      requires Mirrored() && lastTime == Some(now)
      ensures r.Err? ==> r.error == Invalid
      ensures r.Ok? ==> r.value == AggregateBound(view, now)
      ensures Sound(view) ==> r.Ok?
    {
      hide SurfaceCell.Mirrored, CellsMirrored, Mirrors;
      if active == 0 || !activeRunHasTokens {
        return Ok(None);
      }
      if Sound(view) {
        RunReadable(view, now);
      }
      var long := Evidence(activeRunBuckets, now, WINDOW_SECONDS, view.run, now);
      if long.Err? { return Err(long.error); }
      if long.value.1 < MIN_EXPOSURE_SECONDS {
        return Ok(None);
      }
      var short := Evidence(activeRunBuckets, now, SHORT_WINDOW_SECONDS, view.run, now);
      if short.Err? { return Err(short.error); }
      var longTps := Rate(long.value.0, long.value.1);
      if short.value.1 >= MIN_EXPOSURE_SECONDS {
        return Ok(Some(Rate(short.value.0, short.value.1)));
      }
      if short.value.1 > 0.0 {
        return Ok(Some(Min(longTps, Rate(short.value.0, short.value.1))));
      }
      return Ok(Some(longTps));
    }

    method HasQualifiedLive(now: real) returns (r: Result<bool>)
      requires Mirrored() && lastTime == Some(now)
      ensures r.Err? ==> r.error == Invalid
      ensures r.Ok? ==> r.value == CoreSpec.HasQualifiedLive(view, now)
      ensures Sound(view) ==> r.Ok?
    {
      hide SurfaceCell.Mirrored, CellsMirrored, Mirrors, Until, Qualified, LowerBound;
      SurfaceKeys();
      var keys := surface.Keys;
      while keys != {}
        invariant keys <= surface.Keys
        invariant forall key :: key in surface && key !in keys ==> !LiveEvidence(view, now, key)
        decreases keys
      {
        var key :| key in keys;
        var live := HasLiveEvidence(now, key);
        if live.Err? { return Err(live.error); }
        if live.value {
          return Ok(true);
        }
        keys := keys - {key};
      }
      return Ok(false);
    }

    method HasLiveEvidence(now: real, key: Key) returns (r: Result<bool>)
      requires Mirrored() && lastTime == Some(now) && key in surface
      ensures r.Err? ==> r.error == Invalid
      ensures r.Ok? ==> r.value == LiveEvidence(view, now, key)
      ensures Sound(view) ==> r.Ok?
    {
      hide SurfaceCell.Mirrored, CellsMirrored, Mirrors, Until, Qualified, LowerBound;
      SurfaceKeys();
      CellOf(surface, view.surface, now, key);
      CellSafe(key, now);
      var qualified := surface[key].IsQualified(now);
      if qualified.Err? { return Err(qualified.error); }
      if !qualified.value {
        return Ok(false);
      }
      var lower := surface[key].Lower(now);
      if lower.Err? { return Err(lower.error); }
      return Ok(lower.value.Some?);
    }

    /** Walk the surface in key order, keeping the least bound among the heavier keys. */
    method LeastHeavierBound(now: real, want: Key) returns (r: Result<Option<(Key, Bound)>>)
      requires Mirrored() && lastTime == Some(now)
      ensures r.Err? ==> r.error == Invalid
      ensures r.Ok? ==> r.value == LeastBound(view, now, want, PRESSURE_CLASSES * maxRunning)
      ensures Sound(view) ==> r.Ok?
    {
      hide SurfaceCell.Mirrored, CellsMirrored, Mirrors, Until, State.Mirrored, BoundFor;
      var selected: Option<(Key, Bound)> := None;
      for i := 0 to PRESSURE_CLASSES * maxRunning
        invariant selected == LeastBound(view, now, want, i)
      {
        var key := KeyAt(i);
        if Dominates(key, want) {
          var bound := BoundForKey(now, key);
          if bound.Err? { return Err(bound.error); }
          if bound.value.Some? && (selected.None? || bound.value.value.value < selected.value.1.value) {
            selected := Some((key, bound.value.value));
          }
        }
      }
      return Ok(selected);
    }

    /** The decision at an already advanced clock. */
    method DecideAt(now: real, want: Key) returns (r: Result<Forecast>)
      requires Mirrored() && lastTime == Some(now)
      ensures r.Err? ==> r.error == Invalid
      ensures r.Ok? ==> r.value == Decide(view, now, want)
      ensures Sound(view) ==> r.Ok?
    {
      hide SurfaceCell.Mirrored, CellsMirrored, Mirrors, Until, BoundFor, AggregateBound;
      hide CoreSpec.HasQualifiedLive, LeastBound;
      SurfaceKeys();
      var observed := HasQualifiedLive(now);
      if observed.Err? { return Err(observed.error); }
      if reference == 0.0 {
        return Ok(Forecast(true, ReferenceDisabled, observed.value, reference, 0.0, want, None, active));
      }
      var exact := BoundForKey(now, want);
      if exact.Err? { return Err(exact.error); }
      var selected: Option<(Key, Bound)>;
      if exact.value.Some? {
        selected := Some((want, exact.value.value));
      } else {
        var least := LeastHeavierBound(now, want);
        if least.Err? { return Err(least.error); }
        selected := least.value;
      }
      if selected.Some? && selected.value.1.value >= reference {
        var aggregate := AggregateLiveLowerBound(now);
        if aggregate.Err? { return Err(aggregate.error); }
        if aggregate.value.Some? && aggregate.value.value < reference {
          return Ok(Forecast(false, AggregateTpsRisk, true, reference, aggregate.value.value, want, None, active));
        }
      }
      match selected
      case None =>
        return Ok(Forecast(false, Unknown, false, reference, 0.0, want, None, active));
      case Some((key, bound)) =>
        var allowed := bound.value >= reference;
        return Ok(Forecast(allowed,
          if !allowed then TpsRisk else if bound.usedPrior && !bound.usedLive then ColdPrior else Fit,
          bound.usedLive, reference, bound.value, want, Some(key), active));
    }

    method AdmissionInPlace(now: real, want: Key) returns (r: Result<Forecast>)
      requires Mirrored()
      modifies Repr
      ensures r.Err? ==> r.error == Invalid
      ensures Repr == old(Repr)
      ensures r.Ok? ==> CoreSpec.Admit(old(view), now, want).Ok?
      ensures r.Ok? ==> Mirrored() && (view, r.value) == CoreSpec.Admit(old(view), now, want).value
      ensures Sound(old(view)) && CoreSpec.Admit(old(view), now, want).Ok? ==> r.Ok?
    {
      hide SurfaceCell.Mirrored, CellsMirrored, Mirrors, Until, Decide, Sound;
      if want.concurrency == 0 || want.concurrency > maxRunning || want.pressure >= PRESSURE_CLASSES {
        return Err(Invalid);
      }
      var turned, turns := AdvanceClock(now, !quarantined);
      if turned.Err? { return Err(turned.error); }
      if Sound(old(view)) {
        ReadSound(old(view), now);
      }
      r := DecideAt(now, want);
    }

    // ---------- Reading out ----------

    method ViewNow(now: real) returns (r: Result<View>)
      requires Mirrored() && lastTime == Some(now)
      ensures r.Err? ==> r.error == Invalid
      ensures r.Ok? ==> r.value == ViewAt(view, now)
      ensures Sound(view) ==> r.Ok?
    {
      hide SurfaceCell.Mirrored, CellsMirrored, Mirrors, Until;
      if Sound(view) {
        SafeLater(view.log, now, now, SHORT_WINDOW_SECONDS);
      }
      var long := Evidence(buckets, now, WINDOW_SECONDS, view.log, now);
      if long.Err? { return Err(long.error); }
      var short := Evidence(buckets, now, SHORT_WINDOW_SECONDS, view.log, now);
      if short.Err? { return Err(short.error); }
      return Ok(View(observed, revision, reference, long.value.0, long.value.1, short.value.0, short.value.1,
                     active, prefillEnd, prefillWall, preferenceUntil));
    }

    method SnapshotInPlace(now: real) returns (r: Result<View>)
      requires Mirrored()
      modifies Repr
      ensures r.Err? ==> r.error == Invalid
      ensures Repr == old(Repr)
      ensures r.Ok? ==> CoreSpec.Snapshot(old(view), now).Ok?
      ensures r.Ok? ==> Mirrored() && (view, r.value) == CoreSpec.Snapshot(old(view), now).value
      ensures Sound(old(view)) && CoreSpec.Snapshot(old(view), now).Ok? ==> r.Ok?
    {
      hide SurfaceCell.Mirrored, CellsMirrored, Mirrors, Until, Sound;
      var turned, turns := AdvanceClock(now, !quarantined);
      if turned.Err? { return Err(turned.error); }
      if Sound(old(view)) {
        ReadSound(old(view), now);
      }
      r := ViewNow(now);
    }

    method ExportCells(now: real) returns (r: Result<seq<ProfileCell>>)
      requires Mirrored() && lastTime == Some(now)
      ensures r.Err? ==> r.error == Invalid
      ensures r.Ok? ==> r.value == ExportFirst(view, now, PRESSURE_CLASSES * maxRunning)
      ensures Sound(view) ==> r.Ok?
    {
      hide SurfaceCell.Mirrored, CellsMirrored, Mirrors, Until, State.Mirrored, Qualified, LowerBound;
      var cells: seq<ProfileCell> := [];
      for i := 0 to PRESSURE_CLASSES * maxRunning
        invariant cells == ExportFirst(view, now, i)
      {
        var key := KeyAt(i);
        SurfaceKeys();
        if key in surface {
          var live := HasLiveEvidence(now, key);
          if live.Err? { return Err(live.error); }
          if live.value {
            var cell := ExportOne(now, key);
            if cell.Err? { return Err(cell.error); }
            cells := cells + [cell.value];
          }
        }
      }
      return Ok(cells);
    }

    method ExportOne(now: real, key: Key) returns (r: Result<ProfileCell>)
      requires Mirrored() && lastTime == Some(now) && key in surface && LiveEvidence(view, now, key)
      ensures r.Err? ==> r.error == Invalid
      ensures r.Ok? ==> r.value == ExportCell(view, now, key)
      ensures Sound(view) ==> r.Ok?
    {
      hide CellsMirrored, Mirrors, Qualified, LowerBound;
      SurfaceKeys();
      CellOf(surface, view.surface, now, key);
      CellSafe(key, now);
      var cell := surface[key];
      if Sound(view) {
        CellReadable(cell.view, now, now);
      }
      var long := Evidence(cell.buckets, now, WINDOW_SECONDS, cell.view.log, Elapsed(cell.lastTime));
      if long.Err? { return Err(long.error); }
      var short := Evidence(cell.buckets, now, SHORT_WINDOW_SECONDS, cell.view.log, Elapsed(cell.lastTime));
      if short.Err? { return Err(short.error); }
      var lower := cell.Lower(now);
      if lower.Err? { return Err(lower.error); }
      return Ok(ProfileCell(key, long.value.0, long.value.1, short.value.0, short.value.1, lower.value.value));
    }

    method ExportInPlace(now: real, capacity: nat) returns (r: Result<seq<ProfileCell>>)
      requires Mirrored()
      modifies Repr
      ensures r.Err? ==> r.error == Invalid
      ensures Repr == old(Repr)
      ensures r.Ok? ==> CoreSpec.Export(old(view), now, capacity).Ok?
      ensures r.Ok? ==> Mirrored() && (view, r.value) == CoreSpec.Export(old(view), now, capacity).value
      ensures Sound(old(view)) && CoreSpec.Export(old(view), now, capacity).Ok? ==> r.Ok?
    {
      hide SurfaceCell.Mirrored, CellsMirrored, Mirrors, Until, Sound, ExportFirst;
      var turned, turns := AdvanceClock(now, !quarantined);
      if turned.Err? { return Err(turned.error); }
      if Sound(old(view)) {
        ReadSound(old(view), now);
      }
      r := ExportCells(now);
      if r.Ok? && |r.value| > capacity {
        return Err(Invalid);
      }
    }

    method ChooseInPlace(now: real, decode: bool, prefill: bool, age: real) returns (r: Result<bool>)
      requires Mirrored()
      modifies Repr
      ensures r.Err? ==> r.error == Invalid
      ensures Repr == old(Repr)
      ensures r.Ok? ==> CoreSpec.Choose(old(view), now, decode, prefill, age).Ok?
      ensures r.Ok? ==> Mirrored() && (view, r.value) == CoreSpec.Choose(old(view), now, decode, prefill, age).value
      ensures Sound(old(view)) && CoreSpec.Choose(old(view), now, decode, prefill, age).Ok? ==> r.Ok?
    {
      hide SurfaceCell.Mirrored, CellsMirrored, Mirrors, Until, Sound, Duration;
      if age < 0.0 {
        return Err(Invalid);
      }
      var snapshot := SnapshotInPlace(now);
      if snapshot.Err? { return Err(snapshot.error); }
      var seen := snapshot.value;
      if !Weighs(seen, decode, prefill) {
        SetPreference(prefillEnd, prefillWall, 0.0);
        return Ok(false);
      }
      var duration := Duration(seen, age);
      SetPreference(prefillEnd, prefillWall, prefillEnd.value + duration);
      return Ok(now - prefillEnd.value < duration);
    }

    /** Install priors in a controller that has observed nothing. */
    method Seed(now: real, deadline: real, prior: map<Key, ProfileCell>)
      requires Mirrored() && lastTime.None? && 0.0 <= now
      modifies this`lastTime, this`profilePrior, this`profileDeadline, this`view
      ensures Mirrored() && Repr == old(Repr)
      ensures view == old(view).(lastTime := Some(now), prior := prior, deadline := Some(deadline))
    {
      hide SurfaceCell.Mirrored, CellsMirrored, Mirrors, Until;
      QuietAdvance(buckets[..], view.log, 0.0, now);
      QuietAdvance(activeRunBuckets[..], view.run, 0.0, now);
      LaterCells(surface, view.surface, 0.0, now);
      lastTime, profilePrior, profileDeadline := Some(now), prior, Some(deadline);
      view := view.(lastTime := Some(now), prior := prior, deadline := Some(deadline));
    }

    // ---------- Any call ----------

    /** A refused call may leave this copy half updated; its owner discards it. */
    method Apply(op: Op) returns (out: Output)
      requires Mirrored() && Sound(view)
      modifies Repr
      ensures fresh(Repr - old(Repr))
      ensures out == Step(old(view), op).1
      ensures !out.Refused? ==> Mirrored() && view == Step(old(view), op).0
    {
      hide State.Mirrored, Sound;
      if op.DoSnapshot? || op.DoAdmit? || op.DoExport? || op.DoChoose? {
        out := ApplyRead(op);
      } else {
        out := ApplyWrite(op);
      }
    }

    method ApplyWrite(op: Op) returns (out: Output)
      requires Mirrored() && !op.DoSnapshot? && !op.DoAdmit? && !op.DoExport? && !op.DoChoose?
      modifies Repr
      ensures fresh(Repr - old(Repr))
      ensures out == Step(old(view), op).1
      ensures !out.Refused? ==> Mirrored() && view == Step(old(view), op).0
    {
      hide State.Mirrored, CoreSpec.Observe, CoreSpec.Quarantine, CoreSpec.ObserveSurface, CoreSpec.ObserveBatch;
      hide CoreSpec.ObserveReplacement, CoreSpec.Prefill, CoreSpec.UpdateReference, CoreSpec.StartSurfaceEpoch;
      RefusalsInvalid(view, op);
      var r: Result<()>;
      match op {
        case DoObserve(now, delta, after) => r := ObserveInPlace(now, delta, after);
        case DoQuarantine(now, after, enabled) => r := QuarantineInPlace(now, after, enabled);
        case DoObserveSurface(now, delta, seconds, key) => r := ObserveSurfaceInPlace(now, delta, seconds, key);
        case DoObserveBatch(now, delta, seconds, key, after) =>
          r := ObserveBatchInPlace(now, delta, seconds, key, after);
        case DoObserveReplacement(now, delta, seconds, key, after) =>
          r := ObserveReplacementInPlace(now, delta, seconds, key, after);
        case DoPrefill(now, wall) => r := PrefillInPlace(now, wall);
        case DoUpdateReference(expected, newReference) => r := UpdateReferenceInPlace(expected, newReference);
        case DoStartEpoch(now, after) => r := StartSurfaceEpochInPlace(now, after);
      }
      return if r.Ok? then Done else Refused(r.error);
    }

    /** On a sound value no read is refused but for its arguments or the clock. */
    method ApplyRead(op: Op) returns (out: Output)
      requires Mirrored() && Sound(view) && (op.DoSnapshot? || op.DoAdmit? || op.DoExport? || op.DoChoose?)
      modifies Repr
      ensures fresh(Repr - old(Repr))
      ensures out == Step(old(view), op).1
      ensures !out.Refused? ==> Mirrored() && view == Step(old(view), op).0
    {
      hide State.Mirrored, Sound, CoreSpec.Snapshot, CoreSpec.Admit, CoreSpec.Export, CoreSpec.Choose;
      RefusalsInvalid(view, op);
      match op {
        case DoSnapshot(now) =>
          var r := SnapshotInPlace(now);
          return if r.Ok? then Viewed(r.value) else Refused(r.error);
        case DoAdmit(now, key) =>
          var r := AdmissionInPlace(now, key);
          return if r.Ok? then Forecasted(r.value) else Refused(r.error);
        case DoExport(now, capacity) =>
          var r := ExportInPlace(now, capacity);
          return if r.Ok? then Exported(r.value) else Refused(r.error);
        case DoChoose(now, decode, prefill, age) =>
          var r := ChooseInPlace(now, decode, prefill, age);
          return if r.Ok? then Chosen(r.value) else Refused(r.error);
      }
    }
  }

  /** Load imported cells one by one; an invalid cell or a repeated key refuses them all. */
  method LoadPriors(cells: seq<ProfileCell>, maxRunning: nat) returns (r: Result<map<Key, ProfileCell>>)
    ensures r == ImportCells(cells, maxRunning)
  {
    var prior: map<Key, ProfileCell> := map[];
    for i := 0 to |cells|
      invariant ImportCells(cells[..i], maxRunning) == Ok(prior)
    {
      assert cells[..i + 1][..i] == cells[..i];
      ImportPrefix(cells, i + 1, maxRunning);
      if !ValidProfileCell(cells[i], maxRunning) || cells[i].key in prior {
        return Err(Invalid);
      }
      prior := prior[cells[i].key := cells[i]];
    }
    assert cells[..|cells|] == cells;
    return Ok(prior);
  }

  lemma {:induction false} ImportPrefix(cells: seq<ProfileCell>, n: nat, maxRunning: nat)
    requires n <= |cells|
    ensures ImportCells(cells[..n], maxRunning).Err? ==> ImportCells(cells, maxRunning) == Err(Invalid)
    ensures ImportCells(cells, maxRunning).Err? ==> ImportCells(cells, maxRunning) == Err(Invalid)
  {
    if cells != [] {
      var m := |cells| - 1;
      if n < |cells| {
        ImportPrefix(cells[..m], n, maxRunning);
        assert cells[..m][..n] == cells[..n];
      } else {
        ImportPrefix(cells[..m], m, maxRunning);
        assert cells[..n] == cells;
      }
    }
  }

  /** Only a policy update can meet a conflict. */
  lemma RefusalsInvalid(c: Core, op: Op)
    ensures Step(c, op).1.Refused? && !op.DoUpdateReference? ==> Step(c, op).1.error == Invalid
  {
  }

  /** The handle: each call runs on a copy, which replaces the state only on success. */
  class Governor {
    var state: State

    ghost predicate Valid()
      reads this, state, state.Repr
    {
      state.Mirrored() && Sound(state.view)
    }

    constructor (reference: real, maxRunning: nat)
      requires maxRunning > 0 && reference >= 0.0
      ensures Valid() && fresh(state) && fresh(state.Repr) && this !in state.Repr
      ensures state.view == New(reference, maxRunning).value
    {
      state := new State(reference, maxRunning);
      new;
      NewSound(reference, maxRunning);
    }

    /** A controller seeded with a profile's cells as priors, until now + ttl. */
    static method WithProfile(reference: real, maxRunning: nat, now: real, ttl: real, cells: seq<ProfileCell>)
      returns (r: Result<Governor>)
      ensures r.Ok? <==> NewWithProfile(reference, maxRunning, now, ttl, cells).Ok?
      ensures match (r, NewWithProfile(reference, maxRunning, now, ttl, cells))
        case (Err(e), Err(f)) => e == f
        case _ => true
      ensures r.Ok? ==> (fresh(r.value) && fresh(r.value.state) && r.value.Valid() && r.value !in r.value.state.Repr &&
        r.value.state.view == NewWithProfile(reference, maxRunning, now, ttl, cells).value)
    {
      hide State.Mirrored, Sound;
      if now < 0.0 || now >= MAX_CLOCK || ttl <= 0.0 {
        return Err(Invalid);
      }
      if |cells| > maxRunning * PRESSURE_CLASSES || now + ttl >= MAX_CLOCK {
        return Err(Invalid);
      }
      if maxRunning == 0 || reference < 0.0 {
        return Err(Invalid);
      }
      var prior := LoadPriors(cells, maxRunning);
      if prior.Err? {
        return Err(prior.error);
      }
      var governor := new Governor(reference, maxRunning);
      governor.state.FieldsShowView();
      governor.state.Seed(now, now + ttl, prior.value);
      NewWithProfileSound(reference, maxRunning, now, ttl, cells);
      return Ok(governor);
    }

    /** Every call is one step of the unbounded controller: outputs, refusals and state alike. */
    method Transaction(op: Op) returns (out: Output)
      requires Valid()
      modifies this
      ensures Valid() && (state.view, out) == Step(old(state.view), op)
      ensures if out.Refused? then state == old(state) && state.Repr == old(state.Repr)
              else fresh(state) && fresh(state.Repr)
    {
      hide State.Mirrored, Sound, Step;
      var next := new State.Clone(state);
      out := next.Apply(op);
      StepSound(state.view, op);
      RefusedKeeps(state.view, op);
      if !out.Refused? {
        state := next;
      }
    }
  }

  lemma RunReadable(c: Core, now: real)
    requires Sound(c) && c.lastTime == Some(now)
    ensures WindowTokens(c.run, now, WINDOW_SECONDS) < U64 && WindowTokens(c.run, now, SHORT_WINDOW_SECONDS) < U64
  {
    Forecasts.ReadingsFit(c, now);
  }
}
