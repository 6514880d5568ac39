/** How the scheduler drives its core: every call of the scheduler is a short run of calls of the
    core, so that what holds of every run of the core holds in every run of the whole system. */
module Drives {
  import opened Wrappers
  import opened CoreSpec
  import opened CoreRuns
  import opened Scheduler
  import opened Ledgers
  import opened Joint
  import Conservation
  import Forecasts
  import Lifecycles
  import Ticks

  // ---------- The calls ----------

  function RefreshOps(g: Gov, now: real, current: int): seq<Op> {
    if (g.paused || current != g.identity) && g.outstanding == 0 && g.active == 0 then [DoStartEpoch(now, 0)] else []
  }

  /** A fitting health check quarantines first, and takes that back when the forecast fails. The adjacent
      forecast of a probe reads at an unchanged clock and is left out. */
  function ForecastOps(g: Gov, now: real, want: Key, fits: bool): seq<Op> {
    if !fits then [DoAdmit(now, want)]
    else
      var q := Quarantine(g.core, now, g.active, true);
      [DoQuarantine(now, g.active, true)] +
      (if q.Err? then []
       else
         [DoAdmit(now, want)] +
         (if Admit(q.value, now, want).Ok? then []
          else [DoQuarantine(now, g.active, g.healthOutstanding != 0 || g.dirty)]))
  }

  function AdmitOps(g: Gov, id: nat, now: real, retracted: bool, waiting: Option<nat>, health: bool): seq<Op> {
    if id >= |g.requests| || g.requests[id].reservation.Some? || retracted then []
    else
      var req := g.requests[id];
      if (health && (req.input != 1 || req.horizon != 1)) || (waiting.Some? && waiting.value >= U32 - 1) ||
         req.input + req.horizon >= Ticks.U64 then []
      else ForecastOps(g, now, Wanted(g, id), HealthFits(g, health, waiting))
  }

  function PolicyOps(g: Gov, epoch: nat, revision: nat, reference: Option<real>,
                     maxWaiting: Option<int>, maxRunning: Option<int>): seq<Op>
  {
    if (reference.None? && maxWaiting.None? && maxRunning.None?) ||
       !ValidLimits(g.nativeMax, GetOr(maxRunning, g.maxRunning), GetOr(maxWaiting, g.maxWaiting)) ||
       GetOr(reference, g.core.reference) < 0.0 || epoch != g.epoch then []
    else [DoUpdateReference(revision, GetOr(reference, g.core.reference))]
  }

  function SettleOps(g: Gov, b: Batch, now: real, after: nat, counts: Counts): seq<Op>
    requires b.enteringDelta <= b.total
  {
    if ElapsedSince(g, now) < 0.0 then []
    else
      var seconds := ElapsedSince(g, now) * g.active as real;
      var live, start := Unexpired(g.pending, now), StartCell(g);
      if FullReplacement(g, b) then
        if b.enteringDelta >= Ticks.U64 then []
        else
          var retired := if seconds > 0.0 then b.total - b.enteringDelta + PendingAt(live, start) else 0;
          [DoObserveReplacement(now, retired, seconds, start, after)]
      else if g.active > 0 && seconds > 0.0 then
        [DoObserveBatch(now, b.total + PendingAt(live, start), seconds, start, after)]
      else
        var cell := if g.active > 0 then start else Key(after, Heaviest(counts));
        var stored := PendingAt(if g.active == 0 then map[] else live, cell) + b.total;
        if b.total > 0 && (g.active > 0 || after > 0) && stored >= Ticks.U64 then [] else [DoObserve(now, 0, after)]
  }

  function CommitOps(g: Gov, updates: seq<Update>, now: real, quarantine: bool): seq<Op> {
    match Propose(g.requests, updates, now)
    case Err(_) => []
    case Ok(b) =>
      var after := g.active + Sum4(b.entering) - Sum4(b.leaving);
      var counts := CountsAfter(g.activeCounts, b);
      if after < 0 || counts[0] < 0 || counts[1] < 0 || counts[2] < 0 || counts[3] < 0 then []
      else if Taints(g, quarantine) then [DoQuarantine(now, after, g.healthOutstanding > 0)]
      else SettleOps(g, b, now, after, counts)
  }

  /** The calls that one call of the scheduler makes on its core. */
  function CoreCalls(g: Gov, e: Event): seq<Op> {
    match e
    case AdmitCall(id, now, current, retracted, waiting, health) =>
      var (g1, r) := RefreshIdentity(g, now, current);
      RefreshOps(g, now, current) + (if r.Err? then [] else AdmitOps(g1, id, now, retracted, waiting, health))
    case PolicyCall(now, current, epoch, revision, reference, maxWaiting, maxRunning) =>
      var (g1, r) := RefreshIdentity(g, now, current);
      RefreshOps(g, now, current) +
      (if r.Err? || g1.paused then [] else PolicyOps(g1, epoch, revision, reference, maxWaiting, maxRunning))
    case RefreshCall(now, current) => RefreshOps(g, now, current)
    case CommitCall(updates, now, quarantine) => CommitOps(g, updates, now, quarantine)
    case ReadCall(now) => [DoSnapshot(now)]
    case PrefillCall(now, wall) => [DoPrefill(now, wall)]
    case PreferCall(now, decode, prefill, age) => [DoChoose(now, decode, prefill, age)]
    case _ => []
  }

  function AllCoreCalls(g: Gov, events: seq<Event>): seq<Op>
    decreases |events|
  {
    if events == [] then [] else CoreCalls(g, events[0]) + AllCoreCalls(Next(g, events[0]), events[1..])
  }

  // ---------- They are the core's run ----------

  lemma {:induction false} RunJoins(c: Core, first: seq<Op>, second: seq<Op>)
    ensures Run(c, first + second) == Run(Run(c, first), second)
    decreases |first|
  {
    hide Step;
    if first == [] {
      assert first + second == second;
    } else {
      assert (first + second)[1..] == first[1..] + second;
      RunJoins(Step(c, first[0]).0, first[1..], second);
    }
  }

  lemma RunOne(c: Core, op: Op)
    ensures Run(c, [op]) == Step(c, op).0 && Run(c, []) == c
  {
    hide Step;
    assert [op][1..] == [];
  }

  lemma RefreshFollows(g: Gov, now: real, current: int)
    ensures RefreshIdentity(g, now, current).0.core == Run(g.core, RefreshOps(g, now, current))
  {
    RunOne(g.core, DoStartEpoch(now, 0));
  }

  lemma ForecastFollows(g: Gov, now: real, want: Key, fits: bool)
    ensures FreshForecast(g, now, want, fits).0 == Run(g.core, ForecastOps(g, now, want, fits))
  {
    hide Admit, Quarantine;
    var admit, taint := DoAdmit(now, want), DoQuarantine(now, g.active, true);
    RunOne(g.core, admit);
    if fits {
      RunOne(g.core, taint);
      var q := Quarantine(g.core, now, g.active, true);
      if q.Ok? {
        var restore := DoQuarantine(now, g.active, g.healthOutstanding != 0 || g.dirty);
        RunOne(q.value, admit);
        RunOne(q.value, restore);
        RunJoins(q.value, [admit], [restore]);
        RunJoins(g.core, [taint], [admit]);
        RunJoins(g.core, [taint], [admit] + [restore]);
        assert [admit] + [] == [admit];
      } else {
        assert [taint] + [] == [taint];
      }
    }
  }

  lemma AdmitFollows(g: Gov, id: nat, now: real, retracted: bool, waiting: Option<nat>, health: bool)
    ensures AdmitRequest(g, id, now, retracted, waiting, health).0.core
         == Run(g.core, AdmitOps(g, id, now, retracted, waiting, health))
  {
    hide AdmitFresh, ForecastOps, HealthFits, ProjectedClass;
    if id < |g.requests| {
      FreshCore(g, id, now, waiting, health);
      ForecastFollows(g, now, Wanted(g, id), HealthFits(g, health, waiting));
    }
  }

  lemma FreshCore(g: Gov, id: nat, now: real, waiting: Option<nat>, health: bool)
    requires id < |g.requests|
    ensures AdmitFresh(g, id, now, waiting, health).0.core
         == FreshForecast(g, now, Wanted(g, id), HealthFits(g, health, waiting)).0
  {
    hide FreshForecast, Verdict, Capped, HealthFits, ProjectedClass;
  }

  lemma PolicyFollows(g: Gov, epoch: nat, revision: nat, reference: Option<real>,
                      maxWaiting: Option<int>, maxRunning: Option<int>)
    ensures UpdatePolicy(g, epoch, revision, reference, maxWaiting, maxRunning).0.core
         == Run(g.core, PolicyOps(g, epoch, revision, reference, maxWaiting, maxRunning))
  {
    hide UpdateReference;
    RunOne(g.core, DoUpdateReference(revision, GetOr(reference, g.core.reference)));
  }

  lemma SettleFollows(g: Gov, b: Batch, now: real, after: nat, counts: Counts)
    requires b.enteringDelta <= b.total
    ensures Run(g.core, SettleOps(g, b, now, after, counts))
         == match Settle(g, b, now, after, counts) case Ok(s) => s.core case Err(_) => g.core
  {
    hide Settle, ObserveReplacement, ObserveBatch, Observe, Unexpired, StartCell, FullReplacement;
    RunOne(g.core, DoObserve(now, 0, after));
    if ElapsedSince(g, now) >= 0.0 {
      var seconds := ElapsedSince(g, now) * g.active as real;
      var live, start := Unexpired(g.pending, now), StartCell(g);
      if FullReplacement(g, b) {
        ReplacementFollows(g, b, now, after, counts, seconds);
      } else if g.active > 0 && seconds > 0.0 {
        SettleCharge(g, b, now, after, counts, seconds, b.total + PendingAt(live, start));
        RunOne(g.core, DoObserveBatch(now, b.total + PendingAt(live, start), seconds, start, after));
      } else {
        var base := if g.active == 0 then map[] else live;
        SettleSilent(g, b, now, after, counts, base, if g.active > 0 then start else Key(after, Heaviest(counts)));
      }
    } else {
      EarlierKeeps(g, b, now, after, counts);
    }
  }

  lemma ReplacementFollows(g: Gov, b: Batch, now: real, after: nat, counts: Counts, seconds: real)
    requires b.enteringDelta <= b.total && ElapsedSince(g, now) >= 0.0 && FullReplacement(g, b)
    requires seconds == ElapsedSince(g, now) * g.active as real
    ensures Run(g.core, SettleOps(g, b, now, after, counts))
         == match Settle(g, b, now, after, counts) case Ok(s) => s.core case Err(_) => g.core
  {
    hide Settle, ObserveReplacement, Unexpired, StartCell, FullReplacement, ElapsedSince;
    RunOne(g.core, DoSnapshot(now));
    var start := StartCell(g);
    if seconds > 0.0 {
      var retired := b.total - b.enteringDelta + PendingAt(Unexpired(g.pending, now), start);
      SettleReplacement(g, b, now, after, counts, seconds, retired);
      RunOne(g.core, DoObserveReplacement(now, retired, seconds, start, after));
      if b.enteringDelta < Ticks.U64 {
        assert SettleOps(g, b, now, after, counts) == [DoObserveReplacement(now, retired, seconds, start, after)];
      }
    } else {
      SettleReplacement(g, b, now, after, counts, seconds, 0);
      RunOne(g.core, DoObserveReplacement(now, 0, seconds, start, after));
      if b.enteringDelta < Ticks.U64 {
        assert SettleOps(g, b, now, after, counts) == [DoObserveReplacement(now, 0, seconds, start, after)];
      }
    }
  }

  lemma EarlierKeeps(g: Gov, b: Batch, now: real, after: nat, counts: Counts)
    requires b.enteringDelta <= b.total && ElapsedSince(g, now) < 0.0
    ensures Settle(g, b, now, after, counts).Err?
  {
  }

  lemma CommitFollows(g: Gov, updates: seq<Update>, now: real, quarantine: bool)
    ensures CommitBatch(g, updates, now, quarantine).0.core == Run(g.core, CommitOps(g, updates, now, quarantine))
  {
    hide Propose, Settle, SettleOps, Quarantine;
    if Propose(g.requests, updates, now).Ok? {
      var b := Propose(g.requests, updates, now).value;
      var after := g.active + Sum4(b.entering) - Sum4(b.leaving);
      if after >= 0 {
        SettleFollows(g, b, now, after, CountsAfter(g.activeCounts, b));
        RunOne(g.core, DoQuarantine(now, after, g.healthOutstanding > 0));
      }
    }
  }

  /** One call of the scheduler moves its core by exactly these calls of the core. */
  lemma CoreFollows(g: Gov, e: Event)
    ensures Next(g, e).core == Run(g.core, CoreCalls(g, e))
  {
    hide RefreshIdentity, RefreshOps, AdmitRequest, AdmitOps, UpdatePolicy, PolicyOps, CommitBatch, CommitOps;
    match e
    case AdmitCall(id, now, current, retracted, waiting, health) =>
      RefreshFollows(g, now, current);
      var (g1, r) := RefreshIdentity(g, now, current);
      AdmitFollows(g1, id, now, retracted, waiting, health);
      RunJoins(g.core, RefreshOps(g, now, current),
               if r.Err? then [] else AdmitOps(g1, id, now, retracted, waiting, health));
    case PolicyCall(now, current, epoch, revision, reference, maxWaiting, maxRunning) =>
      RefreshFollows(g, now, current);
      var (g1, r) := RefreshIdentity(g, now, current);
      PolicyFollows(g1, epoch, revision, reference, maxWaiting, maxRunning);
      RunJoins(g.core, RefreshOps(g, now, current),
               if r.Err? || g1.paused then [] else PolicyOps(g1, epoch, revision, reference, maxWaiting, maxRunning));
    case RefreshCall(now, current) => RefreshFollows(g, now, current);
    case CommitCall(updates, now, quarantine) => CommitFollows(g, updates, now, quarantine);
    case _ => ReadFollows(g, e);
  }

  lemma ReadFollows(g: Gov, e: Event)
    requires e.Arrive? || e.ReleaseCall? || e.AttachCall? || e.ReadCall? || e.PrefillCall? || e.PreferCall?
    ensures Next(g, e).core == Run(g.core, CoreCalls(g, e))
  {
    hide Advance, Prefill, Choose, ViewAt;
    if CoreCalls(g, e) != [] {
      RunOne(g.core, CoreCalls(g, e)[0]);
    }
  }

  /** In every run of the scheduler the core's state is that of the run of its calls. */
  lemma {:induction false} RunFollows(g: Gov, events: seq<Event>)
    ensures Play(g, events).core == Run(g.core, AllCoreCalls(g, events))
    decreases |events|
  {
    hide Next, CoreCalls;
    if events != [] {
      CoreFollows(g, events[0]);
      RunFollows(Next(g, events[0]), events[1..]);
      RunJoins(g.core, CoreCalls(g, events[0]), AllCoreCalls(Next(g, events[0]), events[1..]));
    }
  }

  // ---------- What that carries over ----------

  lemma SoundOfLinked(g: Gov)
    requires Linked(g)
    ensures Sound(g.core) && g.core.maxRunning == g.nativeMax
  {
  }

  /** In every run of the scheduler the core's 60 s window holds at most 60.5 s of every native slot. */
  lemma WindowWithinCapacity(g: Gov, events: seq<Event>, now: real)
    requires Agreed(g) && PacedCore(g.core)
    ensures var r := Snapshot(Play(g, events).core, now);
      r.Ok? ==> 0.0 <= r.value.1.shortSeconds <= r.value.1.longSeconds <= g.nativeMax as real * 60.5
  {
    hide Agreed, PacedCore, Play;
    Conservation.LinkedOf(g);
    SoundOfLinked(g);
    RunFollows(g, events);
    CoreRuns.WindowWithinCapacity(g.core, AllCoreCalls(g, events), now);
  }

  /** The latest Prefill the scheduler reported in the current epoch, read off its own calls. */
  ghost function LatestReport(g: Gov, events: seq<Event>, latest: Option<real>): Option<real>
    decreases |events|
  {
    if events == [] then latest
    else
      var g', e := Next(g, events[0]), events[0];
      LatestReport(g', events[1..],
                   if g'.epoch != g.epoch then None
                   else if e.PrefillCall? && PrefillCompleted(g, e.now, e.wall).1.Ok? then Some(e.now)
                   else latest)
  }

  /** No other call touches the Prefill end. */
  predicate Plain(ops: seq<Op>) {
    forall i :: 0 <= i < |ops| ==> !ops[i].DoPrefill? && !ops[i].DoStartEpoch?
  }

  lemma {:induction false} PlainKeepsEnd(c: Core, ops: seq<Op>)
    requires Plain(ops)
    ensures Run(c, ops).prefillEnd == c.prefillEnd
    decreases |ops|
  {
    hide Step;
    if ops != [] {
      Forecasts.StepPrefillEnd(c, ops[0]);
      PlainKeepsEnd(Step(c, ops[0]).0, ops[1..]);
    }
  }

  lemma AdmitPlain(g: Gov, id: nat, now: real, retracted: bool, waiting: Option<nat>, health: bool)
    ensures Plain(AdmitOps(g, id, now, retracted, waiting, health))
  {
  }

  lemma CommitPlain(g: Gov, updates: seq<Update>, now: real, quarantine: bool)
    ensures Plain(CommitOps(g, updates, now, quarantine))
  {
    hide Propose;
  }

  lemma RefreshEnd(g: Gov, now: real, current: int)
    ensures var (g1, r) := RefreshIdentity(g, now, current);
      g1.core.prefillEnd == (if g1.epoch != g.epoch then None else g.core.prefillEnd) &&
      (r.Err? ==> g1 == g) && (g1.epoch == g.epoch || g1.epoch == g.epoch + 1)
  {
  }

  /** Only an accepted Prefill report sets the core's Prefill end, and only a rotation clears it. */
  lemma ReportStep(g: Gov, e: Event)
    ensures var g' := Next(g, e);
      g'.core.prefillEnd ==
        if g'.epoch != g.epoch then None
        else if e.PrefillCall? && PrefillCompleted(g, e.now, e.wall).1.Ok? then Some(e.now)
        else g.core.prefillEnd
  {
    hide RefreshIdentity, AdmitRequest, UpdatePolicy, CommitBatch, AdmitOps, PolicyOps, CommitOps;
    match e
    case AdmitCall(id, now, current, retracted, waiting, health) =>
      RefreshEnd(g, now, current);
      var g1 := RefreshIdentity(g, now, current).0;
      Lifecycles.AdmitKeepsEpoch(g1, id, now, retracted, waiting, health);
      AdmitFollows(g1, id, now, retracted, waiting, health);
      AdmitPlain(g1, id, now, retracted, waiting, health);
      PlainKeepsEnd(g1.core, AdmitOps(g1, id, now, retracted, waiting, health));
    case PolicyCall(now, current, epoch, revision, reference, maxWaiting, maxRunning) =>
      RefreshEnd(g, now, current);
      var g1 := RefreshIdentity(g, now, current).0;
      PolicyEnd(g1, epoch, revision, reference, maxWaiting, maxRunning);
    case RefreshCall(now, current) => RefreshEnd(g, now, current);
    case CommitCall(updates, now, quarantine) =>
      CommitFollows(g, updates, now, quarantine);
      CommitPlain(g, updates, now, quarantine);
      PlainKeepsEnd(g.core, CommitOps(g, updates, now, quarantine));
      CommitEpochKept(g, updates, now, quarantine);
    case _ => ReadEnd(g, e);
  }

  lemma PolicyEnd(g: Gov, epoch: nat, revision: nat, reference: Option<real>,
                  maxWaiting: Option<int>, maxRunning: Option<int>)
    ensures var g' := UpdatePolicy(g, epoch, revision, reference, maxWaiting, maxRunning).0;
      g'.core.prefillEnd == g.core.prefillEnd && g'.epoch == g.epoch
  {
  }

  lemma CommitEpochKept(g: Gov, updates: seq<Update>, now: real, quarantine: bool)
    ensures CommitBatch(g, updates, now, quarantine).0.epoch == g.epoch
  {
    hide CommitBatch;
    if CommitBatch(g, updates, now, quarantine).1.Ok? {
      CommitPublishes(g, updates, now, quarantine);
    } else {
      RefusedCommitKeeps(g, updates, now, quarantine);
    }
  }

  lemma ReadEnd(g: Gov, e: Event)
    requires e.Arrive? || e.ReleaseCall? || e.AttachCall? || e.ReadCall? || e.PrefillCall? || e.PreferCall?
    ensures var g' := Next(g, e);
      g'.epoch == g.epoch &&
      g'.core.prefillEnd ==
        if e.PrefillCall? && PrefillCompleted(g, e.now, e.wall).1.Ok? then Some(e.now) else g.core.prefillEnd
  {
    hide Advance, Prefill, Choose;
    CoreEnd(g.core, e);
  }

  lemma CoreEnd(c: Core, e: Event)
    ensures e.ReadCall? && Advance(c, e.now).Ok? ==> Advance(c, e.now).value.prefillEnd == c.prefillEnd
    ensures e.PrefillCall? && Prefill(c, e.now, e.wall).Ok? ==>
      Prefill(c, e.now, e.wall).value.prefillEnd == Some(e.now)
    ensures e.PreferCall? ==>
      var r := Choose(c, e.now, e.decode, e.prefill, e.age);
      r.Ok? ==> r.value.0.prefillEnd == c.prefillEnd
  {
    hide Duration, Weighs, ViewAt;
  }

  lemma {:induction false} EndIsLatestReport(g: Gov, events: seq<Event>)
    ensures Play(g, events).core.prefillEnd == LatestReport(g, events, g.core.prefillEnd)
    decreases |events|
  {
    hide Next, PrefillCompleted;
    if events != [] {
      ReportStep(g, events[0]);
      EndIsLatestReport(Next(g, events[0]), events[1..]);
    }
  }

  /** In every run of the scheduler Decode is preferred only within a quarter second of the latest Prefill that it
      reported in the epoch. */
  lemma PreferenceIsBrief(g: Gov, events: seq<Event>, now: real, decode: bool, prefill: bool, age: real)
    requires Agreed(g)
    ensures PreferDecode(Play(g, events), now, decode, prefill, age).1 == Ok(true) ==>
      var end := LatestReport(g, events, g.core.prefillEnd);
      end.Some? && 0.0 <= now - end.value < MAX_PREFERENCE_SECONDS
  {
    hide Agreed, Sound, Choose, Play, LatestReport;
    RunAgreed(g, events);
    var s := Play(g, events);
    Conservation.LinkedOf(s);
    SoundOfLinked(s);
    EndIsLatestReport(g, events);
    RunOnNothing(s.core);
    Forecasts.PreferenceIsBrief(s.core, [], now, decode, prefill, age);
  }

  lemma RunOnNothing(c: Core)
    ensures Run(c, []) == c && Forecasts.LatestPrefill(c, [], c.prefillEnd) == c.prefillEnd
  {
  }
}
