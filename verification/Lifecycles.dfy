/** Whole-run promises of admission: capacity, the exploration budget, health
    isolation, and the separation of identity epochs. */
module Lifecycles {
  import opened Wrappers
  import opened Ticks
  import opened Ledger
  import opened CoreSpec
  import opened CoreRuns
  import opened Scheduler
  import opened Ledgers
  import opened Joint
  import opened Conservation
  import Forecasts

  // ---------- Capacity ----------

  /** Only a fresh admission raises the count, and it lands within the caps in force. */
  lemma AdmitWithinCaps(g: Gov, id: nat, now: real, retracted: bool, waiting: Option<nat>, health: bool)
    ensures var g' := AdmitRequest(g, id, now, retracted, waiting, health).0;
      g'.maxRunning == g.maxRunning && g'.maxWaiting == g.maxWaiting && g'.nativeMax == g.nativeMax &&
      (g'.outstanding != g.outstanding ==>
        g'.outstanding == g.outstanding + 1 <= g.maxRunning + g.maxWaiting && !g.paused &&
        (health ==> g'.outstanding <= g.maxRunning))
  {
    hide AdmitFresh;
    if AdmitRequest(g, id, now, retracted, waiting, health).0 != g {
      AdmitFreshCases(g, id, now, waiting, health);
    }
  }

  /** A step raises the count of outstanding requests only within the caps it was taken
      under; above a lowered cap the count can only fall. */
  lemma StepWithinCaps(g: Gov, e: Event)
    ensures var g' := Next(g, e);
      g'.nativeMax == g.nativeMax &&
      (g'.outstanding > g.outstanding ==>
        e.AdmitCall? && g'.outstanding <= g'.maxRunning + g'.maxWaiting &&
        (e.health ==> g'.outstanding <= g'.maxRunning))
  {
    hide AdmitRequest, CommitBatch, Advance, Prefill, Choose, UpdateReference, StartSurfaceEpoch;
    if e.AdmitCall? {
      AdmitWithinCaps(RefreshIdentity(g, e.now, e.current).0, e.id, e.now, e.retracted, e.waiting, e.health);
    } else if e.CommitCall? {
      if CommitBatch(g, e.updates, e.now, e.quarantine).1.Ok? {
        CommitPublishes(g, e.updates, e.now, e.quarantine);
      } else {
        RefusedCommitKeeps(g, e.updates, e.now, e.quarantine);
      }
    }
  }

  /** No run ever holds more than the native maximum plus three. */
  lemma {:induction false} NeverAboveNativeLimit(g: Gov, events: seq<Event>)
    requires Agreed(g) && g.outstanding <= g.nativeMax + MAX_WAITING_LIMIT
    ensures Play(g, events).outstanding <= g.nativeMax + MAX_WAITING_LIMIT
    decreases |events|
  {
    hide Next, Agreed;
    if events != [] {
      NextAgreed(g, events[0]);
      StepWithinCaps(g, events[0]);
      CapsValid(Next(g, events[0]));
      NeverAboveNativeLimit(Next(g, events[0]), events[1..]);
    }
  }

  lemma CapsValid(g: Gov)
    requires Agreed(g)
    ensures 0 < g.maxRunning <= g.nativeMax && g.maxWaiting <= MAX_WAITING_LIMIT
  {
  }

  // ---------- The exploration budget ----------

  /** Probe starts are at least two seconds apart, and the scheduler remembers the last. */
  ghost predicate Budgeted(tr: Trace) {
    (tr.starts == [] ==> tr.g.lastExploration.None?) &&
    (tr.starts != [] ==> tr.g.lastExploration == Some(tr.starts[|tr.starts| - 1])) &&
    forall i :: 0 < i < |tr.starts| ==> tr.starts[i] - tr.starts[i - 1] >= EXPLORATION_INTERVAL_SECONDS
  }

  lemma AdmitProbe(g: Gov, id: nat, now: real, retracted: bool, waiting: Option<nat>, health: bool)
    ensures var g' := AdmitRequest(g, id, now, retracted, waiting, health).0;
      (g.explorationActive ==> g'.explorationActive && g'.lastExploration == g.lastExploration) &&
      (!g.explorationActive && !g'.explorationActive ==> g'.lastExploration == g.lastExploration) &&
      (!g.explorationActive && g'.explorationActive ==>
        g'.lastExploration == Some(now) &&
        (g.lastExploration.Some? ==> now - g.lastExploration.value >= EXPLORATION_INTERVAL_SECONDS))
  {
    hide AdmitFresh;
    if AdmitRequest(g, id, now, retracted, waiting, health).0 != g {
      AdmitFreshCases(g, id, now, waiting, health);
    }
  }

  /** Nothing but an admission starts a probe or touches the time of the last one. */
  lemma OtherStepsKeepBudget(g: Gov, e: Event)
    requires !e.AdmitCall?
    ensures Next(g, e).lastExploration == g.lastExploration
    ensures Next(g, e).explorationActive ==> g.explorationActive
  {
    hide CommitBatch, Advance, Prefill, Choose, UpdateReference;
    if e.CommitCall? {
      if CommitBatch(g, e.updates, e.now, e.quarantine).1.Ok? {
        CommitPublishes(g, e.updates, e.now, e.quarantine);
      } else {
        RefusedCommitKeeps(g, e.updates, e.now, e.quarantine);
      }
    }
  }

  lemma StepBudgeted(tr: Trace, e: Event)
    requires Budgeted(tr)
    ensures Budgeted(TNext(tr, e))
  {
    hide AdmitRequest;
    if e.AdmitCall? {
      var (g1, r) := RefreshIdentity(tr.g, e.now, e.current);
      AdmitProbe(g1, e.id, e.now, e.retracted, e.waiting, e.health);
    } else {
      OtherStepsKeepBudget(tr.g, e);
    }
  }

  lemma {:induction false} RunBudgeted(tr: Trace, events: seq<Event>)
    requires Budgeted(tr)
    ensures Budgeted(TPlay(tr, events))
    decreases |events|
  {
    hide TNext;
    if events != [] {
      StepBudgeted(tr, events[0]);
      RunBudgeted(TNext(tr, events[0]), events[1..]);
    }
  }

  lemma {:induction false} StartsSpread(tr: Trace, i: nat, j: nat)
    requires Budgeted(tr) && i <= j < |tr.starts|
    ensures tr.starts[j] - tr.starts[i] >= EXPLORATION_INTERVAL_SECONDS * (j - i) as real
    decreases j
  {
    if i < j {
      StartsSpread(tr, i, j - 1);
    }
  }

  /** Any interval of length `span` holds at most floor(span / 2) + 1 probe starts of a run. */
  lemma ExplorationBudget(g: Gov, events: seq<Event>, from: real, span: real, i: nat, j: nat)
    requires Budgeted(Begin(g)) && i <= j
    ensures var starts := TPlay(Begin(g), events).starts;
      j < |starts| && from <= starts[i] && starts[j] <= from + span ==> j - i + 1 <= (span / 2.0).Floor + 1
  {
    hide TPlay;
    RunBudgeted(Begin(g), events);
    var starts := TPlay(Begin(g), events).starts;
    if j < |starts| && from <= starts[i] && starts[j] <= from + span {
      StartsSpread(TPlay(Begin(g), events), i, j);
      assert (j - i) as real <= span / 2.0;
    }
  }

  /** No two unreleased reservations are both probes. */
  lemma ProbesNeverOverlap(g: Gov, i: nat, j: nat)
    requires Agreed(g) && i < |g.requests| && j < |g.requests|
    requires Held(g.requests[i]) && g.requests[i].reservation.value.exploration
    requires Held(g.requests[j]) && g.requests[j].reservation.value.exploration
    ensures i == j
  {
    if i < j {
      TotalTwo(ProbeW(), g.requests, i, j);
    } else if j < i {
      TotalTwo(ProbeW(), g.requests, j, i);
    }
  }

  lemma {:induction false} TotalTwo(w: Weight, rs: seq<Request>, i: nat, j: nat)
    requires i < j < |rs| && forall r: Request :: w(r) >= 0
    ensures Total(w, rs) >= w(rs[i]) + w(rs[j])
  {
    var n := |rs| - 1;
    if j < n {
      TotalTwo(w, rs[..n], i, j);
    } else {
      TotalAtLeast(w, rs[..n], i);
    }
  }

  // ---------- Health isolation ----------

  lemma AdmitWhileDirty(g: Gov, id: nat, now: real, retracted: bool, waiting: Option<nat>, health: bool)
    requires Agreed(g) && g.dirty
    ensures var g' := AdmitRequest(g, id, now, retracted, waiting, health).0;
      g'.dirty && g'.core.log == g.core.log && g'.core.surface == g.core.surface
  {
    hide AdmitFresh, Sound, LedgerExact, Tally;
    StartCellInSurface(g);
    LinkedOf(g);
    if AdmitRequest(g, id, now, retracted, waiting, health).0 != g {
      AdmitFreshExact(g, id, now, waiting, health);
    }
  }

  /** While contaminated, no call but an identity rotation changes a bucket; contamination
      ends only by that or by a commit with no health check outstanding. */
  lemma DirtyStep(g: Gov, e: Event)
    requires Agreed(g) && g.dirty
    ensures var g' := Next(g, e);
      (g'.epoch == g.epoch ==> g'.core.log == g.core.log && g'.core.surface == g.core.surface) &&
      (!g'.dirty ==> g'.epoch != g.epoch || (e.CommitCall? && g.healthOutstanding == 0))
  {
    hide AdmitRequest, CommitBatch, Agreed;
    LinkedOf(g);
    if e.AdmitCall? {
      RefreshAgreed(g, e.now, e.current);
      var g1 := RefreshIdentity(g, e.now, e.current).0;
      if g1.dirty {
        AdmitWhileDirty(g1, e.id, e.now, e.retracted, e.waiting, e.health);
      }
      AdmitKeepsEpoch(g1, e.id, e.now, e.retracted, e.waiting, e.health);
    } else if e.CommitCall? {
      if CommitBatch(g, e.updates, e.now, e.quarantine).1.Ok? {
        DirtyCommit(g, e.updates, e.now, e.quarantine);
      } else {
        RefusedCommitKeeps(g, e.updates, e.now, e.quarantine);
      }
    } else {
      hide Sound, LedgerExact, Tally, PendingOk;
      DirtyOther(g, e);
    }
  }

  lemma AdmitKeepsEpoch(g: Gov, id: nat, now: real, retracted: bool, waiting: Option<nat>, health: bool)
    ensures AdmitRequest(g, id, now, retracted, waiting, health).0.epoch == g.epoch
  {
    hide AdmitFresh;
    if AdmitRequest(g, id, now, retracted, waiting, health).0 != g {
      AdmitFreshCases(g, id, now, waiting, health);
    }
  }

  /** A quarantined core can be read, and told of Prefills, without learning. */
  lemma QuarantinedReads(c: Core, now: real, wall: real, decode: bool, prefill: bool, age: real)
    requires c.quarantined
    ensures Advance(c, now).Ok? ==> Advance(c, now).value.log == c.log && Advance(c, now).value.surface == c.surface
    ensures Prefill(c, now, wall).Ok? ==>
      Prefill(c, now, wall).value.log == c.log && Prefill(c, now, wall).value.surface == c.surface
    ensures var r := Choose(c, now, decode, prefill, age);
      r.Ok? ==> r.value.0.log == c.log && r.value.0.surface == c.surface
  {
    hide Duration, Weighs, ViewAt;
  }

  lemma DirtyRead(g: Gov, e: Event)
    requires g.core.quarantined && (e.ReadCall? || e.PrefillCall? || e.PreferCall?)
    ensures var g' := Next(g, e);
      g'.core.log == g.core.log && g'.core.surface == g.core.surface && g'.dirty == g.dirty
  {
    hide Advance, Prefill, Choose;
    QuarantinedReads(g.core, e.now, if e.PrefillCall? then e.wall else 0.0,
                     e.PreferCall? && e.decode, e.PreferCall? && e.prefill, if e.PreferCall? then e.age else 0.0);
  }

  lemma DirtyOther(g: Gov, e: Event)
    requires Linked(g) && g.dirty && !e.AdmitCall? && !e.CommitCall?
    ensures var g' := Next(g, e);
      (g'.epoch == g.epoch ==> g'.core.log == g.core.log && g'.core.surface == g.core.surface) &&
      (!g'.dirty ==> g'.epoch != g.epoch)
  {
    hide Sound, PendingOk, Advance, Prefill, Choose, StartSurfaceEpoch;
    if e.ReadCall? || e.PrefillCall? || e.PreferCall? {
      DirtyRead(g, e);
    }
  }

  /** No rotation, and no accepted commit while no health check is outstanding. */
  predicate Contained(g: Gov, events: seq<Event>)
    decreases |events|
  {
    events == [] ||
    (Next(g, events[0]).epoch == g.epoch && !EndsContamination(g, events[0]) &&
     Contained(Next(g, events[0]), events[1..]))
  }

  predicate EndsContamination(g: Gov, e: Event) {
    e.CommitCall? && g.healthOutstanding == 0 && CommitBatch(g, e.updates, e.now, e.quarantine).1.Ok?
  }

  lemma {:induction false} ContainedStaysDirty(g: Gov, events: seq<Event>)
    requires Agreed(g) && g.dirty && Contained(g, events)
    ensures var g' := Play(g, events);
      Agreed(g') && g'.dirty && g'.core.quarantined && g'.epoch == g.epoch &&
      g'.core.log == g.core.log && g'.core.surface == g.core.surface
    decreases |events|
  {
    hide Next, Agreed;
    LinkedOf(g);
    if events != [] {
      DirtyStep(g, events[0]);
      DirtyUnlessEnded(g, events[0]);
      NextAgreed(g, events[0]);
      ContainedStaysDirty(Next(g, events[0]), events[1..]);
    }
  }

  lemma DirtyUnlessEnded(g: Gov, e: Event)
    requires Agreed(g) && g.dirty && !EndsContamination(g, e) && Next(g, e).epoch == g.epoch
    ensures Next(g, e).dirty
  {
    hide CommitBatch, Agreed;
    DirtyStep(g, e);
    if e.CommitCall? && CommitBatch(g, e.updates, e.now, e.quarantine).1.Err? {
      RefusedCommitKeeps(g, e.updates, e.now, e.quarantine);
    }
  }

  /** A granted health check contaminates, and learns nothing of the interval it closes. */
  lemma HealthAdmission(g: Gov, e: Event)
    requires Agreed(g) && e.AdmitCall? && Next(g, e).healthOutstanding > g.healthOutstanding
    ensures var g' := Next(g, e);
      g'.dirty && (g'.epoch == g.epoch ==> g'.core.log == g.core.log && g'.core.surface == g.core.surface)
  {
    hide AdmitRequest, AdmitFresh, Agreed, Sound, Reserve, Expose;
    RefreshAgreed(g, e.now, e.current);
    var g1 := RefreshIdentity(g, e.now, e.current).0;
    LinkedOf(g1);
    AdmitKeepsEpoch(g1, e.id, e.now, e.retracted, e.waiting, e.health);
    AdmitHealthDirty(g1, e.id, e.now, e.retracted, e.waiting, e.health);
    HealthAdmitsOnly(g1, e.id, e.now, e.retracted, e.waiting, e.health);
  }

  lemma QuarantineLearnsNothing(c: Core, now: real, after: nat, enabled: bool)
    requires ClockAccepts(c, now) && after <= c.maxRunning
    ensures var r := Quarantine(c, now, after, enabled);
      r.Ok? && r.value.log == c.log && r.value.surface == c.surface
  {
  }

  lemma LinkedWithin(g: Gov)
    requires Linked(g)
    ensures g.active <= g.core.maxRunning == g.nativeMax
  {
  }

  lemma HealthAdmitsOnly(g: Gov, id: nat, now: real, retracted: bool, waiting: Option<nat>, health: bool)
    requires Linked(g) && AdmitRequest(g, id, now, retracted, waiting, health).0.healthOutstanding > g.healthOutstanding
    ensures var g' := AdmitRequest(g, id, now, retracted, waiting, health).0;
      g'.core.log == g.core.log && g'.core.surface == g.core.surface
  {
    hide AdmitFresh, Sound, Expose, Quarantine, PendingOk;
    AdmitFreshExact(g, id, now, waiting, health);
    LinkedWithin(g);
    if health && ClockAccepts(g.core, now) {
      QuarantineLearnsNothing(g.core, now, g.active, true);
    }
  }

  /** From the admission of a health check up to and including the first commit accepted with none
      outstanding: whatever is called, no aggregate or surface evidence changes. */
  lemma HealthIsolation(g: Gov, admission: Event, events: seq<Event>, last: Event)
    requires Agreed(g) && admission.AdmitCall? && Next(g, admission).healthOutstanding > g.healthOutstanding
    requires Contained(Next(g, admission), events)
    ensures var g1 := Next(g, admission);
      var g' := Play(g1, events);
      (g1.epoch == g.epoch ==> g1.core.log == g.core.log && g1.core.surface == g.core.surface) &&
      g'.dirty && g'.core.quarantined && g'.core.log == g1.core.log && g'.core.surface == g1.core.surface &&
      (Next(g', last).epoch == g'.epoch ==>
        Next(g', last).core.log == g1.core.log && Next(g', last).core.surface == g1.core.surface)
  {
    hide Next, Agreed, Contained;
    HealthAdmission(g, admission);
    NextAgreed(g, admission);
    ContainedStaysDirty(Next(g, admission), events);
    DirtyStep(Play(Next(g, admission), events), last);
  }

  // ---------- What a probe rests on ----------

  /** Live evidence at or above `want` clears the reference with headroom. */
  ghost predicate Headroom(c: Core, now: real, want: Key) {
    exists key :: Forecasts.Selected(c, now, want, key) && BoundFor(c, now, key).value.usedLive &&
      LiveBound(c, now, key).Some? && LiveBound(c, now, key).value >= c.reference * EXPLORATION_HEADROOM
  }

  /** A probe's decision is the capped verdict on the forecast at the advanced core. */
  lemma AdmitFreshParts(g: Gov, id: nat, now: real, waiting: Option<nat>, health: bool)
    requires Linked(g) && id < |g.requests| && ClockAccepts(g.core, now)
    ensures var want := Wanted(g, id);
      var core := Advance(g.core, now).value;
      AdmitFresh(g, id, now, waiting, health).1.Ok? &&
      var d := AdmitFresh(g, id, now, waiting, health).1.value;
      d.reason == OnlineExploration ==>
      !health && InSurface(want, core.maxRunning) && d.forecast == Decide(core, now, want) &&
      d.forecast.reason != OnlineExploration &&
      Verdict(g, core, now, want, waiting, health, d.forecast).Ok? &&
      d == Capped(g, health, Verdict(g, core, now, want, waiting, health, d.forecast).value) &&
      d.recovery == Verdict(g, core, now, want, waiting, health, d.forecast).value.recovery
  {
    hide Sound, PendingOk, Decide, ExplorationBlocker, RecoveryBlocker, Expose, Reserve;
    AdmitFreshExact(g, id, now, waiting, health);
    var core := Advance(g.core, now).value;
    CoreReasons(core, now, Wanted(g, id));
  }

  lemma ReferenceNeeded(c: Core, now: real, want: Key)
    requires c.reference >= 0.0 && Decide(c, now, want).reason in {TpsRisk, Unknown}
    ensures c.reference > 0.0
  {
  }

  lemma DecideReference(c: Core, now: real, want: Key)
    ensures Decide(c, now, want).reference == c.reference
  {
  }

  lemma ForecastHeadroom(c: Core, now: real, want: Key)
    requires Sound(c) && c.reference > 0.0
    requires Decide(c, now, want).allowed && Decide(c, now, want).observed
    requires Decide(c, now, want).tps >= c.reference * EXPLORATION_HEADROOM
    ensures Headroom(c, now, want)
  {
    hide Sound;
    Forecasts.SelectMeaning(c, now, want);
    var key := Select(c, now, want).value.0;
    assert LiveBound(c, now, key).Some? && LiveBound(c, now, key).value >= BoundFor(c, now, key).value.value;
  }

  /** What an exploratory verdict has checked. */
  lemma ProbeVerdict(g: Gov, core: Core, now: real, want: Key, waiting: Option<nat>, health: bool, f: Forecast)
    requires core.lastTime == Some(now) && 0.0 <= now < MAX_CLOCK && f.reason != OnlineExploration
    requires Verdict(g, core, now, want, waiting, health, f).Ok? && g.outstanding + 1 >= want.concurrency
    requires Capped(g, health, Verdict(g, core, now, want, waiting, health, f).value).reason == OnlineExploration
    requires InSurface(want, core.maxRunning)
    ensures f.reason == TpsRisk || f.reason == Unknown
    ensures !health && !g.paused && g.exploring && !g.explorationActive && g.outstanding < g.maxRunning &&
      (if waiting.Some? then waiting.value == 0 else g.outstanding == 0)
    ensures g.outstanding > 0 ==>
      want.concurrency == g.outstanding + 1 &&
      var lower := Decide(core, now, Key(g.outstanding, want.pressure));
      lower.allowed && lower.observed && lower.tps >= lower.reference * EXPLORATION_HEADROOM
    ensures Verdict(g, core, now, want, waiting, health, f).value.recovery ==>
      g.outstanding == 0 && g.active == 0 && !g.dirty && g.surfaceTime.Some? &&
      now - g.surfaceTime.value >= EXPLORATION_INTERVAL_SECONDS && f.reason == TpsRisk && f.observed
  {
    hide Decide, Advance;
    AdvanceAgain(core, now);
  }

  /** A probe is either the only request, or rests on live headroom one slot below; a probe of a
      slow cell further waits for a drained, clean and quiet scheduler. */
  lemma ProbeRestsOnEvidence(g: Gov, id: nat, now: real, waiting: Option<nat>, health: bool)
    requires Agreed(g) && id < |g.requests| && g.requests[id].reservation.None?
    requires AdmitFresh(g, id, now, waiting, health).1.Ok?
    requires var d := AdmitFresh(g, id, now, waiting, health).1.value; d.allowed && d.reason == OnlineExploration
    ensures var (g', r) := AdmitFresh(g, id, now, waiting, health);
      g'.core == Advance(g.core, now).value && g.core.reference > 0.0 &&
      !health && !g.paused && g.exploring && !g.explorationActive && g.outstanding < g.maxRunning &&
      (if waiting.Some? then waiting.value == 0 else g.outstanding == 0) &&
      (g.outstanding > 0 ==> Headroom(g'.core, now, Key(g.outstanding, Wanted(g, id).pressure))) &&
      (r.value.recovery ==>
        g.outstanding == 0 && g.active == 0 && !g.dirty && g.surfaceTime.Some? &&
        now - g.surfaceTime.value >= EXPLORATION_INTERVAL_SECONDS &&
        r.value.forecast.reason == TpsRisk && r.value.forecast.observed)
  {
    hide Sound, LedgerExact, Tally, Verdict, Decide, Expose, Capped, ProjectedClass, PendingOk, Quarantine;
    LinkedOf(g);
    AdmitFreshExact(g, id, now, waiting, health);
    AdmitFreshParts(g, id, now, waiting, health);
    var core := Advance(g.core, now).value;
    var want := Wanted(g, id);
    var f := AdmitFresh(g, id, now, waiting, health).1.value.forecast;
    ProbeVerdict(g, core, now, want, waiting, health, f);
    AdvanceSound(g.core, now, !g.core.quarantined);
    ReferenceNeeded(core, now, want);
    if g.outstanding > 0 {
      DecideReference(core, now, Key(g.outstanding, want.pressure));
      ForecastHeadroom(core, now, Key(g.outstanding, want.pressure));
    }
  }

  // ---------- Epochs ----------

  /** The native caller: results only for requests that ended or still hold their grant, no
      progress on health checks, no release of a request that is still decoding. */
  ghost predicate Native(g: Gov, e: Event) {
    match e
    case ReleaseCall(id) => id < |g.requests| ==> !Decoding(g.requests[id])
    case AttachCall(id) => id < |g.requests| ==> g.requests[id].progress.Some? || Business(g.requests[id])
    case CommitCall(updates, _, _) =>
      forall j :: 0 <= j < |updates| && updates[j].id < |g.requests| ==>
        Ended(g.requests[updates[j].id]) || Business(g.requests[updates[j].id])
    case _ => true
  }

  ghost predicate Business(r: Request) {
    Held(r) && !r.reservation.value.health
  }

  predicate Ended(r: Request) {
    r.progress.Some? && r.progress.value.terminal
  }

  ghost predicate NativeRun(g: Gov, events: seq<Event>)
    decreases |events|
  {
    events == [] || (Native(g, events[0]) && NativeRun(Next(g, events[0]), events[1..]))
  }

  /** Who may hold and who may decode: reservations of this epoch, and only those. */
  ghost predicate OwnedRequest(r: Request, epoch: nat) {
    (Held(r) ==> r.reservation.value.epoch == epoch) &&
    (Decoding(r) ==> Business(r))
  }

  ghost predicate Owned(g: Gov) {
    forall i :: 0 <= i < |g.requests| ==> OwnedRequest(g.requests[i], g.epoch)
  }

  lemma AdmitOwned(g: Gov, id: nat, now: real, retracted: bool, waiting: Option<nat>, health: bool)
    requires Owned(g)
    ensures Owned(AdmitRequest(g, id, now, retracted, waiting, health).0)
  {
    hide AdmitFresh, Owned;
    var g' := AdmitRequest(g, id, now, retracted, waiting, health).0;
    if g' != g {
      AdmitFreshCases(g, id, now, waiting, health);
      if IsGrant(g, id, now, waiting, health, g') {
        var core: Core, cls: Class, d: Decision :|
          g.requests[id].reservation.None? && g' == Reserve(g.(core := core), id, now, cls, health, d);
        ReserveOwned(g.(core := core), id, now, cls, health, d);
      } else {
        OwnedOfRequests(g, g');
      }
    }
  }

  lemma ReserveOwned(g: Gov, id: nat, now: real, cls: Class, health: bool, d: Decision)
    requires id < |g.requests| && g.requests[id].reservation.None?
    ensures forall h: Gov :: h.requests == g.requests && h.epoch == g.epoch && Owned(h) ==>
      Owned(Reserve(g, id, now, cls, health, d))
  {
  }

  lemma OwnedOfRequests(g: Gov, h: Gov)
    requires Owned(g) && h.requests == g.requests && h.epoch == g.epoch
    ensures Owned(h)
  {
  }

  lemma RefreshOwned(g: Gov, now: real, current: int)
    requires Owned(g) && Agreed(g)
    ensures Owned(RefreshIdentity(g, now, current).0)
    ensures RefreshIdentity(g, now, current).1 == Ok(true) ==>
      forall i :: 0 <= i < |g.requests| ==> !Held(g.requests[i]) && !Decoding(g.requests[i])
  {
    hide Linked;
    if RefreshIdentity(g, now, current).1 == Ok(true) {
      IdleCounts(g);
      NoneHeld(g);
    }
  }

  lemma NoneHeld(g: Gov)
    requires LedgerExact(g) && g.outstanding == 0
    ensures forall i :: 0 <= i < |g.requests| ==> !Held(g.requests[i])
  {
    TotalZero(HeldW(), g.requests);
    forall i | 0 <= i < |g.requests| ensures !Held(g.requests[i]) {
      assert HeldW()(g.requests[i]) == 0;
    }
  }

  lemma CommitOwned(g: Gov, updates: seq<Update>, now: real, quarantine: bool)
    requires Owned(g) && Agreed(g) && Native(g, CommitCall(updates, now, quarantine))
    ensures Owned(CommitBatch(g, updates, now, quarantine).0)
  {
    hide CommitBatch, Linked, LedgerExact;
    var (g', r) := CommitBatch(g, updates, now, quarantine);
    if r.Ok? {
      CommitPublishes(g, updates, now, quarantine);
      ProposeFaithful(g.requests, updates, now, g.surfaceTime);
      TerminalUntouched(g.requests, updates, now);
      EntrantsCounted(g.requests, updates, now);
      var b := Propose(g.requests, updates, now).value;
      forall i | 0 <= i < |g'.requests| ensures OwnedRequest(g'.requests[i], g'.epoch) {
        assert b.next[i].reservation == g.requests[i].reservation;
        if i in b.seen {
          var j :| 0 <= j < |updates| && updates[j].id == i;
          assert Ended(g.requests[i]) || Business(g.requests[i]);
        }
      }
    } else {
      RefusedCommitKeeps(g, updates, now, quarantine);
    }
  }

  lemma OtherOwned(g: Gov, e: Event)
    requires Owned(g) && Native(g, e)
    requires e.Arrive? || e.ReleaseCall? || e.AttachCall? || e.ReadCall? || e.PrefillCall? || e.PreferCall?
    ensures Owned(Next(g, e))
  {
    hide Advance, Prefill, Choose;
  }

  lemma NextOwned(g: Gov, e: Event)
    requires Owned(g) && Agreed(g) && Native(g, e)
    ensures Owned(Next(g, e))
  {
    hide AdmitRequest, RefreshIdentity, UpdatePolicy, CommitBatch, Owned, Agreed, Native;
    match e
    case AdmitCall(id, now, current, retracted, waiting, health) =>
      RefreshOwned(g, now, current);
      AdmitOwned(RefreshIdentity(g, now, current).0, id, now, retracted, waiting, health);
    case PolicyCall(now, current, epoch, revision, reference, maxWaiting, maxRunning) =>
      RefreshOwned(g, now, current);
      PolicyOwned(RefreshIdentity(g, now, current).0, epoch, revision, reference, maxWaiting, maxRunning);
    case RefreshCall(now, current) => RefreshOwned(g, now, current);
    case CommitCall(updates, now, quarantine) => CommitOwned(g, updates, now, quarantine);
    case _ => OtherOwned(g, e);
  }

  lemma PolicyOwned(g: Gov, epoch: nat, revision: nat, reference: Option<real>,
                    maxWaiting: Option<int>, maxRunning: Option<int>)
    requires Owned(g)
    ensures Owned(UpdatePolicy(g, epoch, revision, reference, maxWaiting, maxRunning).0)
  {
  }

  lemma {:induction false} RunOwned(g: Gov, events: seq<Event>)
    requires Owned(g) && Agreed(g) && NativeRun(g, events)
    ensures Owned(Play(g, events)) && Agreed(Play(g, events))
    decreases |events|
  {
    hide Next, Owned, Agreed, Native;
    if events != [] {
      NextOwned(g, events[0]);
      NextAgreed(g, events[0]);
      RunOwned(Next(g, events[0]), events[1..]);
    }
  }

  lemma {:induction false} TotalPointwise(v: Weight, w: Weight, u: Weight, rs: seq<Request>)
    requires forall i :: 0 <= i < |rs| ==> v(rs[i]) + w(rs[i]) <= u(rs[i])
    ensures Total(v, rs) + Total(w, rs) <= Total(u, rs)
  {
    if rs != [] {
      TotalPointwise(v, w, u, rs[..|rs| - 1]);
    }
  }

  /** With the native caller, in every run: decoding requests and health checks are
      distinct outstanding ones, all of the current epoch. */
  lemma EpochSeparation(g: Gov, events: seq<Event>)
    requires Owned(g) && Agreed(g) && NativeRun(g, events)
    ensures var g' := Play(g, events);
      g'.active + g'.healthOutstanding <= g'.outstanding &&
      forall i :: 0 <= i < |g'.requests| && (Held(g'.requests[i]) || Decoding(g'.requests[i])) ==>
        g'.requests[i].reservation.Some? && g'.requests[i].reservation.value.epoch == g'.epoch
  {
    hide Linked;
    RunOwned(g, events);
    var g' := Play(g, events);
    forall i | 0 <= i < |g'.requests|
      ensures DecodingW()(g'.requests[i]) + HealthW()(g'.requests[i]) <= HeldW()(g'.requests[i])
    {
      assert OwnedRequest(g'.requests[i], g'.epoch);
    }
    TotalPointwise(DecodingW(), HealthW(), HeldW(), g'.requests);
  }

  /** Whatever a native batch adds is the work of requests admitted in this epoch: any other
      result it reports is of a request that ended before, and changes nothing. */
  lemma BatchOfThisEpoch(g: Gov, updates: seq<Update>, now: real, quarantine: bool)
    requires Owned(g) && Native(g, CommitCall(updates, now, quarantine)) && Propose(g.requests, updates, now).Ok?
    ensures forall j :: 0 <= j < |updates| ==>
      updates[j].id < |g.requests| &&
      var r := g.requests[updates[j].id];
      if Ended(r) then Propose(g.requests, updates, now).value.next[updates[j].id] == r
      else Held(r) && r.reservation.value.epoch == g.epoch
  {
    hide Propose;
    ProposedIds(g.requests, updates, now);
    TerminalUntouched(g.requests, updates, now);
    forall j | 0 <= j < |updates| && !Ended(g.requests[updates[j].id])
      ensures g.requests[updates[j].id].reservation.value.epoch == g.epoch
    {
      assert OwnedRequest(g.requests[updates[j].id], g.epoch);
    }
  }

  lemma {:induction false} ProposedIds(rs: seq<Request>, updates: seq<Update>, now: real)
    requires Propose(rs, updates, now).Ok?
    ensures forall j :: 0 <= j < |updates| ==> updates[j].id < |rs|
  {
    if updates != [] {
      ProposedIds(rs, updates[..|updates| - 1], now);
    }
  }

  /** A rotation happens only with nothing outstanding and nothing decoding, so no
      reservation spans it; and it is the only way a pause ends. */
  lemma RotationDrained(g: Gov, e: Event)
    requires Agreed(g) && (Next(g, e).epoch != g.epoch || (g.paused && !Next(g, e).paused))
    ensures Next(g, e).epoch == g.epoch + 1 && g.outstanding == 0 && g.active == 0
    ensures forall i :: 0 <= i < |g.requests| ==> !Held(g.requests[i]) && !Decoding(g.requests[i])
  {
    hide AdmitRequest, CommitBatch, Advance, Prefill, Choose, UpdateReference, StartSurfaceEpoch, Linked, Total;
    if e.AdmitCall? {
      var g1 := RefreshIdentity(g, e.now, e.current).0;
      AdmitKeepsEpoch(g1, e.id, e.now, e.retracted, e.waiting, e.health);
      AdmitKeepsPause(g1, e.id, e.now, e.retracted, e.waiting, e.health);
    } else if e.CommitCall? {
      if CommitBatch(g, e.updates, e.now, e.quarantine).1.Ok? {
        CommitPublishes(g, e.updates, e.now, e.quarantine);
      } else {
        RefusedCommitKeeps(g, e.updates, e.now, e.quarantine);
      }
    }
    IdleCounts(g);
    NoneHeld(g);
  }

  lemma AdmitKeepsPause(g: Gov, id: nat, now: real, retracted: bool, waiting: Option<nat>, health: bool)
    ensures AdmitRequest(g, id, now, retracted, waiting, health).0.paused == g.paused
  {
    hide AdmitFresh;
    if AdmitRequest(g, id, now, retracted, waiting, health).0 != g {
      AdmitFreshCases(g, id, now, waiting, health);
    }
  }

  // ---------- Stalls ----------

  /** A live run that has delivered no token for 2.5 s under a positive reference. */
  ghost predicate Stalled(c: Core, lastTokenAt: real, now: real) {
    !c.quarantined && c.active > 0 && c.reference > 0.0 &&
    LastToken(c.run) == Some(Tick(lastTokenAt)) && now - lastTokenAt >= 2.5
  }

  lemma StalledForecast(c: Core, lastTokenAt: real, now: real, want: Key)
    requires Sound(c) && Stalled(c, lastTokenAt, now) && ClockAccepts(c, now) && InSurface(want, c.maxRunning)
    ensures !Decide(Advance(c, now).value, now, want).allowed
  {
    assert Run(c, []) == c;
    Forecasts.StalledRunAdmitsNothing(c, [], lastTokenAt, now, want);
  }

  lemma VerdictKeepsRefusal(g: Gov, core: Core, now: real, want: Key, waiting: Option<nat>, f: Forecast)
    requires Verdict(g, core, now, want, waiting, false, f).Ok? && !f.allowed
    ensures var d := Capped(g, false, Verdict(g, core, now, want, waiting, false, f).value);
      d.allowed ==> d.reason == OnlineExploration
  {
    hide ExplorationBlocker, RecoveryBlocker;
  }

  /** With requests outstanding a stalled core allows no fresh request, and no probe either. */
  lemma StalledAllowsNothing(g: Gov, lastTokenAt: real, id: nat, now: real, waiting: Option<nat>)
    requires Agreed(g) && g.outstanding > 0 && Stalled(g.core, lastTokenAt, now)
    requires id < |g.requests| && g.requests[id].reservation.None? && ClockAccepts(g.core, now)
    ensures var r := AdmitFresh(g, id, now, waiting, false).1; r.Ok? && !r.value.allowed
  {
    hide Sound, LedgerExact, Tally, PendingOk, Decide, Verdict, Capped, Advance, ProjectedClass, Stalled, Reserve;
    LinkedOf(g);
    AdvanceAccepted(g.core, now);
    AdmitFreshVerdict(g, id, now, waiting);
    var core, want := Advance(g.core, now).value, Wanted(g, id);
    var d := AdmitFresh(g, id, now, waiting, false).1.value;
    StalledForecast(g.core, lastTokenAt, now, want);
    VerdictKeepsRefusal(g, core, now, want, waiting, d.forecast);
    if d.allowed {
      ProbeVerdict(g, core, now, want, waiting, false, d.forecast);
      StalledForecast(g.core, lastTokenAt, now, Key(g.outstanding, want.pressure));
    }
  }

  lemma AdvanceAccepted(c: Core, now: real)
    requires ClockAccepts(c, now)
    ensures Advance(c, now).Ok? && Advance(c, now).value.lastTime == Some(now)
    ensures Advance(c, now).value.maxRunning == c.maxRunning
  {
  }

  /** The decision on a fresh request that is no health check. */
  lemma AdmitFreshVerdict(g: Gov, id: nat, now: real, waiting: Option<nat>)
    requires Linked(g) && id < |g.requests| && ClockAccepts(g.core, now)
    ensures var want, core := Wanted(g, id), Advance(g.core, now).value;
      var f := Decide(core, now, want);
      InSurface(want, core.maxRunning) && f.reason != OnlineExploration &&
      Verdict(g, core, now, want, waiting, false, f).Ok? &&
      AdmitFresh(g, id, now, waiting, false).1
        == Ok(Capped(g, false, Verdict(g, core, now, want, waiting, false, f).value)) &&
      AdmitFresh(g, id, now, waiting, false).1.value.forecast == f
  {
    hide Sound, PendingOk, Decide, ExplorationBlocker, RecoveryBlocker, Expose, Reserve;
    AdmitFreshExact(g, id, now, waiting, false);
    CoreReasons(Advance(g.core, now).value, now, Wanted(g, id));
  }

  /** In every native run of the whole system: 2.5 s after the last token of a live run no fresh request is
      admitted but a health check, probes included. */
  lemma StalledSystemAdmitsNothing(g: Gov, events: seq<Event>, lastTokenAt: real, id: nat, now: real, current: int,
                                   retracted: bool, waiting: Option<nat>)
    requires Owned(g) && Agreed(g) && NativeRun(g, events)
    requires var s := Play(g, events);
      Stalled(s.core, lastTokenAt, now) && id < |s.requests| && s.requests[id].reservation.None?
    ensures var s := Play(g, events);
      var s' := Next(s, AdmitCall(id, now, current, retracted, waiting, false));
      var r := AdmitRequest(RefreshIdentity(s, now, current).0, id, now, retracted, waiting, false).1;
      (r.Ok? ==> !r.value.allowed) && s'.requests == s.requests && s'.outstanding == s.outstanding
  {
    hide Agreed, Owned, NativeRun, Play, Stalled, AdmitFresh;
    EpochSeparation(g, events);
    RunAgreed(g, events);
    var s := Play(g, events);
    StalledActive(s, lastTokenAt, now);
    RefreshAgreed(s, now, current);
    var s1 := RefreshIdentity(s, now, current).0;
    LinkedOf(s1);
    AdmitFreshExact(s1, id, now, waiting, false);
    if ClockAccepts(s1.core, now) {
      StalledAllowsNothing(s1, lastTokenAt, id, now, waiting);
    }
  }

  lemma StalledActive(g: Gov, lastTokenAt: real, now: real)
    requires Agreed(g) && Stalled(g.core, lastTokenAt, now)
    ensures g.active > 0
  {
  }
}
