/** What each operation of the scheduler amounts to, over requests, counts and times alone: laws that
    determine the operation without naming how it is computed. */
module SchedulerLaws {
  import opened Wrappers
  import opened Ticks
  import opened CoreSpec
  import opened CoreRuns
  import opened Scheduler
  import opened Ledgers
  import opened Joint
  import Conservation
  import Ledger
  import Lifecycles
  import Provenance

  // ---------- Context-pressure classes ----------

  /** Class 0 up to 4096 tokens, class 1 up to 16384, class 2 up to 65536, class 3 beyond. */
  lemma PressureClassLaw(total: nat)
    ensures PressureClass(total) == 0 <==> total <= 4096
    ensures PressureClass(total) <= 1 <==> total <= 16384
    ensures PressureClass(total) <= 2 <==> total <= 65536
  {
  }

  /** The class is that of some member, and none is heavier. */
  ghost predicate HeaviestOf(cls: nat, rs: seq<Request>, w: int -> Weight) {
    (exists i :: 0 <= i < |rs| && w(cls)(rs[i]) > 0) &&
    forall i, c :: 0 <= i < |rs| && 0 <= c < 4 && w(c)(rs[i]) > 0 ==> c <= cls
  }

  lemma CountShows(w: Weight, rs: seq<Request>, count: int)
    requires (forall r: Request :: w(r) >= 0) && count == Total(w, rs)
    ensures count != 0 <==> exists i :: 0 <= i < |rs| && w(rs[i]) > 0
  {
    TotalNonnegative(w, rs);
    if count == 0 {
      TotalZero(w, rs);
    } else if forall i :: 0 <= i < |rs| ==> w(rs[i]) == 0 {
      NothingCounted(w, rs);
    }
    if i :| 0 <= i < |rs| && w(rs[i]) > 0 {
      TotalAtLeast(w, rs, i);
    }
  }

  lemma {:induction false} NothingCounted(w: Weight, rs: seq<Request>)
    requires forall i :: 0 <= i < |rs| ==> w(rs[i]) == 0
    ensures Total(w, rs) == 0
  {
    if rs != [] {
      NothingCounted(w, rs[..|rs| - 1]);
    }
  }

  lemma HeaviestLaw(counts: Counts, rs: seq<Request>, w: int -> Weight)
    requires forall c :: 0 <= c < 4 ==> (forall r: Request :: w(c)(r) >= 0) && counts[c] == Total(w(c), rs)
    ensures if forall c :: 0 <= c < 4 ==> counts[c] == 0 then Heaviest(counts) == 0
            else HeaviestOf(Heaviest(counts), rs, w)
  {
    forall c | 0 <= c < 4 ensures counts[c] != 0 <==> exists i :: 0 <= i < |rs| && w(c)(rs[i]) > 0 {
      CountShows(w(c), rs, counts[c]);
    }
    var top := Heaviest(counts);
    assert counts[0] == 0 || counts[top] != 0;
    assert forall c :: top < c < 4 ==> counts[c] == 0;
  }

  /** The cell of the requests now decoding: how many there are, and the heaviest of their classes. */
  ghost predicate DecodingCell(rs: seq<Request>, key: Key) {
    key.concurrency == Total(DecodingW(), rs) &&
    (exists i :: 0 <= i < |rs| && Decoding(rs[i]) && rs[i].progress.value.cls == key.pressure) &&
    forall i :: 0 <= i < |rs| && Decoding(rs[i]) ==> rs[i].progress.value.cls <= key.pressure
  }

  /** A batch is charged to the cell of the requests decoding when it starts. */
  lemma StartCellLaw(g: Gov)
    requires Agreed(g) && g.active > 0
    ensures StartCell(g).concurrency == g.active && DecodingCell(g.requests, StartCell(g))
  {
    hide Linked, LedgerExact, Heaviest, AllProgressOk;
    var w := (c: int) => DecodingIn(c);
    HeaviestLaw(g.activeCounts, g.requests, w);
    SomeActive(g);
    var top := Heaviest(g.activeCounts);
    var i :| 0 <= i < |g.requests| && w(top)(g.requests[i]) > 0;
    assert Decoding(g.requests[i]) && g.requests[i].progress.value.cls == top;
    forall j | 0 <= j < |g.requests| && Decoding(g.requests[j]) ensures g.requests[j].progress.value.cls <= top {
      assert w(g.requests[j].progress.value.cls)(g.requests[j]) > 0;
    }
  }

  lemma SomeActive(g: Gov)
    requires Agreed(g) && g.active > 0
    ensures exists c :: 0 <= c < 4 && g.activeCounts[c] != 0
  {
    hide Linked, LedgerExact;
    CountShows(DecodingW(), g.requests, g.active);
    var i :| 0 <= i < |g.requests| && DecodingW()(g.requests[i]) > 0;
    var c := g.requests[i].progress.value.cls;
    assert DecodingIn(c)(g.requests[i]) > 0;
    CountShows(DecodingIn(c), g.requests, g.activeCounts[c]);
  }

  /** A run that a commit begins starts in the cell of the requests decoding after it. */
  lemma EntryCellLaw(g: Gov, updates: seq<Update>, now: real, quarantine: bool)
    requires Agreed(g) && CommitBatch(g, updates, now, quarantine).1.Ok?
    ensures var g' := CommitBatch(g, updates, now, quarantine).0;
      var b := Propose(g.requests, updates, now).value;
      g'.active > 0 ==>
        DecodingCell(g'.requests, Provenance.EntryCell(g'.active, CountsAfter(g.activeCounts, b)))
  {
    hide CommitBatch, Propose, Heaviest, Agreed, DecodingCell;
    CommitPublishes(g, updates, now, quarantine);
    CommitAgreed(g, updates, now, quarantine);
    var g' := CommitBatch(g, updates, now, quarantine).0;
    if g'.active > 0 {
      StartCellLaw(g');
    }
  }

  /** A commit's tokens go to the cell of the requests decoding before it, or, when they begin a run, to that of the
      requests decoding after it; no other cell gains tokens or awaits more. */
  lemma TokensWhereDecoding(g: Gov, updates: seq<Update>, now: real, quarantine: bool, k: Key)
    requires Agreed(g) && Provenance.Clean(g, CommitCall(updates, now, quarantine))
    ensures var e := CommitCall(updates, now, quarantine);
      var g' := CommitBatch(g, updates, now, quarantine).0;
      (Provenance.Produced(g, e, k) > 0 ==> DecodingCell(g.requests, k)) &&
      (Provenance.ProducedNext(g, e, k) > 0 ==> DecodingCell(g'.requests, k)) &&
      (!DecodingCell(g.requests, k) && !DecodingCell(g'.requests, k) ==>
        Provenance.CellTokens(g'.core, k) == Provenance.CellTokens(g.core, k) &&
        PendingAt(g'.pending, k) <= PendingAt(g.pending, k))
  {
    hide CommitBatch, Propose, Agreed, DecodingCell, Provenance.CellTokens, Provenance.Lost, Settle;
    var e := CommitCall(updates, now, quarantine);
    var b := Propose(g.requests, updates, now).value;
    var after, counts := Provenance.AfterOf(g, b), CountsAfter(g.activeCounts, b);
    Provenance.CleanCell(g, e, k);
    CommitPublishes(g, updates, now, quarantine);
    EntryCellLaw(g, updates, now, quarantine);
    if g.active > 0 {
      StartCellLaw(g);
    }
    Conservation.CleanCommit(g, updates, now, quarantine);
    Conservation.NotDirty(g, quarantine);
    Conservation.LinkedOf(g);
    Provenance.SettleDelivers(g, b, now, after, counts, k);
    var s := Settle(g, b, now, after, counts).value;
    Provenance.SameCell(CommitBatch(g, updates, now, quarantine).0.core, s.core, k);
  }

  /** A candidate is forecast one slot up, within the native range, at the heaviest of its own class and those of
      the requests held. */
  lemma WantedLaw(g: Gov, id: nat)
    requires Agreed(g) && id < |g.requests|
    ensures var cls := PressureClass(g.requests[id].input + g.requests[id].horizon);
      var want := Wanted(g, id);
      want.concurrency == (if g.outstanding < g.nativeMax then g.outstanding + 1 else g.nativeMax) &&
      cls <= want.pressure &&
      (forall i :: 0 <= i < |g.requests| && Held(g.requests[i]) ==>
        g.requests[i].reservation.value.cls <= want.pressure) &&
      (want.pressure == cls ||
       exists i :: (0 <= i < |g.requests| && Held(g.requests[i]) &&
                    g.requests[i].reservation.value.cls == want.pressure))
  {
    hide Linked, Tally, Heaviest;
    var w := (c: int) => HeldIn(c);
    HeaviestLaw(g.admitted, g.requests, w);
    var top := Heaviest(g.admitted);
    if exists c :: 0 <= c < 4 && g.admitted[c] != 0 {
      var i :| 0 <= i < |g.requests| && w(top)(g.requests[i]) > 0;
      assert Held(g.requests[i]) && g.requests[i].reservation.value.cls == top;
    }
    forall j | 0 <= j < |g.requests| && Held(g.requests[j]) ensures g.requests[j].reservation.value.cls <= top {
      var c := g.requests[j].reservation.value.cls;
      assert w(c)(g.requests[j]) > 0;
      CountShows(HeldIn(c), g.requests, g.admitted[c]);
    }
  }

  // ---------- Admission ----------

  /** A probe may start: it is enabled, alone, within capacity and off cooldown, nobody waits, and it is the only
      request or the lighter cell below has live headroom. */
  ghost predicate MayProbe(g: Gov, core: Core, now: real, want: Key, waiting: Option<nat>) {
    g.exploring && !g.explorationActive && g.outstanding < g.maxRunning &&
    (if waiting.Some? then waiting.value == 0 else g.outstanding == 0) &&
    (g.lastExploration.Some? ==> g.lastExploration.value + 2.0 <= now) &&
    (g.outstanding == 0 ||
     (want.concurrency == g.outstanding + 1 &&
      var lower := Decide(core, now, Key(g.outstanding, want.pressure));
      lower.allowed && lower.observed && lower.tps >= lower.reference * 1.25))
  }

  /** The forecast is of a slow or unknown cell that may be probed; a slow one only from a drained, clean scheduler two
      seconds after its last commit. */
  ghost predicate Probes(g: Gov, core: Core, now: real, want: Key, waiting: Option<nat>, f: Forecast) {
    MayProbe(g, core, now, want, waiting) &&
    (f.reason == Unknown ||
     (f.reason == TpsRisk && f.observed &&
      g.outstanding == 0 && g.active == 0 && g.healthOutstanding == 0 && !g.dirty &&
      g.surfaceTime.Some? && g.surfaceTime.value + 2.0 <= now))
  }

  lemma BlockerLaw(g: Gov, core: Core, now: real, want: Key, waiting: Option<nat>)
    requires core.lastTime == Some(now) && 0.0 <= now < MAX_CLOCK && InSurface(want, core.maxRunning)
    requires want.concurrency <= g.outstanding + 1
    requires want.concurrency == 1 ==> g.outstanding == 0 || g.maxRunning <= 1
    ensures ExplorationBlocker(g, core, now, want, waiting).Ok?
    ensures ExplorationBlocker(g, core, now, want, waiting).value.None? <==> MayProbe(g, core, now, want, waiting)
  {
    hide Decide, Advance;
    AdvanceAgain(core, now);
  }

  /** Room to wait, by the scheduler's own count and the native queue's. */
  predicate RoomToWait(g: Gov, waiting: Option<nat>) {
    g.outstanding + 1 <= g.maxRunning + g.maxWaiting && (waiting.Some? ==> waiting.value + 1 <= g.maxWaiting)
  }

  predicate Admits(g: Gov, waiting: Option<nat>, health: bool, f: Forecast, probes: bool) {
    !g.paused && RoomToWait(g, waiting) && if health then g.outstanding < g.maxRunning else f.allowed || probes
  }

  /** The least count that covers the overflow of running slots and the native queue with this request in it. */
  predicate IsWaiting(n: nat, g: Gov, waiting: Option<nat>) {
    g.outstanding + 1 <= g.maxRunning + n && (waiting.Some? ==> waiting.value + 1 <= n) &&
    (n == 0 || n == g.outstanding + 1 - g.maxRunning || (waiting.Some? && n == waiting.value + 1))
  }

  lemma VerdictLaw(g: Gov, core: Core, now: real, want: Key, waiting: Option<nat>, health: bool, f: Forecast)
    requires core.lastTime == Some(now) && 0.0 <= now < MAX_CLOCK && InSurface(want, core.maxRunning)
    requires want.concurrency <= g.outstanding + 1
    requires want.concurrency == 1 ==> g.outstanding == 0 || g.maxRunning <= 1
    requires f.allowed ==> f.reason != TpsRisk && f.reason != Unknown
    ensures Verdict(g, core, now, want, waiting, health, f).Ok?
    ensures IsDecision(Capped(g, health, Verdict(g, core, now, want, waiting, health, f).value), g, f,
                       !g.paused && !health && Probes(g, core, now, want, waiting, f), waiting, health)
  {
    hide Decide, Advance, ExplorationBlocker, MayProbe;
    BlockerLaw(g, core, now, want, waiting);
  }

  /** The decision on a fresh request, in full. */
  ghost predicate IsDecision(d: Decision, g: Gov, f: Forecast, probes: bool, waiting: Option<nat>, health: bool) {
    d.forecast == f && d.recovery == (probes && f.reason == TpsRisk) && IsWaiting(d.projectedWaiting, g, waiting) &&
    (d.allowed <==> Admits(g, waiting, health, f, probes)) &&
    d.reason ==
      if g.paused then IdentityTransition
      else if health then (if d.allowed then HealthCheck else WaitingLimit)
      else if !f.allowed && !probes then f.reason
      else if !d.allowed then WaitingLimit
      else if probes then OnlineExploration else f.reason
  }

  /** The scheduler with one more reservation, as the decision says. */
  ghost function Reserved(g: Gov, id: nat, now: real, health: bool, d: Decision, probes: bool): Gov
    requires id < |g.requests|
  {
    var cls := PressureClass(g.requests[id].input + g.requests[id].horizon);
    var granted := Some(Reservation(cls, d, probes, health, false, g.epoch));
    g.(outstanding := g.outstanding + 1, admitted := g.admitted[cls := g.admitted[cls] + 1],
       requests := g.requests[id := g.requests[id].(reservation := granted)],
       explorationActive := g.explorationActive || probes,
       lastExploration := if probes then Some(now) else g.lastExploration,
       healthOutstanding := if health then g.healthOutstanding + 1 else g.healthOutstanding,
       dirty := g.dirty || health, pending := if health then map[] else g.pending)
  }

  /** A fresh admission at an accepted clock: the whole decision and the whole effect. */
  lemma AdmissionLaw(g: Gov, id: nat, now: real, waiting: Option<nat>, health: bool)
    requires Linked(g) && id < |g.requests| && ClockAccepts(g.core, now)
    ensures g.active <= g.core.maxRunning
    ensures var (g', r) := AdmitFresh(g, id, now, waiting, health);
      r.Ok? &&
      var core := AdmittedCore(g, now, health && r.value.allowed);
      var f := Decide(core, now, Wanted(g, id));
      var probes := !g.paused && !health && Probes(g, core, now, Wanted(g, id), waiting, f);
      IsDecision(r.value, g, f, probes, waiting, health) &&
      g' == if r.value.allowed then Reserved(g.(core := core), id, now, health, r.value, probes) else g.(core := core)
  {
    hide Linked, Decide, AdmitFresh, Probes, Quarantine, Advance, Reserve, Reserved, IsDecision, ClockAccepts, Wanted;
    AdmittedClock(g, now, true);
    AdmitFreshExact(g, id, now, waiting, health);
    DecisionOf(g, id, now, waiting, health);
    var r := AdmitFresh(g, id, now, waiting, health).1;
    var core := AdmittedCore(g, now, health && r.value.allowed);
    var f := Decide(core, now, Wanted(g, id));
    CoreReasons(core, now, Wanted(g, id));
    ReserveLaw(g.(core := core), id, now, health, r.value, f,
               !g.paused && !health && Probes(g, core, now, Wanted(g, id), waiting, f), waiting);
    DecisionIgnoresCore(r.value, g, core, f, !g.paused && !health && Probes(g, core, now, Wanted(g, id), waiting, f),
                        waiting, health);
  }

  lemma DecisionIgnoresCore(d: Decision, g: Gov, core: Core, f: Forecast, probes: bool, waiting: Option<nat>,
                            health: bool)
    ensures IsDecision(d, g, f, probes, waiting, health) == IsDecision(d, g.(core := core), f, probes, waiting, health)
  {
  }

  lemma ReserveLaw(g: Gov, id: nat, now: real, health: bool, d: Decision, f: Forecast, probes: bool,
                   waiting: Option<nat>)
    requires id < |g.requests| && (probes ==> !health && !g.paused) && f.reason != OnlineExploration
    ensures IsDecision(d, g, f, probes, waiting, health) && d.allowed ==>
      Reserve(g, id, now, PressureClass(g.requests[id].input + g.requests[id].horizon), health, d)
        == Reserved(g, id, now, health, d, probes)
  {
    hide IsWaiting, RoomToWait;
  }

  lemma DecisionOf(g: Gov, id: nat, now: real, waiting: Option<nat>, health: bool)
    requires Linked(g) && id < |g.requests| && ClockAccepts(g.core, now)
    ensures g.active <= g.core.maxRunning
    ensures var r := AdmitFresh(g, id, now, waiting, health).1;
      r.Ok? &&
      var core := AdmittedCore(g, now, health && r.value.allowed);
      var f := Decide(core, now, Wanted(g, id));
      var probes := !g.paused && !health && Probes(g, core, now, Wanted(g, id), waiting, f);
      IsDecision(r.value, g, f, probes, waiting, health)
  {
    hide Linked, Decide, Verdict, Capped, AdmitFresh, Probes, Quarantine, Advance, ClockAccepts, Wanted, AdmittedCore;
    AdmittedClock(g, now, true);
    AdmittedClock(g, now, false);
    DecisionParts(g, id, now, waiting, health);
    CandidateBounds(g, id);
    var r := AdmitFresh(g, id, now, waiting, health).1;
    var core := AdmittedCore(g, now, health && r.value.allowed);
    AllowedReason(core, now, Wanted(g, id));
    VerdictLaw(g, core, now, Wanted(g, id), waiting, health, Decide(core, now, Wanted(g, id)));
  }

  lemma AllowedReason(c: Core, now: real, want: Key)
    ensures var f := Decide(c, now, want); f.allowed ==> f.reason != TpsRisk && f.reason != Unknown
  {
  }

  lemma AdmittedClock(g: Gov, now: real, health: bool)
    requires Linked(g) && ClockAccepts(g.core, now)
    ensures g.active <= g.core.maxRunning
    ensures var core := AdmittedCore(g, now, health);
      core.lastTime == Some(now) && 0.0 <= now < MAX_CLOCK && core.maxRunning == g.nativeMax
  {
    hide Sound, PendingOk;
    StartCellInSurface(g);
  }

  lemma CandidateBounds(g: Gov, id: nat)
    requires Linked(g) && id < |g.requests|
    ensures var want := Wanted(g, id);
      InSurface(want, g.nativeMax) && want.concurrency <= g.outstanding + 1 &&
      (want.concurrency == 1 ==> g.outstanding == 0 || g.maxRunning <= 1)
  {
    hide Sound, PendingOk;
  }

  lemma FitsLaw(g: Gov, health: bool, waiting: Option<nat>)
    ensures HealthFits(g, health, waiting) <==>
      health && !g.paused && g.outstanding < g.maxRunning && RoomToWait(g, waiting)
  {
  }

  /** The decision is the capped verdict on the forecast at the core it leaves. */
  lemma DecisionParts(g: Gov, id: nat, now: real, waiting: Option<nat>, health: bool)
    requires Linked(g) && id < |g.requests| && ClockAccepts(g.core, now)
    ensures var r := AdmitFresh(g, id, now, waiting, health).1;
      r.Ok? &&
      var core := AdmittedCore(g, now, health && r.value.allowed);
      var v := Verdict(g, core, now, Wanted(g, id), waiting, health, Decide(core, now, Wanted(g, id)));
      v.Ok? && r.value == Capped(g, health, v.value)
  {
    hide Sound, PendingOk, Decide, Verdict, Capped, Ledger.Expose, ProjectedClass, Reserve;
    AdmitFreshExact(g, id, now, waiting, health);
    CandidateBounds(g, id);
    AdmittedClock(g, now, HealthFits(g, health, waiting));
    AdvanceAgain(AdmittedCore(g, now, HealthFits(g, health, waiting)), now);
    Lifecycles.AdvanceAccepted(g.core, now);
  }

  /** What is asked before a forecast: one answer for a request that has a reservation, and the refusals of the rest. */
  lemma AskingLaw(g: Gov, id: nat, now: real, retracted: bool, waiting: Option<nat>, health: bool)
    requires id < |g.requests|
    ensures var (g', r) := AdmitRequest(g, id, now, retracted, waiting, health);
      var req := g.requests[id];
      if req.reservation.Some? then
        g' == g && r == if req.reservation.value.released || req.reservation.value.health != health then Err(Internal)
                        else Ok(req.reservation.value.decision)
      else if retracted then g' == g && r == Err(Internal)
      else if (health && (req.input != 1 || req.horizon != 1)) || (waiting.Some? && waiting.value >= 0xFFFF_FFFF) ||
              req.input + req.horizon >= U64 then g' == g && r == Err(Invalid)
      else (g', r) == AdmitFresh(g, id, now, waiting, health)
  {
    hide AdmitFresh;
  }

  // ---------- Release ----------

  /** Releasing returns exactly the reservation's slot, class, check and probe. */
  lemma ReleaseLaw(g: Gov, id: nat)
    requires LedgerExact(g) && id < |g.requests| && Held(g.requests[id])
    ensures var was := g.requests[id].reservation.value;
      g.outstanding > 0 && (was.health ==> g.healthOutstanding > 0) &&
      ReleaseRequest(g, id) ==
        (g.(outstanding := g.outstanding - 1, admitted := g.admitted[was.cls := g.admitted[was.cls] - 1],
            healthOutstanding := if was.health then g.healthOutstanding - 1 else g.healthOutstanding,
            explorationActive := g.explorationActive && !was.exploration,
            requests := g.requests[id := g.requests[id].(reservation := Some(was.(released := true)))]), Ok(true))
  {
    hide LedgerExact;
    ReleaseExact(g, id);
  }

  /** Progress starts empty, in the class of the reservation, for a reserved request that has none. */
  lemma AttachLaw(g: Gov, id: nat)
    requires id < |g.requests|
    ensures var (g', r) := AttachProgress(g, id);
      var req := g.requests[id];
      (r == Err(Internal) <==> req.progress.None? && req.reservation.None?) && (r.Ok? || r == Err(Internal)) &&
      (req.progress.Some? || req.reservation.None? ==> g' == g) &&
      (req.progress.None? && req.reservation.Some? ==>
        g' == g.(requests := g.requests[id := req.(
          progress := Some(Progress(0, false, false, req.reservation.value.cls, None, false)))]))
  {
  }
}
