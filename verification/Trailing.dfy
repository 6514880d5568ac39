/** Reads of the core seen from the scheduler: a snapshot taken at some time leaves every later
    answer and every field of the scheduler as they were, until a call drops exposure. */
module Trailing {
  import opened Wrappers
  import opened CoreSpec
  import opened CoreRuns
  import opened Scheduler
  import opened Joint
  import Conservation
  import Drives
  import Hooks
  import Ledger
  import Lifecycles
  import Transparency

  /** The same scheduler, but for a core that a read has moved to time `t`. */
  ghost predicate Trails(g: Gov, h: Gov, t: real) {
    h == g || (ClockAccepts(g.core, t) && h == Ahead(g, t))
  }

  function Ahead(g: Gov, t: real): Gov
    requires ClockAccepts(g.core, t)
  {
    g.(core := Advance(g.core, t).value)
  }

  /** What a call answers. */
  datatype Answer = Silent | Decided(Result<Decision>) | Finished(Result<()>) | Answered(Result<bool>)

  function AnswerOf(g: Gov, e: Event): Answer {
    match e
    case AdmitCall(id, now, current, retracted, waiting, health) =>
      Decided(Hooks.RefreshThenAdmit(g, id, now, current, retracted, waiting, health).1)
    case PolicyCall(now, current, epoch, revision, reference, maxWaiting, maxRunning) =>
      Finished(Hooks.RefreshThenUpdate(g, now, current, epoch, revision, reference, maxWaiting, maxRunning).1)
    case RefreshCall(now, current) => Answered(RefreshIdentity(g, now, current).1)
    case ReleaseCall(id) => Answered(ReleaseRequest(g, id).1)
    case AttachCall(id) => Finished(AttachProgress(g, id).1)
    case CommitCall(updates, now, quarantine) => Finished(CommitBatch(g, updates, now, quarantine).1)
    case ReadCall(now) => Finished(ReadCore(g, now).1)
    case PrefillCall(now, wall) => Finished(PrefillCompleted(g, now, wall).1)
    case PreferCall(now, decode, prefill, age) => Answered(PreferDecode(g, now, decode, prefill, age).1)
    case Arrive(_, _) => Silent
  }

  /** A call that does not look before `t`, and drops no exposure. */
  predicate Calm(g: Gov, e: Event, t: real) {
    (e.AdmitCall? || e.CommitCall? || e.ReadCall? || e.PrefillCall? || e.PreferCall? ==> e.now >= t) &&
    !Conservation.DropsExposure(g, e)
  }

  // ---------- Calls of the core after a read ----------

  lemma CoreAfterRead(c: Core, t: real, now: real)
    requires Sound(c) && ClockAccepts(c, t) && now >= t
    ensures var d := Advance(c, t).value;
      Advance(d, now) == Advance(c, now) && ClockAccepts(d, now) == ClockAccepts(c, now) &&
      d == c.(log := d.log, run := d.run, lastTime := d.lastTime)
  {
    hide Sound, Ledger.Expose;
    if ClockAccepts(c, now) {
      Transparency.AdvanceTwice(c, t, now);
    }
  }

  lemma ForecastAfterRead(c: Core, t: real, now: real, want: Key)
    requires Sound(c) && ClockAccepts(c, t) && now >= t
    ensures Admit(Advance(c, t).value, now, want) == Admit(c, now, want)
  {
    hide Sound, Advance, ClockAccepts, Decide;
    CoreAfterRead(c, t, now);
  }

  lemma ObservedAfterRead(c: Core, t: real, now: real, delta: nat, seconds: real, key: Key, after: nat)
    requires Sound(c) && ClockAccepts(c, t) && now >= t
    ensures var d := Advance(c, t).value;
      Observe(d, now, delta, after) == Observe(c, now, delta, after) &&
      ObserveBatch(d, now, delta, seconds, key, after) == ObserveBatch(c, now, delta, seconds, key, after) &&
      ObserveReplacement(d, now, delta, seconds, key, after) == ObserveReplacement(c, now, delta, seconds, key, after)
  {
    hide Sound, Advance, ClockAccepts, Record, ObserveCell;
    CoreAfterRead(c, t, now);
    ObservedZero(c, t, now, after);
  }

  lemma ObservedZero(c: Core, t: real, now: real, after: nat)
    requires Sound(c) && ClockAccepts(c, t) && now >= t
    ensures Observe(Advance(c, t).value, now, 0, after) == Observe(c, now, 0, after)
  {
    hide Sound, Advance, ClockAccepts, Record;
    CoreAfterRead(c, t, now);
  }

  // ---------- Each call of the scheduler ----------

  lemma RefreshTrails(g: Gov, t: real, now: real, current: int)
    requires ClockAccepts(g.core, t)
    ensures var (g1, r) := RefreshIdentity(g, now, current);
      var (h1, s) := RefreshIdentity(Ahead(g, t), now, current);
      r == s && Trails(g1, h1, t)
  {
    hide Ledger.Expose;
  }

  lemma PolicyTrails(g: Gov, t: real, epoch: nat, revision: nat, reference: Option<real>,
                     maxWaiting: Option<int>, maxRunning: Option<int>)
    requires Sound(g.core) && ClockAccepts(g.core, t)
    ensures var (g1, r) := UpdatePolicy(g, epoch, revision, reference, maxWaiting, maxRunning);
      var (h1, s) := UpdatePolicy(Ahead(g, t), epoch, revision, reference, maxWaiting, maxRunning);
      r == s && Trails(g1, h1, t)
  {
    hide UpdateReference, Sound, Advance, ClockAccepts;
    CoreAfterRead(g.core, t, t);
    ReferenceTrails(g.core, t, revision, GetOr(reference, g.core.reference));
  }

  lemma ReferenceTrails(c: Core, t: real, revision: nat, reference: real)
    requires ClockAccepts(c, t)
    ensures var d := Advance(c, t).value;
      d.reference == c.reference &&
      match UpdateReference(c, revision, reference)
      case Err(e) => UpdateReference(d, revision, reference) == Err(e)
      case Ok(c') =>
        ClockAccepts(c', t) && UpdateReference(d, revision, reference) == Ok(Advance(c', t).value)
  {
    hide Ledger.Expose;
  }

  lemma RefusedInvalid(g: Gov, id: nat, now: real, waiting: Option<nat>, health: bool)
    requires id < |g.requests| && !ClockAccepts(g.core, now)
    ensures AdmitFresh(g, id, now, waiting, health) == (g, Err(Invalid))
  {
    hide Verdict, Capped, Reserve, Decide, ProjectedClass;
  }

  /** The admission of a request that is no fitting health check, once its forecast is known. */
  lemma AdmitFreshPlainly(g: Gov, id: nat, now: real, waiting: Option<nat>, health: bool, core: Core, f: Forecast)
    requires id < |g.requests| && !HealthFits(g, health, waiting) && Admit(g.core, now, Wanted(g, id)) == Ok((core, f))
    ensures AdmitFresh(g, id, now, waiting, health) ==
      match Verdict(g, core, now, Wanted(g, id), waiting, health, f)
      case Err(e) => (g.(core := core), Err(e))
      case Ok(verdict) =>
        var d := Capped(g, health, verdict);
        (if d.allowed
         then Reserve(g.(core := core), id, now, PressureClass(g.requests[id].input + g.requests[id].horizon), health,
                      d)
         else g.(core := core), Ok(d))
  {
    hide Verdict, Capped, Admit, ProjectedClass, HealthFits, Reserve;
  }

  lemma AdmitFreshTrails(g: Gov, t: real, id: nat, now: real, waiting: Option<nat>, health: bool)
    requires Linked(g) && ClockAccepts(g.core, t) && now >= t && id < |g.requests|
    requires AdmitFresh(g, id, now, waiting, health).0.healthOutstanding <= g.healthOutstanding
    ensures var (g1, r) := AdmitFresh(g, id, now, waiting, health);
      var (h1, s) := AdmitFresh(Ahead(g, t), id, now, waiting, health);
      r == s && Trails(g1, h1, t)
  {
    hide Sound, Verdict, Capped, Decide, Ledger.Expose, Advance, ClockAccepts, PendingOk, AdmitFresh,
      Reserve;
    CoreAfterRead(g.core, t, now);
    var h := Ahead(g, t);
    if !ClockAccepts(g.core, now) {
      RefusedInvalid(g, id, now, waiting, health);
      RefusedInvalid(h, id, now, waiting, health);
    } else {
      NoneFits(g, id, now, waiting, health);
      Lifecycles.AdvanceAccepted(g.core, now);
      var core, want := Advance(g.core, now).value, Wanted(g, id);
      InSurfaceWanted(g, id);
      ForecastAfterRead(g.core, t, now, want);
      AdmitFreshPlainly(g, id, now, waiting, health, core, Decide(core, now, want));
      AdmitFreshPlainly(h, id, now, waiting, health, core, Decide(core, now, want));
      VerdictIgnoresCore(g, h, core, now, want, waiting, health, Decide(core, now, want));
      assert g.(core := core) == h.(core := core);
    }
  }

  lemma InSurfaceWanted(g: Gov, id: nat)
    requires Linked(g) && id < |g.requests|
    ensures InSurface(Wanted(g, id), g.core.maxRunning)
  {
    hide Sound, PendingOk;
  }

  /** A health check that fits is admitted, and counted. */
  lemma NoneFits(g: Gov, id: nat, now: real, waiting: Option<nat>, health: bool)
    requires Linked(g) && id < |g.requests| && ClockAccepts(g.core, now)
    requires AdmitFresh(g, id, now, waiting, health).0.healthOutstanding <= g.healthOutstanding
    ensures !HealthFits(g, health, waiting)
  {
    hide Sound, PendingOk, AdmitFresh, Quarantine, Advance;
    AdmitFreshExact(g, id, now, waiting, health);
  }

  lemma AdmitTrails(g: Gov, t: real, id: nat, now: real, retracted: bool, waiting: Option<nat>, health: bool)
    requires Linked(g) && ClockAccepts(g.core, t) && now >= t
    requires AdmitRequest(g, id, now, retracted, waiting, health).0.healthOutstanding <= g.healthOutstanding
    ensures var (g1, r) := AdmitRequest(g, id, now, retracted, waiting, health);
      var (h1, s) := AdmitRequest(Ahead(g, t), id, now, retracted, waiting, health);
      r == s && Trails(g1, h1, t)
  {
    hide AdmitFresh, Linked, Advance;
    if id < |g.requests| &&
       AdmitRequest(g, id, now, retracted, waiting, health) == AdmitFresh(g, id, now, waiting, health) {
      AdmitFreshTrails(g, t, id, now, waiting, health);
    }
  }

  lemma SettleTrails(g: Gov, t: real, b: Batch, now: real, after: nat, counts: Counts)
    requires Linked(g) && ClockAccepts(g.core, t) && now >= t && b.enteringDelta <= b.total
    ensures Settle(Ahead(g, t), b, now, after, counts) == Settle(g, b, now, after, counts)
  {
    hide Sound, Advance, ClockAccepts, PendingOk, ObserveReplacement, ObserveBatch, Observe, Settle, Unexpired;
    var h := Ahead(g, t);
    var live, start := Unexpired(g.pending, now), StartCell(g);
    if ElapsedSince(g, now) < 0.0 {
      EarlierInvalid(g, b, now, after, counts);
      EarlierInvalid(h, b, now, after, counts);
    } else {
      var seconds := ElapsedSince(g, now) * g.active as real;
      if FullReplacement(g, b) {
        var retired: nat := if seconds > 0.0 then b.total - b.enteringDelta + PendingAt(live, start) else 0;
        ObservedAfterRead(g.core, t, now, retired, seconds, start, after);
        SettleReplacement(g, b, now, after, counts, seconds, retired);
        SettleReplacement(h, b, now, after, counts, seconds, retired);
      } else if g.active > 0 && seconds > 0.0 {
        ObservedAfterRead(g.core, t, now, b.total + PendingAt(live, start), seconds, start, after);
        SettleCharge(g, b, now, after, counts, seconds, b.total + PendingAt(live, start));
        SettleCharge(h, b, now, after, counts, seconds, b.total + PendingAt(live, start));
      } else {
        ObservedZero(g.core, t, now, after);
        var base := if g.active == 0 then map[] else live;
        var cell := if g.active > 0 then start else Key(after, Heaviest(counts));
        SettleSilent(g, b, now, after, counts, base, cell);
        SettleSilent(h, b, now, after, counts, base, cell);
      }
    }
  }

  lemma EarlierInvalid(g: Gov, b: Batch, now: real, after: nat, counts: Counts)
    requires b.enteringDelta <= b.total && ElapsedSince(g, now) < 0.0
    ensures Settle(g, b, now, after, counts) == Err(Invalid)
  {
  }

  lemma CommitTrails(g: Gov, t: real, updates: seq<Update>, now: real, quarantine: bool)
    requires Linked(g) && ClockAccepts(g.core, t) && now >= t
    requires Taints(g, quarantine) ==> CommitBatch(g, updates, now, quarantine).1.Err?
    ensures var (g1, r) := CommitBatch(g, updates, now, quarantine);
      var (h1, s) := CommitBatch(Ahead(g, t), updates, now, quarantine);
      r == s && Trails(g1, h1, t)
  {
    hide Propose, Settle, Sound, Advance, ClockAccepts, PendingOk, Quarantine;
    if Propose(g.requests, updates, now).Ok? {
      var b := Propose(g.requests, updates, now).value;
      var after := g.active + Sum4(b.entering) - Sum4(b.leaving);
      if after >= 0 {
        SettleTrails(g, t, b, now, after, CountsAfter(g.activeCounts, b));
        QuarantineTrails(g.core, t, now, after, g.healthOutstanding > 0);
      }
    }
  }

  lemma QuarantineTrails(c: Core, t: real, now: real, after: nat, enabled: bool)
    requires Sound(c) && ClockAccepts(c, t) && now >= t
    ensures match (Quarantine(c, now, after, enabled), Quarantine(Advance(c, t).value, now, after, enabled))
      case (Err(e), Err(f)) => e == f
      case (Ok(_), Ok(_)) => true
      case _ => false
  {
    hide Sound, Ledger.Expose;
    CoreAfterRead(c, t, now);
  }

  lemma ReadTrails(g: Gov, t: real, e: Event)
    requires Linked(g) && ClockAccepts(g.core, t) && Calm(g, e, t)
    requires e.ReadCall? || e.PrefillCall? || e.PreferCall?
    ensures AnswerOf(g, e) == AnswerOf(Ahead(g, t), e) && Trails(Next(g, e), Next(Ahead(g, t), e), t)
  {
    hide Sound, Advance, ClockAccepts, PendingOk, Duration, Weighs, ViewAt;
    CoreAfterRead(g.core, t, e.now);
  }

  /** One calm call: the same answer, and the two schedulers stay as they were or coincide. */
  lemma StepTrails(g: Gov, t: real, e: Event)
    requires Agreed(g) && ClockAccepts(g.core, t) && Calm(g, e, t)
    ensures var h := Ahead(g, t);
      AnswerOf(g, e) == AnswerOf(h, e) && Trails(Next(g, e), Next(h, e), t)
  {
    hide Agreed, Linked, RefreshIdentity, AdmitRequest, UpdatePolicy, CommitBatch, Advance, ClockAccepts;
    Conservation.LinkedOf(g);
    match e
    case AdmitCall(id, now, current, retracted, waiting, health) => AdmitCallTrails(g, t, e);
    case PolicyCall(now, current, epoch, revision, reference, maxWaiting, maxRunning) => PolicyCallTrails(g, t, e);
    case RefreshCall(now, current) => RefreshTrails(g, t, now, current);
    case CommitCall(updates, now, quarantine) => CommitTrails(g, t, updates, now, quarantine);
    case ReadCall(_) => ReadTrails(g, t, e);
    case PrefillCall(_, _) => ReadTrails(g, t, e);
    case PreferCall(_, _, _, _) => ReadTrails(g, t, e);
    case _ => QuietTrails(g, t, e);
  }

  lemma QuietTrails(g: Gov, t: real, e: Event)
    requires ClockAccepts(g.core, t) && (e.Arrive? || e.ReleaseCall? || e.AttachCall?)
    ensures AnswerOf(g, e) == AnswerOf(Ahead(g, t), e) && Trails(Next(g, e), Next(Ahead(g, t), e), t)
  {
    hide Advance, ClockAccepts, ReleaseRequest, AttachProgress;
    match e
    case ReleaseCall(id) => ReleaseTrails(g, Ahead(g, t).core, id);
    case AttachCall(id) => AttachTrails(g, Ahead(g, t).core, id);
    case _ =>
  }

  lemma ReleaseTrails(g: Gov, core: Core, id: nat)
    ensures ReleaseRequest(g.(core := core), id).1 == ReleaseRequest(g, id).1
    ensures ReleaseRequest(g.(core := core), id).0 == ReleaseRequest(g, id).0.(core := core)
    ensures ReleaseRequest(g, id).0.core == g.core
  {
  }

  lemma AttachTrails(g: Gov, core: Core, id: nat)
    ensures AttachProgress(g.(core := core), id).1 == AttachProgress(g, id).1
    ensures AttachProgress(g.(core := core), id).0 == AttachProgress(g, id).0.(core := core)
    ensures AttachProgress(g, id).0.core == g.core
  {
  }

  lemma AdmitCallTrails(g: Gov, t: real, e: Event)
    requires Agreed(g) && ClockAccepts(g.core, t) && Calm(g, e, t) && e.AdmitCall?
    ensures AnswerOf(g, e) == AnswerOf(Ahead(g, t), e) && Trails(Next(g, e), Next(Ahead(g, t), e), t)
  {
    hide Agreed, RefreshIdentity, AdmitRequest, Advance, Linked;
    RefreshTrails(g, t, e.now, e.current);
    RefreshAgreed(g, e.now, e.current);
    Conservation.RefreshKeepsHealth(g, e.now, e.current);
    var (g1, r) := RefreshIdentity(g, e.now, e.current);
    var h1 := RefreshIdentity(Ahead(g, t), e.now, e.current).0;
    Conservation.LinkedOf(g1);
    if r.Ok? && h1 != g1 {
      AdmitTrails(g1, t, e.id, e.now, e.retracted, e.waiting, e.health);
    }
  }

  lemma PolicyCallTrails(g: Gov, t: real, e: Event)
    requires Agreed(g) && ClockAccepts(g.core, t) && e.PolicyCall?
    ensures AnswerOf(g, e) == AnswerOf(Ahead(g, t), e) && Trails(Next(g, e), Next(Ahead(g, t), e), t)
  {
    hide Agreed, RefreshIdentity, UpdatePolicy, Advance, Sound;
    RefreshTrails(g, t, e.now, e.current);
    RefreshAgreed(g, e.now, e.current);
    var (g1, r) := RefreshIdentity(g, e.now, e.current);
    var h1 := RefreshIdentity(Ahead(g, t), e.now, e.current).0;
    Conservation.LinkedOf(g1);
    Drives.SoundOfLinked(g1);
    if r.Ok? && !g1.paused && h1 != g1 {
      PolicyTrails(g1, t, e.epoch, e.revision, e.reference, e.maxWaiting, e.maxRunning);
    }
  }

  // ---------- Runs ----------

  function Answers(g: Gov, events: seq<Event>): seq<Answer>
    decreases |events|
  {
    if events == [] then [] else [AnswerOf(g, events[0])] + Answers(Next(g, events[0]), events[1..])
  }

  /** Each call is calm, until the two schedulers coincide. */
  ghost predicate CalmRun(g: Gov, h: Gov, events: seq<Event>, t: real)
    decreases |events|
  {
    g == h || events == [] ||
    (Calm(g, events[0], t) && CalmRun(Next(g, events[0]), Next(h, events[0]), events[1..], t))
  }

  lemma {:induction false} RunTrails(g: Gov, h: Gov, events: seq<Event>, t: real)
    requires Agreed(g) && Trails(g, h, t) && CalmRun(g, h, events, t)
    ensures Answers(g, events) == Answers(h, events) && Trails(Play(g, events), Play(h, events), t)
    decreases |events|
  {
    hide Agreed, Next, AnswerOf, Calm, Advance, ClockAccepts;
    if events != [] && g != h {
      StepTrails(g, t, events[0]);
      NextAgreed(g, events[0]);
      RunTrails(Next(g, events[0]), Next(h, events[0]), events[1..], t);
    }
  }

  /** A read of the core at `t` changes no later answer and no field of the scheduler, in any run that does not look
      before `t` and drops no exposure until the read is overtaken. */
  lemma ReadTransparency(g: Gov, events: seq<Event>, t: real)
    requires Agreed(g) && ReadCore(g, t).1.Ok? && CalmRun(g, Next(g, ReadCall(t)), events, t)
    ensures var h := Next(g, ReadCall(t));
      Answers(g, events) == Answers(h, events) &&
      Play(h, events) == Play(g, events).(core := Play(h, events).core)
  {
    hide Agreed, Answers, Play, CalmRun;
    RunTrails(g, Next(g, ReadCall(t)), events, t);
  }
}
