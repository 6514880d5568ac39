/** The scheduler in place: one policy object over one native controller, mutating the
    requests it is handed. Each method is proved to be the step of the same name. */
module Adapter {
  import opened Wrappers
  import opened CoreSpec
  import opened CoreRuns
  import opened Scheduler
  import Controller
  import Joint
  import Ticks

  /** A native request; the scheduler attaches its reservation and progress. */
  class NativeRequest {
    const id: nat
    const input: nat
    const horizon: nat
    var reservation: Option<Reservation>
    var progress: Option<Progress>

    ghost function View(): Request
      reads this
    {
      Request(input, horizon, reservation, progress)
    }

    constructor (id: nat, input: nat, horizon: nat)
      ensures this.id == id && View() == Request(input, horizon, None, None)
    {
      this.id, this.input, this.horizon := id, input, horizon;
      reservation, progress := None, None;
    }
  }

  ghost function Views(requests: seq<NativeRequest>): (views: seq<Request>)
    reads requests
    ensures |views| == |requests| && forall i :: 0 <= i < |requests| ==> views[i] == requests[i].View()
  {
    seq(|requests|, i requires 0 <= i < |requests| reads requests => requests[i].View())
  }

  class SchedulerGovernor {
    const core: Controller.Governor
    const nativeMax: nat
    const exploring: bool
    var maxRunning: nat
    var maxWaiting: nat
    var outstanding: nat
    var admitted: Counts
    var active: nat
    var activeCounts: Counts
    var pending: map<Key, Pending>
    var surfaceTime: Option<real>
    var explorationActive: bool
    var lastExploration: Option<real>
    var paused: bool
    var healthOutstanding: nat
    var dirty: bool
    var identity: int
    var epoch: nat
    /** Every native request so far, in order of arrival. The scheduler keeps no such registry. */
    ghost var requests: seq<NativeRequest>

    ghost predicate Registered()
      reads this
    {
      forall i :: 0 <= i < |requests| ==> requests[i].id == i
    }

    /** The controller's memory and the requests are apart. */
    ghost predicate Separate()
      reads this, core, core.state
    {
      this !in core.state.Repr && core !in core.state.Repr &&
      forall i :: 0 <= i < |requests| ==> requests[i] !in core.state.Repr
    }

    ghost function View(): Gov
      reads this, core, core.state, requests
    {
      Gov(core.state.view, nativeMax, maxRunning, maxWaiting, outstanding, admitted, active, activeCounts, pending,
          surfaceTime, exploring, explorationActive, lastExploration, paused, healthOutstanding, dirty,
          Views(requests), identity, epoch)
    }

    /** Writing the scheduler's own fields and its requests leaves the controller's memory alone. */
    twostate lemma ShapedKept()
      requires old(Shaped()) && requests == old(requests)
      requires unchanged(core) && unchanged(core.state) && unchanged(old(core.state.Repr))
      ensures Shaped() && core.state.view == old(core.state.view)
    {
      hide Controller.Governor.Valid;
    }

    lemma Apart(req: NativeRequest)
      requires Shaped() && req in requests
      ensures this !in core.state.Repr && core !in core.state.Repr && req !in core.state.Repr
      ensures req.id < |requests| && requests[req.id] == req && Registered()
    {
    }

    /** The memory is in order; nothing is said of the counters. */
    ghost predicate Shaped()
      reads this, core, core.state, core.state.Repr
    {
      core.Valid() && Registered() && Separate()
    }

    ghost predicate Valid()
      reads this, core, core.state, core.state.Repr, requests
    {
      Shaped() && Joint.Agreed(View())
    }

    constructor (core: Controller.Governor, nativeMax: nat, maxRunning: nat, maxWaiting: nat, exploring: bool,
                 identity: int)
      requires core.Valid() && core !in core.state.Repr
      requires core.state.view.active == 0 && !core.state.view.quarantined
      requires core.state.view.maxRunning == nativeMax && ValidLimits(nativeMax, maxRunning, maxWaiting)
      ensures Valid() && this.core == core
      ensures Open(core.state.view, nativeMax, maxRunning, maxWaiting, exploring, identity) == Ok(View())
    {
      this.core, this.nativeMax, this.exploring := core, nativeMax, exploring;
      this.maxRunning, this.maxWaiting, this.identity := maxRunning, maxWaiting, identity;
      outstanding, admitted, active, activeCounts := 0, NO_COUNTS, 0, NO_COUNTS;
      pending, surfaceTime := map[], None;
      explorationActive, lastExploration, paused := false, None, false;
      healthOutstanding, dirty, epoch, requests := 0, false, 0, [];
      new;
      Joint.OpenAgreed(core.state.view, nativeMax, maxRunning, maxWaiting, exploring, identity);
      assert Views(requests) == [];
    }

    /** A native request arrives: nothing but the registry learns of it. */
    ghost method Arrive(req: NativeRequest)
      requires Valid() && req.id == |requests| && req !in core.state.Repr
      requires req.reservation.None? && req.progress.None?
      modifies this`requests
      ensures Valid() && requests == old(requests) + [req]
      ensures View() == Next(old(View()), Scheduler.Arrive(req.input, req.horizon))
    {
      ghost var before := View();
      requests := requests + [req];
      assert View() == Next(before, Scheduler.Arrive(req.input, req.horizon));
      Joint.NextAgreed(before, Scheduler.Arrive(req.input, req.horizon));
    }

    /** One call into the native controller. */
    method Call(op: Op) returns (out: Output)
      requires Shaped()
      modifies core
      ensures Shaped()
      ensures out == Step(old(core.state.view), op).1
      ensures View() == old(View()).(core := Step(old(core.state.view), op).0)
    {
      hide Step;
      out := core.Transaction(op);
      assert Views(requests) == old(Views(requests));
    }

    /** Only this request changed. */
    twostate lemma OneRequestChanged(req: NativeRequest)
      requires old(Registered()) && requests == old(requests) && req in requests && req.id < |requests|
      requires requests[req.id] == req
      requires forall i :: 0 <= i < |requests| && i != req.id ==> unchanged(requests[i])
      ensures Views(requests) == old(Views(requests))[req.id := req.View()]
    {
    }

    /** Release a request-attached reservation exactly once. */
    method ReleaseRequest(req: NativeRequest) returns (r: Result<bool>)
      requires Valid() && req in requests
      modifies this, req`reservation
      ensures Valid() && requests == old(requests)
      ensures (View(), r) == Scheduler.ReleaseRequest(old(View()), req.id)
    {
      hide Shaped, Joint.Agreed;
      Apart(req);
      Joint.ReleaseAgreed(View(), req.id);
      if req.reservation.None? {
        return Ok(false);
      }
      var reservation := req.reservation.value;
      if reservation.released {
        return Ok(false);
      }
      if outstanding <= 0 || admitted[reservation.cls] <= 0 {
        return Err(Internal);
      }
      if reservation.health && healthOutstanding <= 0 {
        return Err(Internal);
      }
      ReleaseHeld(req, reservation);
      return Ok(true);
    }

    method ReleaseHeld(req: NativeRequest, reservation: Reservation)
      requires Shaped() && req in requests && req.reservation == Some(reservation)
      requires outstanding > 0 && (reservation.health ==> healthOutstanding > 0)
      modifies this, req`reservation
      ensures Shaped() && requests == old(requests)
      ensures View() == old(View()).(
        outstanding := old(outstanding) - 1,
        admitted := old(admitted)[reservation.cls := old(admitted)[reservation.cls] - 1],
        healthOutstanding := if reservation.health then old(healthOutstanding) - 1 else old(healthOutstanding),
        explorationActive := old(explorationActive) && !reservation.exploration,
        requests := old(View()).requests[req.id := Request(req.input, req.horizon,
          Some(reservation.(released := true)), old(req.progress))])
    {
      hide Shaped;
      Apart(req);
      LowerCounters(reservation);
      MarkReleased(req, reservation);
    }

    method LowerCounters(reservation: Reservation)
      requires Shaped() && outstanding > 0 && (reservation.health ==> healthOutstanding > 0)
      modifies this`outstanding, this`admitted, this`healthOutstanding, this`explorationActive
      ensures Shaped()
      ensures View() == old(View()).(
        outstanding := old(outstanding) - 1,
        admitted := old(admitted)[reservation.cls := old(admitted)[reservation.cls] - 1],
        healthOutstanding := if reservation.health then old(healthOutstanding) - 1 else old(healthOutstanding),
        explorationActive := old(explorationActive) && !reservation.exploration)
    {
      hide Shaped, Views;
      Clear();
      ghost var views := Views(requests);
      outstanding := outstanding - 1;
      admitted := admitted[reservation.cls := admitted[reservation.cls] - 1];
      if reservation.health {
        healthOutstanding := healthOutstanding - 1;
      }
      if reservation.exploration {
        explorationActive := false;
      }
      ShapedKept();
      assert Views(requests) == views;
    }

    method MarkReleased(req: NativeRequest, reservation: Reservation)
      requires Shaped() && req in requests && req.reservation == Some(reservation)
      modifies req`reservation
      ensures Shaped()
      ensures View() == old(View()).(requests := old(View()).requests[req.id := Request(req.input, req.horizon,
        Some(reservation.(released := true)), old(req.progress))])
    {
      hide Shaped;
      Apart(req);
      req.reservation := Some(reservation.(released := true));
      ShapedKept();
      OneRequestChanged(req);
    }

    // ---------- Policy and identity ----------

    /** Change reference, waiting and running bounds in one compare-and-swap. */
    method UpdatePolicy(expectedEpoch: nat, expectedRevision: nat, newReference: Option<real>,
                        newWaiting: Option<int>, newRunning: Option<int>) returns (r: Result<()>)
      requires Valid()
      modifies this, core
      ensures Valid() && requests == old(requests)
      ensures (View(), r)
           == Scheduler.UpdatePolicy(old(View()), expectedEpoch, expectedRevision, newReference, newWaiting, newRunning)
    {
      hide Shaped, Joint.Agreed, UpdateReference;
      Joint.PolicyAgreed(View(), expectedEpoch, expectedRevision, newReference, newWaiting, newRunning);
      if newReference.None? && newWaiting.None? && newRunning.None? {
        return Err(Invalid);
      }
      var currentReference := core.state.reference;
      ReferenceShown();
      var waiting, running := GetOr(newWaiting, maxWaiting), GetOr(newRunning, maxRunning);
      var reference := GetOr(newReference, currentReference);
      if !ValidLimits(nativeMax, running, waiting) {
        return Err(Invalid);
      }
      if reference < 0.0 {
        return Err(Invalid);
      }
      if expectedEpoch != epoch {
        return Err(Conflict);
      }
      var out := Call(DoUpdateReference(expectedRevision, reference));
      if out.Refused? {
        return Err(out.error);
      }
      SetCaps(running, waiting);
      return Ok(());
    }

    lemma ReferenceShown()
      requires Shaped()
      ensures core.state.reference == core.state.view.reference
    {
    }

    method SetCaps(running: nat, waiting: nat)
      requires Shaped()
      modifies this`maxRunning, this`maxWaiting
      ensures Shaped() && View() == old(View()).(maxRunning := running, maxWaiting := waiting)
    {
      hide Shaped;
      Clear();
      maxRunning, maxWaiting := running, waiting;
      ShapedKept();
    }

    lemma Clear()
      requires Shaped()
      ensures this !in core.state.Repr && core !in core.state.Repr && Registered()
    {
    }

    /** Drain, then rotate the epoch; until then a changed identity pauses admission. */
    method RefreshIdentity(now: real, current: int) returns (r: Result<bool>)
      requires Valid()
      modifies this, core
      ensures Valid() && requests == old(requests)
      ensures (View(), r) == Scheduler.RefreshIdentity(old(View()), now, current)
    {
      hide Shaped, Joint.Agreed, StartSurfaceEpoch;
      Joint.RefreshAgreed(View(), now, current);
      if paused {
        if outstanding != 0 || active != 0 {
          return Ok(false);
        }
      } else if current == identity {
        return Ok(false);
      } else if outstanding != 0 || active != 0 {
        SetPaused();
        return Ok(false);
      }
      var out := Call(DoStartEpoch(now, active));
      if out.Refused? {
        return Err(out.error);
      }
      StartEpoch(now, current);
      return Ok(true);
    }

    method SetPaused()
      requires Shaped()
      modifies this`paused
      ensures Shaped() && View() == old(View()).(paused := true)
    {
      hide Shaped;
      Clear();
      paused := true;
      ShapedKept();
    }

    method StartEpoch(now: real, current: int)
      requires Shaped()
      modifies this
      ensures Shaped() && requests == old(requests)
      ensures View() == old(View()).(identity := current, paused := false, pending := map[], surfaceTime := Some(now),
                                     dirty := false, epoch := old(epoch) + 1)
    {
      hide Shaped;
      Clear();
      identity, paused, pending, surfaceTime := current, false, map[], Some(now);
      dirty, epoch := false, epoch + 1;
      ShapedKept();
    }

    /** `_progress_for`: the progress of a reserved request, created on its first result. */
    method ProgressFor(req: NativeRequest) returns (r: Result<()>)
      requires Valid() && req in requests
      modifies req`progress
      ensures Valid() && (View(), r) == Scheduler.AttachProgress(old(View()), req.id)
      ensures r.Ok? <==> old(req.progress).Some? || req.reservation.Some?
      ensures req.progress == if old(req.progress).None? && req.reservation.Some?
        then Some(Progress(0, false, false, req.reservation.value.cls, None, false)) else old(req.progress)
    {
      hide Shaped, Joint.Agreed;
      Apart(req);
      Joint.AttachAgreed(View(), req.id);
      if req.progress.None? {
        if req.reservation.None? {
          return Err(Internal);
        }
        req.progress := Some(Progress(0, false, false, req.reservation.value.cls, None, false));
        ShapedKept();
        OneRequestChanged(req);
      }
      return Ok(());
    }

    // ---------- Admission ----------

    /** The native forecast, and whether it raised. */
    method Forecast(now: real, want: Key) returns (r: Result<Forecast>)
      requires Shaped()
      modifies core
      ensures Shaped()
      ensures var a := Admit(old(core.state.view), now, want);
        match a
        case Ok((c, f)) => r == Ok(f) && View() == old(View()).(core := c)
        case Err(e) => r == Err(e) && View() == old(View())
    {
      hide Shaped, Admit;
      var out := Call(DoAdmit(now, want));
      match out {
        case Forecasted(f) => return Ok(f);
        case Refused(e) => return Err(e);
      }
    }

    /** Why an exploratory admission is not allowed, if it is not. */
    method ExplorationBlocker(now: real, want: Key, waiting: Option<nat>) returns (r: Result<Option<Blocker>>)
      requires Shaped() && core.state.view.lastTime == Some(now) && 0.0 <= now < Ticks.MAX_CLOCK
      modifies core
      ensures Shaped() && View() == old(View())
      ensures r == Scheduler.ExplorationBlocker(old(View()), old(core.state.view), now, want, waiting)
    {
      hide Shaped, Decide;
      if !exploring { return Ok(Some(Disabled)); }
      if explorationActive { return Ok(Some(ProbeActive)); }
      if outstanding + 1 > maxRunning { return Ok(Some(Capacity)); }
      if waiting.Some? && waiting.value != 0 { return Ok(Some(Waiting)); }
      if waiting.None? && outstanding != 0 { return Ok(Some(Outstanding)); }
      if lastExploration.Some? && now - lastExploration.value < EXPLORATION_INTERVAL_SECONDS {
        return Ok(Some(Cooldown));
      }
      if want.concurrency <= 1 {
        return Ok(if outstanding == 0 then None else Some(Outstanding));
      }
      if want.concurrency != outstanding + 1 { return Ok(Some(Projection)); }
      Joint.AdvanceAgain(core.state.view, now);
      var lower := Forecast(now, Key(want.concurrency - 1, want.pressure));
      if lower.Err? { return Err(lower.error); }
      return Ok(if !lower.value.allowed then Some(LowerRisk)
                else if !lower.value.observed then Some(LowerUnobserved)
                else if lower.value.tps < lower.value.reference * EXPLORATION_HEADROOM then Some(LowerHeadroom)
                else None);
    }

    method RecoveryBlocker(now: real, want: Key, waiting: Option<nat>, forecast: Forecast)
      returns (r: Result<Option<Blocker>>)
      requires Shaped() && core.state.view.lastTime == Some(now) && 0.0 <= now < Ticks.MAX_CLOCK
      modifies core
      ensures Shaped() && View() == old(View())
      ensures r == Scheduler.RecoveryBlocker(old(View()), old(core.state.view), now, want, waiting, forecast)
    {
      hide Shaped, Scheduler.ExplorationBlocker;
      if outstanding != 0 || active != 0 { return Ok(Some(Busy)); }
      if healthOutstanding != 0 || dirty { return Ok(Some(Contaminated)); }
      if !forecast.observed { return Ok(Some(Unobserved)); }
      if surfaceTime.None? || now - surfaceTime.value < EXPLORATION_INTERVAL_SECONDS {
        return Ok(Some(RecentEvidence));
      }
      r := ExplorationBlocker(now, want, waiting);
    }

    /** The policy's verdict on a forecast, then the waiting and running limits. */
    method Judge(now: real, want: Key, waiting: Option<nat>, health: bool, forecast: Forecast)
      returns (r: Result<Decision>)
      requires Shaped() && core.state.view.lastTime == Some(now) && 0.0 <= now < Ticks.MAX_CLOCK
      modifies core
      ensures Shaped() && View() == old(View())
      ensures var v := Verdict(old(View()), old(core.state.view), now, want, waiting, health, forecast);
        r == if v.Ok? then Ok(Capped(old(View()), health, v.value)) else Err(v.error)
    {
      hide Shaped, Scheduler.ExplorationBlocker, Scheduler.RecoveryBlocker;
      var after := outstanding + 1;
      var projected := WaitingAfter(waiting);
      var d := Decision(forecast.allowed, forecast.reason, forecast, projected, false);
      if paused {
        d := d.(allowed := false, reason := IdentityTransition);
      } else if health {
        d := d.(allowed := true, reason := HealthCheck);
      } else if forecast.reason == TpsRisk || forecast.reason == Unknown {
        var blocker: Result<Option<Blocker>>;
        if forecast.reason == TpsRisk {
          blocker := RecoveryBlocker(now, want, waiting, forecast);
        } else {
          blocker := ExplorationBlocker(now, want, waiting);
        }
        if blocker.Err? { return Err(blocker.error); }
        if blocker.value.None? {
          d := d.(allowed := true, reason := OnlineExploration, recovery := forecast.reason == TpsRisk);
        }
      }
      if d.allowed && projected > maxWaiting {
        d := d.(allowed := false, reason := WaitingLimit);
      }
      if d.allowed && health && after > maxRunning {
        d := d.(allowed := false, reason := WaitingLimit);
      }
      return Ok(d);
    }

    method WaitingAfter(waiting: Option<nat>) returns (projected: nat)
      requires Shaped()
      ensures projected == ProjectedWaiting(View(), waiting)
    {
      var logical := Bigger(0, outstanding + 1 - maxRunning);
      projected := if waiting.None? then logical else Bigger(logical, waiting.value + 1);
    }

    method Grant(req: NativeRequest, now: real, cls: Class, health: bool, d: Decision)
      requires Shaped() && req in requests
      modifies this, req`reservation
      ensures Shaped() && requests == old(requests) && req.id < |requests|
      ensures View() == Reserve(old(View()), req.id, now, cls, health, d)
    {
      hide Shaped;
      Apart(req);
      var exploration := d.reason == OnlineExploration;
      Attach(req, Reservation(cls, d, exploration, health, false, epoch));
      if exploration {
        MarkProbe(now);
      }
      if health {
        MarkHealth();
      }
    }

    method Attach(req: NativeRequest, reservation: Reservation)
      requires Shaped() && req in requests
      modifies this`outstanding, this`admitted, req`reservation
      ensures Shaped() && req.id < |requests|
      ensures var cls := reservation.cls;
        View() == old(View()).(
          requests := old(View()).requests[req.id := old(View()).requests[req.id].(reservation := Some(reservation))],
          outstanding := old(outstanding) + 1, admitted := old(admitted)[cls := old(admitted)[cls] + 1])
    {
      hide Shaped;
      Apart(req);
      req.reservation := Some(reservation);
      outstanding := outstanding + 1;
      admitted := admitted[reservation.cls := admitted[reservation.cls] + 1];
      ShapedKept();
      OneRequestChanged(req);
    }

    method MarkProbe(now: real)
      requires Shaped()
      modifies this`explorationActive, this`lastExploration
      ensures Shaped() && View() == old(View()).(explorationActive := true, lastExploration := Some(now))
    {
      hide Shaped;
      Clear();
      explorationActive := true;
      lastExploration := Some(now);
      ShapedKept();
    }

    method MarkHealth()
      requires Shaped()
      modifies this`healthOutstanding, this`dirty, this`pending
      ensures Shaped()
      ensures View() == old(View()).(healthOutstanding := old(healthOutstanding) + 1, dirty := true, pending := map[])
    {
      hide Shaped;
      Clear();
      healthOutstanding := healthOutstanding + 1;
      dirty := true;
      pending := map[];
      ShapedKept();
    }

    method ForecastFresh(now: real, want: Key, fits: bool) returns (r: Result<Forecast>)
      requires Shaped()
      modifies core
      ensures Shaped()
      ensures var (c, f) := FreshForecast(old(View()), now, want, fits);
        r == f && View() == old(View()).(core := c)
      ensures r.Ok? ==> core.state.view.lastTime == Some(now) && 0.0 <= now < Ticks.MAX_CLOCK
    {
      hide Shaped, Decide, Quarantine, Step;
      if fits {
        QuarantineStep(core.state.view, now, active, true);
        var quarantined := Call(DoQuarantine(now, active, true));
        if quarantined.Refused? {
          return Err(Invalid);
        }
      }
      r := Forecast(now, want);
      if r.Err? && fits {
        QuarantineStep(core.state.view, now, active, healthOutstanding != 0 || dirty);
        var restored := Call(DoQuarantine(now, active, healthOutstanding != 0 || dirty));
      }
    }

    /** The candidate's class, the cell it would run in, and whether a health check fits. */
    method Project(req: NativeRequest, waiting: Option<nat>, health: bool) returns (cls: Class, want: Key, fits: bool)
      requires Shaped() && req in requests
      ensures req.id < |requests| &&
        cls == PressureClass(View().requests[req.id].input + View().requests[req.id].horizon)
      ensures want == Joint.Wanted(View(), req.id) && fits == HealthFits(View(), health, waiting)
    {
      hide Shaped;
      Apart(req);
      cls := PressureClass(req.input + req.horizon);
      var heaviest := Heaviest(admitted);
      want := Key(Smaller(outstanding + 1, nativeMax), if heaviest > cls then heaviest else cls);
      var projected := WaitingAfter(waiting);
      fits := health && !paused && outstanding + 1 <= maxRunning && projected <= maxWaiting;
    }

    method AdmitFresh(req: NativeRequest, now: real, waiting: Option<nat>, health: bool) returns (r: Result<Decision>)
      requires Shaped() && req in requests
      modifies this, core, req`reservation
      ensures Shaped() && requests == old(requests) && req.id < |requests|
      ensures (View(), r) == Scheduler.AdmitFresh(old(View()), req.id, now, waiting, health)
    {
      hide Shaped, Verdict, Capped, FreshForecast, Reserve, Scheduler.AdmitFresh, Joint.Wanted, HealthFits;
      ghost var before := View();
      var cls, want, fits := Project(req, waiting, health);
      var forecast := ForecastFresh(now, want, fits);
      ghost var core := core.state.view;
      if forecast.Err? {
        AdmitFreshGiven(before, req.id, now, waiting, health, core, forecast, Err(Invalid));
        return Err(forecast.error);
      }
      Joint.VerdictIgnoresCore(before, View(), core, now, want, waiting, health, forecast.value);
      var decision := Judge(now, want, waiting, health, forecast.value);
      AdmitFreshGiven(before, req.id, now, waiting, health, core, forecast, decision);
      if decision.Err? {
        return Err(decision.error);
      }
      if decision.value.allowed {
        Grant(req, now, cls, health, decision.value);
      }
      return Ok(decision.value);
    }

    /** Forecast and reserve one native request atomically; a held reservation is returned as it is. */
    method AdmitRequest(req: NativeRequest, now: real, retracted: bool, waiting: Option<nat>, health: bool)
      returns (r: Result<Decision>)
      requires Valid() && req in requests
      modifies this, core, req`reservation
      ensures Valid() && requests == old(requests)
      ensures (View(), r) == Scheduler.AdmitRequest(old(View()), req.id, now, retracted, waiting, health)
    {
      hide Shaped, Joint.Agreed, Scheduler.AdmitFresh;
      Apart(req);
      Joint.AdmitAgreed(View(), req.id, now, retracted, waiting, health);
      if req.reservation.Some? {
        var reservation := req.reservation.value;
        if reservation.released || reservation.health != health {
          return Err(Internal);
        }
        return Ok(reservation.decision);
      }
      if retracted {
        return Err(Internal);
      }
      if health && (req.input != 1 || req.horizon != 1) {
        return Err(Invalid);
      }
      if waiting.Some? && waiting.value >= U32 - 1 {
        return Err(Invalid);
      }
      if req.input + req.horizon >= Ticks.U64 {
        return Err(Invalid);
      }
      r := AdmitFresh(req, now, waiting, health);
    }

    // ---------- Batch commit ----------

    /** What one result means for a request that is not yet terminal. */
    method Weigh(p: Progress, u: NativeUpdate, now: real) returns (r: Result<Effect>)
      ensures r == EffectOf(p, Update(u.req.id, u.output, u.terminal, u.cls), now)
    {
      if u.output < p.output {
        return Err(Invalid);
      }
      var delta, enters := 0, false;
      if p.decoding {
        delta := u.output - p.output;
        if p.lastTime.None? {
          return Err(Internal);
        }
        if now < p.lastTime.value {
          return Err(Invalid);
        }
      } else {
        delta := Bigger(0, u.output - 1);
        enters := u.output > 0 && !u.terminal;
        if u.terminal {
          delta := 0;
        }
      }
      var decoding := (p.decoding || enters) && !u.terminal;
      return Ok(Effect(enters, p.decoding && u.terminal, delta,
        Progress(u.output, decoding, u.terminal, p.cls, if decoding then Some(now) else None, p.entered || enters)));
    }

    /** Check one update against its request; a terminal request has no further effect. */
    method CheckUpdate(u: NativeUpdate, seenIds: set<nat>, now: real, ghost b: Batch)
      returns (r: Result<Option<Effect>>)
      requires Registered() && u.req in requests && Proposal(Views(requests), b) && b.seen == seenIds
      ensures var one := ProposeOne(Views(requests), b, NameOf(u), now);
        match r
        case Err(e) => one == Err(e)
        case Ok(None) => one == Ok(b.(seen := seenIds + {u.req.id}))
        case Ok(Some(e)) => u.cls < 4 && one == Ok(Extended(b, u, Views(requests), e))
    {
      hide EffectOf;
      assert Views(requests)[u.req.id] == u.req.View();
      if u.req.progress.None? || u.req.id in seenIds || u.cls >= 4 {
        return Err(Invalid);
      }
      var p := u.req.progress.value;
      if u.cls != p.cls {
        return Err(Invalid);
      }
      if p.terminal {
        return Ok(None);
      }
      var e := Weigh(p, u, now);
      if e.Err? {
        return Err(e.error);
      }
      return Ok(Some(e.value));
    }

    /** Check a batch and stage what it would do, touching nothing. */
    method ProposeBatch(updates: seq<NativeUpdate>, now: real)
      returns (r: Result<()>, entering: Counts, leaving: Counts, total: nat, enteringDelta: nat,
               proposed: seq<(NativeRequest, Progress)>, ghost seen: set<nat>)
      requires Registered() && forall u :: u in updates ==> u.req in requests
      ensures forall p :: p in proposed ==> p.0 in requests
      ensures var spec := Propose(Views(requests), Named(updates), now);
        if r.Ok?
        then spec == Ok(Batch(entering, leaving, total, enteringDelta, Applied(Views(requests), proposed), seen))
        else spec == Err(r.error)
    {
      hide ProposeOne, Propose, Count, Applied;
      entering, leaving, total, enteringDelta := NO_COUNTS, NO_COUNTS, 0, 0;
      proposed, seen := [], {};
      var seenIds: set<nat> := {};
      ghost var views, named := Views(requests), Named(updates);
      ProposeNothing(views, now);
      assert named[..0] == [];
      for i := 0 to |updates|
        invariant seen == seenIds && forall p :: p in proposed ==> p.0 in requests
        invariant Propose(views, named[..i], now)
          == Ok(Batch(entering, leaving, total, enteringDelta, Applied(views, proposed), seen))
      {
        var u := updates[i];
        ghost var b := Batch(entering, leaving, total, enteringDelta, Applied(views, proposed), seen);
        ProposeNext(views, named, i, now, b);
        ProposePrefix(views, named, i + 1, now);
        var e := CheckUpdate(u, seenIds, now, b);
        if e.Err? {
          r := Err(e.error);
          return;
        }
        seenIds, seen := seenIds + {u.req.id}, seen + {u.req.id};
        if e.value.Some? {
          var effect := e.value.value;
          entering := Count(entering, u.cls, effect.enters);
          leaving := Count(leaving, u.cls, effect.leaves);
          total := total + effect.delta;
          if effect.enters {
            enteringDelta := enteringDelta + effect.delta;
          }
          AppliedKeepsRest(views, proposed, u.req.id);
          proposed := proposed + [(u.req, effect.next)];
        }
      }
      assert named[..|updates|] == named;
      r := Ok(());
    }

    /** Write the staged progress to its requests. */
    method Publish(proposed: seq<(NativeRequest, Progress)>)
      requires Shaped() && forall p :: p in proposed ==> p.0 in requests
      modifies set p | p in proposed :: p.0`progress
      ensures Shaped() && View() == old(View()).(requests := Applied(old(Views(requests)), proposed))
    {
      hide Shaped;
      ghost var views := Views(requests);
      for i := 0 to |proposed|
        invariant Shaped() && View() == old(View()).(requests := Applied(views, proposed[..i]))
      {
        var (req, progress) := proposed[i];
        label Before:
        Apart(req);
        req.progress := Some(progress);
        ShapedKept@Before();
        OneRequestChanged@Before(req);
        assert proposed[..i + 1][..i] == proposed[..i];
      }
      assert proposed[..|proposed|] == proposed;
    }

    /** Charge a clean batch to the core: what it leaves pending, or why it is refused. */
    method SettleClean(ghost b: Batch, total: nat, enteringDelta: nat, leaving: Counts, now: real, after: nat,
                       counts: Counts)
      returns (r: Result<map<Key, Pending>>)
      requires Shaped() && enteringDelta <= total
      requires b.total == total && b.enteringDelta == enteringDelta && b.leaving == leaving
      modifies core
      ensures Shaped()
      ensures match Settle(old(View()), b, now, after, counts)
        case Ok(s) => r == Ok(s.pending) && View() == old(View()).(core := s.core)
        case Err(e) => r == Err(e) && View() == old(View())
    {
      hide Shaped, Step, Settle;
      var plan := PlanCharge(b, total, enteringDelta, leaving, now, after, counts);
      if plan.Err? {
        return Err(plan.error);
      }
      var out := Call(plan.value.0);
      return if out.Refused? then Err(out.error) else Ok(plan.value.1);
    }

    /** The one observation a clean batch makes, and what stays pending once it is accepted. */
    method PlanCharge(ghost b: Batch, total: nat, enteringDelta: nat, leaving: Counts, now: real, after: nat,
                      counts: Counts)
      returns (r: Result<(Op, map<Key, Pending>)>)
      requires enteringDelta <= total
      requires b.total == total && b.enteringDelta == enteringDelta && b.leaving == leaving
      ensures match r
        case Err(e) => Settle(View(), b, now, after, counts) == Err(e)
        case Ok((op, kept)) => SettledBy(core.state.view, op, kept, Settle(View(), b, now, after, counts))
    {
      hide Step, Settle, Unexpired;
      ghost var g := View();
      var elapsed := if surfaceTime.None? then 0.0 else now - surfaceTime.value;
      if elapsed < 0.0 {
        ClockRefuses(g, b, now, after, counts);
        return Err(Invalid);
      }
      var seconds := elapsed * active as real;
      var start := Key(active, Heaviest(activeCounts));
      var live := Unexpired(pending, now);
      var kept: map<Key, Pending> := map[];
      if active > 0 && Sum4(leaving) == active {
        var retired := 0;
        if seconds > 0.0 {
          retired := total - enteringDelta + PendingAt(live, start);
        }
        Joint.SettleReplacement(g, b, now, after, counts, seconds, retired);
        if enteringDelta >= Ticks.U64 {
          return Err(Invalid);
        }
        if enteringDelta > 0 {
          kept := map[Key(after, Heaviest(counts)) := Pending(enteringDelta, now)];
        }
        ReplacementStep(g.core, now, retired, seconds, start, after);
        return Ok((DoObserveReplacement(now, retired, seconds, start, after), if after == 0 then map[] else kept));
      }
      if active > 0 && seconds > 0.0 {
        var delta := total + PendingAt(live, start);
        Joint.SettleCharge(g, b, now, after, counts, seconds, delta);
        BatchStep(g.core, now, delta, seconds, start, after);
        return Ok((DoObserveBatch(now, delta, seconds, start, after), if after == 0 then map[] else live - {start}));
      }
      kept := if active == 0 then map[] else live;
      var cell := if active > 0 then start else Key(after, Heaviest(counts));
      Joint.SettleSilent(g, b, now, after, counts, kept, cell);
      if total > 0 && (active > 0 || after > 0) {
        var stored := PendingAt(kept, cell) + total;
        if stored >= Ticks.U64 {
          return Err(Invalid);
        }
        kept := kept[cell := Pending(stored, now)];
      }
      ObserveStep(g.core, now, after);
      return Ok((DoObserve(now, 0, after), if after == 0 then map[] else kept));
    }

    /** Publish the counts of an accepted commit. */
    method SetCounts(after: nat, counts: Counts, kept: map<Key, Pending>, now: real, contaminated: bool)
      requires Shaped()
      modifies this`active, this`activeCounts, this`pending, this`surfaceTime, this`dirty
      ensures Shaped()
      ensures View() == old(View()).(active := after, activeCounts := counts, pending := kept, surfaceTime := Some(now),
                                     dirty := contaminated)
    {
      hide Shaped;
      Clear();
      active, activeCounts, pending, surfaceTime, dirty := after, counts, kept, Some(now), contaminated;
      ShapedKept();
    }

    /** Commit one native forward batch, all of it or nothing. */
    method CommitBatch(updates: seq<NativeUpdate>, now: real, quarantine: bool) returns (r: Result<()>)
      requires Valid() && forall u :: u in updates ==> u.req in requests
      modifies this, core, set req | req in requests :: req`progress
      ensures Valid() && requests == old(requests)
      ensures (View(), r) == Scheduler.CommitBatch(old(View()), Named(updates), now, quarantine)
    {
      hide Shaped, Joint.Agreed, Propose, Settle, Quarantine;
      ghost var before := View();
      Clear();
      Joint.CommitAgreed(before, Named(updates), now, quarantine);
      var proposed, entering, leaving, total, enteringDelta, staged;
      ghost var seen;
      proposed, entering, leaving, total, enteringDelta, staged, seen := ProposeBatch(updates, now);
      if proposed.Err? {
        return Err(proposed.error);
      }
      ghost var b := Batch(entering, leaving, total, enteringDelta, Applied(before.requests, staged), seen);
      assert Proposal(before.requests, b);
      r := CommitStaged(b, entering, leaving, total, enteringDelta, staged, now, quarantine);
    }

    method PublishCommit(staged: seq<(NativeRequest, Progress)>, after: nat, counts: Counts, kept: map<Key, Pending>,
                         now: real, contaminated: bool)
      requires Shaped() && forall p :: p in staged ==> p.0 in requests
      modifies this, set req | req in requests :: req`progress
      ensures Shaped() && requests == old(requests)
      ensures View() == old(View()).(requests := Applied(old(Views(requests)), staged), active := after,
                                     activeCounts := counts, pending := kept, surfaceTime := Some(now),
                                     dirty := contaminated)
    {
      hide Shaped;
      Publish(staged);
      SetCounts(after, counts, kept, now, contaminated);
    }

    /** The second half of a commit: counts, core, then publication. */
    method CommitStaged(ghost b: Batch, entering: Counts, leaving: Counts, total: nat, enteringDelta: nat,
                        staged: seq<(NativeRequest, Progress)>, now: real, quarantine: bool)
      returns (r: Result<()>)
      requires Shaped() && forall p :: p in staged ==> p.0 in requests
      requires b.entering == entering && b.leaving == leaving && b.total == total && b.enteringDelta == enteringDelta
      requires enteringDelta <= total && b.next == Applied(Views(requests), staged)
      modifies this, core, set req | req in requests :: req`progress
      ensures Shaped() && requests == old(requests)
      ensures (View(), r) == CommitProposed(old(View()), b, now, quarantine)
    {
      hide Shaped, Settle, Quarantine, Step;
      ghost var before := View();
      var afterSum := active + Sum4(entering) - Sum4(leaving);
      var counts: Counts := [activeCounts[0] + entering[0] - leaving[0], activeCounts[1] + entering[1] - leaving[1],
                             activeCounts[2] + entering[2] - leaving[2], activeCounts[3] + entering[3] - leaving[3]];
      assert counts == CountsAfter(before.activeCounts, b);
      if afterSum < 0 || counts[0] < 0 || counts[1] < 0 || counts[2] < 0 || counts[3] < 0 {
        return Err(Internal);
      }
      if quarantine || healthOutstanding != 0 || dirty {
        r := CommitContaminated(staged, afterSum, counts, now);
      } else {
        r := CommitClean(b, total, enteringDelta, leaving, staged, afterSum, counts, now);
      }
    }

    /** A commit that a health check has touched: the core drops the interval. */
    method CommitContaminated(staged: seq<(NativeRequest, Progress)>, after: nat, counts: Counts, now: real)
      returns (r: Result<()>)
      requires Shaped() && forall p :: p in staged ==> p.0 in requests
      modifies this, core, set req | req in requests :: req`progress
      ensures Shaped() && requests == old(requests)
      ensures match Quarantine(old(core.state.view), now, after, old(healthOutstanding) > 0)
        case Err(e) => r == Err(e) && View() == old(View())
        case Ok(c) => r == Ok(()) && View() == old(View()).(
          core := c, requests := Applied(old(Views(requests)), staged), active := after, activeCounts := counts,
          pending := map[], surfaceTime := Some(now), dirty := old(healthOutstanding) > 0)
    {
      hide Shaped, Quarantine, Step;
      QuarantineStep(core.state.view, now, after, healthOutstanding > 0);
      var out := Call(DoQuarantine(now, after, healthOutstanding > 0));
      if out.Refused? {
        return Err(out.error);
      }
      PublishCommit(staged, after, counts, map[], now, healthOutstanding > 0);
      return Ok(());
    }

    method CommitClean(ghost b: Batch, total: nat, enteringDelta: nat, leaving: Counts,
                       staged: seq<(NativeRequest, Progress)>, after: nat, counts: Counts, now: real)
      returns (r: Result<()>)
      requires Shaped() && forall p :: p in staged ==> p.0 in requests
      requires b.leaving == leaving && b.total == total && b.enteringDelta == enteringDelta && enteringDelta <= total
      modifies this, core, set req | req in requests :: req`progress
      ensures Shaped() && requests == old(requests)
      ensures match Settle(old(View()), b, now, after, counts)
        case Err(e) => r == Err(e) && View() == old(View())
        case Ok(s) => r == Ok(()) && View() == old(View()).(
          core := s.core, requests := Applied(old(Views(requests)), staged), active := after, activeCounts := counts,
          pending := s.pending, surfaceTime := Some(now))
    {
      hide Shaped, Settle;
      var settled := SettleClean(b, total, enteringDelta, leaving, now, after, counts);
      if settled.Err? {
        return Err(settled.error);
      }
      PublishCommit(staged, after, counts, settled.value, now, dirty);
      return Ok(());
    }

    // ---------- Core reads ----------

    method ReadCore(now: real) returns (r: Result<()>)
      requires Valid()
      modifies core
      ensures Valid() && (View(), r) == Scheduler.ReadCore(old(View()), now)
    {
      hide Shaped, Joint.Agreed, Advance, ViewAt;
      Joint.NextAgreed(View(), ReadCall(now));
      var out := Call(DoSnapshot(now));
      return if out.Refused? then Err(out.error) else Ok(());
    }

    method PrefillCompleted(launch: real, completion: real) returns (r: Result<()>)
      requires Valid()
      modifies core
      ensures Valid() && (View(), r) == Scheduler.PrefillCompleted(old(View()), completion, completion - launch)
    {
      hide Shaped, Joint.Agreed, Prefill;
      Joint.NextAgreed(View(), PrefillCall(completion, completion - launch));
      var out := Call(DoPrefill(completion, completion - launch));
      return if out.Refused? then Err(out.error) else Ok(());
    }

    method PreferDecode(now: real, runnable: bool, prefillPending: bool, age: real) returns (r: Result<bool>)
      requires Valid()
      modifies core
      ensures Valid() && (View(), r) == Scheduler.PreferDecode(old(View()), now, runnable, prefillPending, age)
    {
      hide Shaped, Joint.Agreed, Choose;
      Joint.NextAgreed(View(), PreferCall(now, runnable, prefillPending, age));
      var out := Call(DoChoose(now, runnable, prefillPending, age));
      match out {
        case Chosen(d) => return Ok(d);
        case Refused(e) => return Err(e);
      }
    }
  }

  /** One result of a native batch. */
  datatype NativeUpdate = NativeUpdate(req: NativeRequest, output: nat, terminal: bool, cls: nat)

  ghost function NameOf(u: NativeUpdate): Update {
    Update(u.req.id, u.output, u.terminal, u.cls)
  }

  ghost function Named(updates: seq<NativeUpdate>): (named: seq<Update>)
    ensures |named| == |updates| && forall i :: 0 <= i < |updates| ==> named[i] == NameOf(updates[i])
  {
    seq(|updates|, i requires 0 <= i < |updates| => NameOf(updates[i]))
  }

  /** The settlement is what this call into the core gives. */
  ghost predicate SettledBy(c: Core, op: Op, kept: map<Key, Pending>, s: Result<Settlement>) {
    var (c', out) := Step(c, op);
    if out.Refused? then s == Err(out.error) && c' == c
    else s.Ok? && s.value.core == c' && s.value.pending == kept
  }

  lemma ClockRefuses(g: Gov, b: Batch, now: real, after: nat, counts: Counts)
    requires b.enteringDelta <= b.total && ElapsedSince(g, now) < 0.0
    ensures Settle(g, b, now, after, counts) == Err(Invalid)
  {
  }

  lemma ReplacementStep(c: Core, now: real, delta: nat, seconds: real, key: Key, after: nat)
    ensures Step(c, DoObserveReplacement(now, delta, seconds, key, after))
         == Publish(c, ObserveReplacement(c, now, delta, seconds, key, after))
  {
  }

  lemma BatchStep(c: Core, now: real, delta: nat, seconds: real, key: Key, after: nat)
    ensures Step(c, DoObserveBatch(now, delta, seconds, key, after))
         == Publish(c, ObserveBatch(c, now, delta, seconds, key, after))
  {
  }

  lemma QuarantineStep(c: Core, now: real, after: nat, enabled: bool)
    ensures Step(c, DoQuarantine(now, after, enabled)) == Publish(c, Quarantine(c, now, after, enabled))
  {
  }

  lemma ObserveStep(c: Core, now: real, after: nat)
    ensures Step(c, DoObserve(now, 0, after)) == Publish(c, Observe(c, now, 0, after))
  {
  }

  /** A batch with one more result in it. */
  ghost function Extended(b: Batch, u: NativeUpdate, views: seq<Request>, e: Effect): Batch
    requires u.req.id < |views| == |b.next| && u.cls < 4
  {
    Batch(Count(b.entering, u.cls, e.enters), Count(b.leaving, u.cls, e.leaves), b.total + e.delta,
          b.enteringDelta + (if e.enters then e.delta else 0),
          b.next[u.req.id := views[u.req.id].(progress := Some(e.next))], b.seen + {u.req.id})
  }

  lemma ProposeNothing(rs: seq<Request>, now: real)
    ensures Propose(rs, [], now) == Ok(Batch(NO_COUNTS, NO_COUNTS, 0, 0, Applied(rs, []), {}))
  {
  }

  lemma ProposeNext(rs: seq<Request>, updates: seq<Update>, i: nat, now: real, b: Batch)
    requires i < |updates| && Propose(rs, updates[..i], now) == Ok(b)
    ensures Propose(rs, updates[..i + 1], now) == ProposeOne(rs, b, updates[i], now)
  {
    assert updates[..i + 1][..i] == updates[..i];
  }

  /** The requests once the staged progress is written, in order. */
  ghost function Applied(views: seq<Request>, proposed: seq<(NativeRequest, Progress)>): (after: seq<Request>)
    ensures |after| == |views|
  {
    if proposed == [] then views
    else
      var n := |proposed| - 1;
      var before := Applied(views, proposed[..n]);
      var (req, progress) := proposed[n];
      if req.id < |views| then before[req.id := before[req.id].(progress := Some(progress))] else before
  }

  /** Staging progress leaves everything else of a request alone. */
  lemma {:induction false} AppliedKeepsRest(views: seq<Request>, proposed: seq<(NativeRequest, Progress)>, id: nat)
    requires id < |views|
    ensures forall progress: Progress ::
      Applied(views, proposed)[id].(progress := Some(progress)) == views[id].(progress := Some(progress))
    ensures forall req: NativeRequest, progress: Progress {:trigger proposed + [(req, progress)]} ::
      req.id == id ==>
        (Applied(views, proposed + [(req, progress)])
         == Applied(views, proposed)[id := views[id].(progress := Some(progress))])
  {
    if proposed != [] {
      AppliedKeepsRest(views, proposed[..|proposed| - 1], id);
    }
    forall req: NativeRequest, progress: Progress | req.id == id
      ensures Applied(views, proposed + [(req, progress)])
        == Applied(views, proposed)[id := views[id].(progress := Some(progress))]
    {
      assert (proposed + [(req, progress)])[..|proposed|] == proposed;
    }
  }

  /** A batch refused at some update is refused whole, for the same reason. */
  lemma {:induction false} ProposePrefix(rs: seq<Request>, updates: seq<Update>, n: nat, now: real)
    requires n <= |updates|
    ensures Propose(rs, updates[..n], now).Err? ==> Propose(rs, updates, now) == Propose(rs, updates[..n], now)
  {
    if n < |updates| {
      var m := |updates| - 1;
      ProposePrefix(rs, updates[..m], n, now);
      assert updates[..m][..n] == updates[..n];
    } else {
      assert updates[..n] == updates;
    }
  }

  /** A fresh admission, once its forecast is known. */
  lemma AdmitFreshGiven(g: Gov, id: nat, now: real, waiting: Option<nat>, health: bool,
                        core: Core, forecast: Result<Forecast>, judged: Result<Decision>)
    requires id < |g.requests|
    requires (core, forecast) == FreshForecast(g, now, Joint.Wanted(g, id), HealthFits(g, health, waiting))
    requires forecast.Ok? ==>
      var v := Verdict(g, core, now, Joint.Wanted(g, id), waiting, health, forecast.value);
      judged == if v.Ok? then Ok(Capped(g, health, v.value)) else Err(v.error)
    ensures var cls := PressureClass(g.requests[id].input + g.requests[id].horizon);
      Scheduler.AdmitFresh(g, id, now, waiting, health) ==
        if forecast.Err? then (g.(core := core), Err(forecast.error))
        else if judged.Err? then (g.(core := core), Err(judged.error))
        else if judged.value.allowed then
          (Reserve(g.(core := core), id, now, cls, health, judged.value), Ok(judged.value))
        else (g.(core := core), Ok(judged.value))
  {
    hide FreshForecast, Verdict, Capped, Reserve, HealthFits;
  }
}
