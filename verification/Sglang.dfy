/** The SGLang adapter in place: each native hook, proved to be the hook of the same name as a value. */
module Sglang {
  import opened Wrappers
  import opened Scheduler
  import opened Adapter
  import opened Hooks

  /** One request of a native batch result. */
  datatype BatchResult = BatchResult(req: NativeRequest, output: nat, finished: bool, aborted: bool,
                                     prefillOnly: bool, finishing: bool)

  ghost function ReportOf(b: BatchResult): Report {
    Report(b.req.id, b.output, b.finished, b.aborted, b.prefillOnly, b.finishing)
  }

  ghost function Reported(batch: seq<BatchResult>): (reports: seq<Report>)
    ensures |reports| == |batch| && forall i :: 0 <= i < |batch| ==> reports[i] == ReportOf(batch[i])
  {
    seq(|batch|, i requires 0 <= i < |batch| => ReportOf(batch[i]))
  }

  ghost function Ids(requests: seq<NativeRequest>): (ids: seq<nat>)
    ensures |ids| == |requests| && forall i :: 0 <= i < |requests| ==> ids[i] == requests[i].id
  {
    seq(|requests|, i requires 0 <= i < |requests| => requests[i].id)
  }

  /** A batch read so far, with the requests themselves. */
  datatype NativeReading = NativeReading(updates: seq<NativeUpdate>, ended: seq<NativeRequest>, tainted: bool)

  ghost function ReadingOf(x: NativeReading): Reading {
    Reading(Named(x.updates), Ids(x.ended), x.tainted)
  }

  class SglangGovernor {
    const scheduler: SchedulerGovernor

    constructor (scheduler: SchedulerGovernor)
      ensures this.scheduler == scheduler
    {
      this.scheduler := scheduler;
    }

    /** Refresh the runtime identity, then admit. */
    method AdmitRequest(req: NativeRequest, now: real, current: int, retracted: bool, waiting: Option<nat>,
                        health: bool)
      returns (r: Result<Decision>)
      requires scheduler.Valid() && req in scheduler.requests
      modifies scheduler, scheduler.core, req`reservation
      ensures scheduler.Valid() && scheduler.requests == old(scheduler.requests)
      ensures (scheduler.View(), r)
           == RefreshThenAdmit(old(scheduler.View()), req.id, now, current, retracted, waiting, health)
    {
      hide Scheduler.AdmitRequest, Scheduler.RefreshIdentity, SchedulerGovernor.Valid;
      var refreshed := scheduler.RefreshIdentity(now, current);
      if refreshed.Err? {
        return Err(refreshed.error);
      }
      r := scheduler.AdmitRequest(req, now, retracted, waiting, health);
    }

    /** Policy changes wait out a draining identity. */
    method UpdatePolicy(now: real, current: int, epoch: nat, revision: nat, reference: Option<real>,
                        maxWaiting: Option<int>, maxRunning: Option<int>) returns (r: Result<()>)
      requires scheduler.Valid()
      modifies scheduler, scheduler.core
      ensures scheduler.Valid() && scheduler.requests == old(scheduler.requests)
      ensures (scheduler.View(), r)
           == RefreshThenUpdate(old(scheduler.View()), now, current, epoch, revision, reference, maxWaiting, maxRunning)
    {
      hide Scheduler.UpdatePolicy, Scheduler.RefreshIdentity, SchedulerGovernor.Valid;
      var refreshed := scheduler.RefreshIdentity(now, current);
      if refreshed.Err? {
        return Err(refreshed.error);
      }
      if scheduler.paused {
        return Err(Conflict);
      }
      r := scheduler.UpdatePolicy(epoch, revision, reference, maxWaiting, maxRunning);
    }

    /** A native batch result: one commit, then the releases it ends, then the Prefill report. */
    method AfterResult(batch: seq<BatchResult>, now: real, current: int, extend: bool, launch: real)
      returns (r: Result<()>)
      requires scheduler.Valid() && forall b :: b in batch ==> b.req in scheduler.requests
      modifies scheduler, scheduler.core, scheduler.requests
      ensures scheduler.Valid() && scheduler.requests == old(scheduler.requests)
      ensures (scheduler.View(), r)
           == Hooks.AfterResult(old(scheduler.View()), Reported(batch), now, current, extend, launch)
    {
      hide SchedulerGovernor.Valid, SchedulerGovernor.View, Scheduler.RefreshIdentity, Hooks.Finish, ReadAll;
      var refreshed := scheduler.RefreshIdentity(now, current);
      if refreshed.Err? {
        return Err(refreshed.error);
      }
      var reading := Collect(batch);
      if reading.Err? {
        return Err(reading.error);
      }
      r := Finish(reading.value, now, extend, launch);
    }

    /** Read a batch: the updates to commit, the requests it ends, and whether it is contaminated. */
    method Collect(batch: seq<BatchResult>) returns (r: Result<NativeReading>)
      requires scheduler.Valid() && forall b :: b in batch ==> b.req in scheduler.requests
      modifies set req | req in scheduler.requests :: req`progress
      ensures scheduler.Valid() && scheduler.View() == ReadAll(old(scheduler.View()), Reported(batch)).0
      ensures match r
        case Err(e) => ReadAll(old(scheduler.View()), Reported(batch)).1 == Err(e)
        case Ok(x) => OfScheduler(x) && ReadAll(old(scheduler.View()), Reported(batch)).1 == Ok(ReadingOf(x))
    {
      hide SchedulerGovernor.Valid, ReadOne, ReadAll, ReadingOf;
      ghost var g, reports := scheduler.View(), Reported(batch);
      var x := NativeReading([], [], scheduler.healthOutstanding != 0 || scheduler.dirty);
      NothingRead(g, x);
      assert reports[..0] == [];
      for i := 0 to |batch|
        invariant scheduler.Valid() && OfScheduler(x)
        invariant ReadAll(g, reports[..i]) == (scheduler.View(), Ok(ReadingOf(x)))
      {
        ReadNext(g, reports, i);
        var read := CollectOne(x, batch[i]);
        if read.Err? {
          ReadStops(g, reports, i + 1);
          return Err(read.error);
        }
        x := read.value;
      }
      assert reports[..|batch|] == reports;
      return Ok(x);
    }

    ghost predicate OfScheduler(x: NativeReading)
      reads scheduler
    {
      (forall u :: u in x.updates ==> u.req in scheduler.requests) &&
      forall req :: req in x.ended ==> req in scheduler.requests
    }

    /** Read one result: what to commit for it, whether it ends, whether it is a health check. */
    method CollectOne(x: NativeReading, b: BatchResult) returns (r: Result<NativeReading>)
      requires scheduler.Valid() && b.req in scheduler.requests && OfScheduler(x)
      modifies b.req`progress
      ensures scheduler.Valid() && scheduler.View() == ReadOne(old(scheduler.View()), ReadingOf(x), ReportOf(b)).0
      ensures match r
        case Err(e) => ReadOne(old(scheduler.View()), ReadingOf(x), ReportOf(b)).1 == Err(e)
        case Ok(y) =>
          OfScheduler(y) && ReadOne(old(scheduler.View()), ReadingOf(x), ReportOf(b)).1 == Ok(ReadingOf(y))
    {
      hide SchedulerGovernor.Valid, SchedulerGovernor.View, AttachProgress, ReadingOf, OfScheduler;
      Shown(b.req);
      var reservation := b.req.reservation;
      if reservation.Some? && reservation.value.health {
        var ends := !reservation.value.released && (b.finished || b.aborted);
        r := Ok(x.(tainted := true, ended := if ends then x.ended + [b.req] else x.ended));
        EndedMore(x, r.value, b.req, ends);
        return;
      }
      if b.req.progress.None? && reservation.None? {
        if b.prefillOnly || b.finished || b.finishing {
          return Ok(x);
        }
        return Err(Internal);
      }
      var y := CollectGoverned(x, b);
      return Ok(y);
    }

    /** The result of a request that is reserved or under way. */
    method CollectGoverned(x: NativeReading, b: BatchResult) returns (y: NativeReading)
      requires scheduler.Valid() && b.req in scheduler.requests && OfScheduler(x)
      requires !IsCheck(b.req.View()) && (b.req.progress.Some? || b.req.reservation.Some?)
      modifies b.req`progress
      ensures scheduler.Valid() && OfScheduler(y)
      ensures (scheduler.View(), Ok(ReadingOf(y))) == ReadOne(old(scheduler.View()), ReadingOf(x), ReportOf(b))
    {
      hide SchedulerGovernor.Valid, SchedulerGovernor.View, AttachProgress, ReadingOf, OfScheduler, ReadOne;
      Shown(b.req);
      ReadGoverned(scheduler.View(), ReadingOf(x), ReportOf(b));
      var attached := scheduler.ProgressFor(b.req);
      Shown(b.req);
      var progress := b.req.progress.value;
      if progress.terminal {
        return x;
      }
      var ends := b.finished || b.aborted;
      var update := NativeUpdate(b.req, b.output, ends, progress.cls);
      y := x.(ended := if ends then x.ended + [b.req] else x.ended);
      EndedMore(x, y, b.req, ends);
      UpdatesMore(y, update);
      y := y.(updates := y.updates + [update]);
    }

    /** Commit, release, report the Prefill. */
    method Finish(x: NativeReading, now: real, extend: bool, launch: real) returns (r: Result<()>)
      requires scheduler.Valid() && OfScheduler(x)
      modifies scheduler, scheduler.core, scheduler.requests
      ensures scheduler.Valid() && scheduler.requests == old(scheduler.requests)
      ensures (scheduler.View(), r) == Hooks.Finish(old(scheduler.View()), ReadingOf(x), now, extend, launch)
    {
      hide SchedulerGovernor.Valid, SchedulerGovernor.View, Scheduler.CommitBatch, Scheduler.PrefillCompleted,
        Hooks.ReleaseAll;
      assert |Named(x.updates)| == |x.updates|;
      r := Ok(());
      if x.updates != [] || x.tainted {
        r := scheduler.CommitBatch(x.updates, now, x.tainted);
        if r.Err? {
          return;
        }
      }
      r := ReleaseAll(x.ended);
      if r.Err? {
        return;
      }
      if extend && !x.tainted {
        r := scheduler.PrefillCompleted(launch, now);
      }
    }

    method ReleaseAll(ended: seq<NativeRequest>) returns (r: Result<()>)
      requires scheduler.Valid() && forall req :: req in ended ==> req in scheduler.requests
      modifies scheduler, set req | req in ended :: req`reservation
      ensures scheduler.Valid() && scheduler.requests == old(scheduler.requests)
      ensures (scheduler.View(), r) == Hooks.ReleaseAll(old(scheduler.View()), Ids(ended))
    {
      hide SchedulerGovernor.Valid, SchedulerGovernor.View, Scheduler.ReleaseRequest, Hooks.ReleaseAll;
      ghost var g, ids := scheduler.View(), Ids(ended);
      NothingReleased(g);
      assert ids[..0] == [];
      for i := 0 to |ended|
        invariant scheduler.Valid() && scheduler.requests == old(scheduler.requests)
        invariant Hooks.ReleaseAll(g, ids[..i]) == (scheduler.View(), Ok(()))
      {
        ReleaseNext(g, ids, i);
        assert ended[i] in ended;
        var released := scheduler.ReleaseRequest(ended[i]);
        if released.Err? {
          ReleaseStops(g, ids, i + 1);
          return Err(released.error);
        }
      }
      assert ids[..|ended|] == ids;
      return Ok(());
    }

    /** An abort retires the request's progress at its accounted length, then its reservation. */
    method AbortEmitted(req: NativeRequest, now: real) returns (r: Result<()>)
      requires scheduler.Valid() && req in scheduler.requests
      modifies scheduler, scheduler.core, scheduler.requests
      ensures scheduler.Valid() && scheduler.requests == old(scheduler.requests)
      ensures req.id < |old(scheduler.View()).requests|
      ensures (scheduler.View(), r) == Hooks.AbortEmitted(old(scheduler.View()), req.id, now)
    {
      hide SchedulerGovernor.Valid, Scheduler.CommitBatch, Hooks.ReleaseAll;
      Shown(req);
      if req.progress.Some? {
        var update := NativeUpdate(req, req.progress.value.output, true, req.progress.value.cls);
        assert Named([update]) == [NameOf(update)];
        r := scheduler.CommitBatch([update], now, false);
        if r.Err? {
          return;
        }
      }
      assert Ids([req]) == [req.id];
      r := ReleaseOnly(req);
    }

    /** Release the reservation a request has, if it has one. */
    method ReleaseOnly(req: NativeRequest) returns (r: Result<()>)
      requires scheduler.Valid() && req in scheduler.requests
      modifies scheduler, req`reservation
      ensures scheduler.Valid() && scheduler.requests == old(scheduler.requests)
      ensures (scheduler.View(), r) == Hooks.ReleaseAll(old(scheduler.View()), [req.id])
    {
      hide SchedulerGovernor.Valid, Scheduler.ReleaseRequest;
      Shown(req);
      ghost var g := scheduler.View();
      assert [req.id][..0] == [];
      if req.reservation.None? {
        NoReservation(g, req.id);
        return Ok(());
      }
      var released := scheduler.ReleaseRequest(req);
      return if released.Err? then Err(released.error) else Ok(());
    }

    /** One more request to release, one more update: the reading grows by as much. */
    lemma EndedMore(x: NativeReading, y: NativeReading, req: NativeRequest, ends: bool)
      requires OfScheduler(x) && req in scheduler.requests
      requires y.updates == x.updates && y.ended == if ends then x.ended + [req] else x.ended
      ensures OfScheduler(y) && ReadingOf(x).tainted == x.tainted
      ensures ReadingOf(y)
           == Reading(ReadingOf(x).updates,
                      if ends then ReadingOf(x).ended + [req.id] else ReadingOf(x).ended, y.tainted)
    {
    }

    lemma UpdatesMore(x: NativeReading, u: NativeUpdate)
      requires OfScheduler(x) && u.req in scheduler.requests
      ensures OfScheduler(x.(updates := x.updates + [u]))
      ensures ReadingOf(x.(updates := x.updates + [u]))
           == ReadingOf(x).(updates := ReadingOf(x).updates + [NameOf(u)])
    {
    }

    lemma Shown(req: NativeRequest)
      requires scheduler.Valid() && req in scheduler.requests
      ensures req.id < |scheduler.View().requests| && scheduler.View().requests[req.id] == req.View()
    {
      scheduler.Apart(req);
    }
  }

  lemma NoReservation(g: Gov, id: nat)
    requires id < |g.requests| && g.requests[id].reservation.None?
    ensures Scheduler.ReleaseRequest(g, id) == (g, Ok(false))
  {
  }

  lemma ReadGoverned(g: Gov, x: Reading, rep: Report)
    requires rep.id < |g.requests| && !IsCheck(g.requests[rep.id])
    requires g.requests[rep.id].progress.Some? || g.requests[rep.id].reservation.Some?
    ensures var g1 := AttachProgress(g, rep.id).0;
      rep.id < |g1.requests| && g1.requests[rep.id].progress.Some? &&
      var p := g1.requests[rep.id].progress.value;
      ReadOne(g, x, rep)
        == (g1, Ok(if p.terminal then x
                   else x.(updates := x.updates + [Update(rep.id, rep.output, Ending(rep), p.cls)],
                           ended := if Ending(rep) then x.ended + [rep.id] else x.ended)))
  {
  }

  lemma NothingRead(g: Gov, x: NativeReading)
    requires x == NativeReading([], [], g.healthOutstanding != 0 || g.dirty)
    ensures ReadAll(g, []) == (g, Ok(ReadingOf(x)))
  {
  }

  lemma ReadNext(g: Gov, reports: seq<Report>, i: nat)
    requires i < |reports| && ReadAll(g, reports[..i]).1.Ok?
    ensures var (g1, x) := ReadAll(g, reports[..i]); ReadAll(g, reports[..i + 1]) == ReadOne(g1, x.value, reports[i])
  {
    assert reports[..i + 1][..i] == reports[..i];
  }

  lemma {:induction false} ReadStops(g: Gov, reports: seq<Report>, n: nat)
    requires n <= |reports| && ReadAll(g, reports[..n]).1.Err?
    ensures ReadAll(g, reports) == ReadAll(g, reports[..n])
  {
    if n == |reports| {
      assert reports[..n] == reports;
    } else {
      var m := |reports| - 1;
      assert reports[..m][..n] == reports[..n];
      ReadStops(g, reports[..m], n);
    }
  }

  lemma NothingReleased(g: Gov)
    ensures Hooks.ReleaseAll(g, []) == (g, Ok(()))
  {
  }

  lemma ReleaseNext(g: Gov, ids: seq<nat>, i: nat)
    requires i < |ids| && Hooks.ReleaseAll(g, ids[..i]).1.Ok?
    ensures var (g2, released) := Scheduler.ReleaseRequest(Hooks.ReleaseAll(g, ids[..i]).0, ids[i]);
      Hooks.ReleaseAll(g, ids[..i + 1]) == (g2, if released.Err? then Err(released.error) else Ok(()))
  {
    assert ids[..i + 1][..i] == ids[..i];
  }

  lemma {:induction false} ReleaseStops(g: Gov, ids: seq<nat>, n: nat)
    requires n <= |ids| && Hooks.ReleaseAll(g, ids[..n]).1.Err?
    ensures Hooks.ReleaseAll(g, ids) == Hooks.ReleaseAll(g, ids[..n])
  {
    if n == |ids| {
      assert ids[..n] == ids;
    } else {
      var m := |ids| - 1;
      assert ids[..m][..n] == ids[..n];
      ReleaseStops(g, ids[..m], n);
    }
  }
}
