/** The native hooks as values: what a batch result or an abort asks of the scheduler, step by
    step, and what the steps amount to. */
module Hooks {
  import opened Wrappers
  import opened CoreSpec
  import opened CoreRuns
  import opened Scheduler
  import opened Ledgers
  import opened Joint
  import opened Lifecycles

  /** What a native batch reports of one request. */
  datatype Report = Report(id: nat, output: nat, finished: bool, aborted: bool, prefillOnly: bool, finishing: bool)

  /** A batch read so far: what to commit, whom to release, whether a health check took part. */
  datatype Reading = Reading(updates: seq<Update>, ended: seq<nat>, tainted: bool)

  predicate Ending(rep: Report) {
    rep.finished || rep.aborted
  }

  // ---------- The hooks ----------

  function RefreshThenAdmit(g: Gov, id: nat, now: real, current: int, retracted: bool, waiting: Option<nat>,
                            health: bool): (Gov, Result<Decision>)
  {
    var (g1, refreshed) := RefreshIdentity(g, now, current);
    if refreshed.Err? then (g1, Err(refreshed.error)) else AdmitRequest(g1, id, now, retracted, waiting, health)
  }

  /** A draining identity refuses policy changes. */
  function RefreshThenUpdate(g: Gov, now: real, current: int, epoch: nat, revision: nat, reference: Option<real>,
                             maxWaiting: Option<int>, maxRunning: Option<int>): (Gov, Result<()>)
  {
    var (g1, refreshed) := RefreshIdentity(g, now, current);
    if refreshed.Err? then (g1, Err(refreshed.error))
    else if g1.paused then (g1, Err(Conflict))
    else UpdatePolicy(g1, epoch, revision, reference, maxWaiting, maxRunning)
  }

  /** Both are one call each of the scheduler's runs. */
  lemma RefreshThenCalls(g: Gov, now: real, current: int)
    ensures forall id, retracted, waiting, health ::
      RefreshThenAdmit(g, id, now, current, retracted, waiting, health).0
        == Next(g, AdmitCall(id, now, current, retracted, waiting, health))
    ensures forall epoch, revision, reference, maxWaiting, maxRunning ::
      RefreshThenUpdate(g, now, current, epoch, revision, reference, maxWaiting, maxRunning).0
        == Next(g, PolicyCall(now, current, epoch, revision, reference, maxWaiting, maxRunning))
  {
    hide RefreshIdentity, AdmitRequest, UpdatePolicy;
  }

  /** While an identity drains, policy changes conflict and nothing fresh is allowed. */
  lemma DrainingRefuses(g: Gov, now: real, current: int, id: nat, retracted: bool, waiting: Option<nat>, health: bool,
                        epoch: nat, revision: nat, reference: Option<real>, maxWaiting: Option<int>,
                        maxRunning: Option<int>)
    requires Agreed(g) && (g.paused || current != g.identity) && (g.outstanding != 0 || g.active != 0)
    ensures RefreshThenUpdate(g, now, current, epoch, revision, reference, maxWaiting, maxRunning)
         == (g.(paused := true), Err(Conflict))
    ensures var (g', r) := RefreshThenAdmit(g, id, now, current, retracted, waiting, health);
      g'.paused && (id < |g.requests| && g.requests[id].reservation.None? ==> r.Ok? ==> !r.value.allowed)
  {
    hide AdmitFresh, Linked, LedgerExact, Tally;
    var g1 := g.(paused := true);
    if id < |g.requests| && g.requests[id].reservation.None? {
      PausedAllowsNothing(g1, id, now, waiting, health);
    }
    AdmitKeepsPause(g1, id, now, retracted, waiting, health);
  }

  lemma PausedAllowsNothing(g: Gov, id: nat, now: real, waiting: Option<nat>, health: bool)
    requires g.paused && id < |g.requests|
    ensures var r := AdmitFresh(g, id, now, waiting, health).1; r.Ok? ==> !r.value.allowed
  {
    hide FreshForecast, Reserve;
  }

  predicate IsCheck(r: Request) {
    r.reservation.Some? && r.reservation.value.health
  }

  /** Read one result on top of what was read before. */
  function ReadOne(g: Gov, x: Reading, rep: Report): (Gov, Result<Reading>) {
    if rep.id >= |g.requests| then (g, Err(Internal))
    else
      var req := g.requests[rep.id];
      if IsCheck(req) then
        var ends := !req.reservation.value.released && Ending(rep);
        (g, Ok(x.(tainted := true, ended := if ends then x.ended + [rep.id] else x.ended)))
      else if req.progress.None? && req.reservation.None? then
        (g, if rep.prefillOnly || rep.finished || rep.finishing then Ok(x) else Err(Internal))
      else
        var g1 := AttachProgress(g, rep.id).0;
        var p := g1.requests[rep.id].progress.value;
        if p.terminal then (g1, Ok(x))
        else
          (g1, Ok(x.(updates := x.updates + [Update(rep.id, rep.output, Ending(rep), p.cls)],
                     ended := if Ending(rep) then x.ended + [rep.id] else x.ended)))
  }

  /** Read the results in order; the first that cannot be read stops the hook. */
  function ReadAll(g: Gov, reports: seq<Report>): (r: (Gov, Result<Reading>))
    ensures |r.0.requests| == |g.requests|
  {
    if reports == [] then (g, Ok(Reading([], [], g.healthOutstanding != 0 || g.dirty)))
    else
      var n := |reports| - 1;
      var (g1, x) := ReadAll(g, reports[..n]);
      if x.Err? then (g1, x) else ReadOne(g1, x.value, reports[n])
  }

  function ReleaseAll(g: Gov, ids: seq<nat>): (Gov, Result<()>) {
    if ids == [] then (g, Ok(()))
    else
      var n := |ids| - 1;
      var (g1, r) := ReleaseAll(g, ids[..n]);
      if r.Err? then (g1, r)
      else
        var (g2, released) := ReleaseRequest(g1, ids[n]);
        (g2, if released.Err? then Err(released.error) else Ok(()))
  }

  /** A batch is committed only when there is something to say. */
  function CommitReading(g: Gov, x: Reading, now: real): (Gov, Result<()>) {
    if x.updates != [] || x.tainted then CommitBatch(g, x.updates, now, x.tainted) else (g, Ok(()))
  }

  /** One commit, then the releases, then the Prefill report of a clean extend batch. */
  function Finish(g: Gov, x: Reading, now: real, extend: bool, launch: real): (Gov, Result<()>) {
    var (g1, committed) := CommitReading(g, x, now);
    if committed.Err? then (g1, committed)
    else
      var (g2, released) := ReleaseAll(g1, x.ended);
      if released.Err? then (g2, released)
      else if extend && !x.tainted then PrefillCompleted(g2, now, now - launch)
      else (g2, released)
  }

  /** `after_result`: a native batch result. */
  function AfterResult(g: Gov, reports: seq<Report>, now: real, current: int, extend: bool, launch: real)
    : (Gov, Result<()>)
  {
    var (g1, refreshed) := RefreshIdentity(g, now, current);
    if refreshed.Err? then (g1, Err(refreshed.error))
    else
      var (g2, x) := ReadAll(g1, reports);
      if x.Err? then (g2, Err(x.error)) else Finish(g2, x.value, now, extend, launch)
  }

  /** The abort's commit, at the length already accounted for. */
  function RetireProgress(g: Gov, id: nat, now: real): (Gov, Result<()>)
    requires id < |g.requests|
  {
    match g.requests[id].progress
    case None => (g, Ok(()))
    case Some(p) => CommitBatch(g, [Update(id, p.output, true, p.cls)], now, false)
  }

  /** `on_abort_emitted`: retire the progress, then release the reservation. */
  function AbortEmitted(g: Gov, id: nat, now: real): (Gov, Result<()>)
    requires id < |g.requests|
  {
    var (g1, retired) := RetireProgress(g, id, now);
    if retired.Err? then (g1, retired) else ReleaseAll(g1, [id])
  }

  // ---------- The calls they make ----------

  function AttachesOf(g: Gov, rep: Report): seq<Event> {
    if rep.id < |g.requests| && !IsCheck(g.requests[rep.id]) &&
       (g.requests[rep.id].progress.Some? || g.requests[rep.id].reservation.Some?)
    then [AttachCall(rep.id)] else []
  }

  function ReadCalls(g: Gov, reports: seq<Report>): seq<Event> {
    if reports == [] then []
    else
      var n := |reports| - 1;
      var (g1, x) := ReadAll(g, reports[..n]);
      ReadCalls(g, reports[..n]) + (if x.Err? then [] else AttachesOf(g1, reports[n]))
  }

  function ReleaseCalls(g: Gov, ids: seq<nat>): seq<Event> {
    if ids == [] then []
    else
      var n := |ids| - 1;
      ReleaseCalls(g, ids[..n]) + (if ReleaseAll(g, ids[..n]).1.Err? then [] else [ReleaseCall(ids[n])])
  }

  function CommitCalls(x: Reading, now: real): seq<Event> {
    if x.updates != [] || x.tainted then [CommitCall(x.updates, now, x.tainted)] else []
  }

  function FinishCalls(g: Gov, x: Reading, now: real, extend: bool, launch: real): seq<Event> {
    var (g1, committed) := CommitReading(g, x, now);
    CommitCalls(x, now) +
    (if committed.Err? then []
     else
       ReleaseCalls(g1, x.ended) +
       (if extend && !x.tainted && ReleaseAll(g1, x.ended).1.Ok? then [PrefillCall(now, now - launch)] else []))
  }

  function AfterResultCalls(g: Gov, reports: seq<Report>, now: real, current: int, extend: bool, launch: real)
    : seq<Event>
  {
    var (g1, refreshed) := RefreshIdentity(g, now, current);
    [RefreshCall(now, current)] +
    (if refreshed.Err? then []
     else
       var (g2, x) := ReadAll(g1, reports);
       ReadCalls(g1, reports) + (if x.Err? then [] else FinishCalls(g2, x.value, now, extend, launch)))
  }

  function RetireCalls(g: Gov, id: nat, now: real): seq<Event>
    requires id < |g.requests|
  {
    match g.requests[id].progress
    case None => []
    case Some(p) => [CommitCall([Update(id, p.output, true, p.cls)], now, false)]
  }

  function AbortCalls(g: Gov, id: nat, now: real): seq<Event>
    requires id < |g.requests|
  {
    RetireCalls(g, id, now) + (if RetireProgress(g, id, now).1.Err? then [] else [ReleaseCall(id)])
  }

  lemma {:induction false} PlayJoins(g: Gov, first: seq<Event>, second: seq<Event>)
    ensures Play(g, first + second) == Play(Play(g, first), second)
    ensures NativeRun(g, first + second) <==> NativeRun(g, first) && NativeRun(Play(g, first), second)
    decreases |first|
  {
    hide Next, Native;
    if first == [] {
      assert first + second == second;
    } else {
      assert (first + second)[1..] == first[1..] + second;
      PlayJoins(Next(g, first[0]), first[1..], second);
    }
  }

  lemma PlayOne(g: Gov, e: Event)
    ensures Play(g, [e]) == Next(g, e) && (NativeRun(g, [e]) <==> Native(g, e))
  {
    hide Next, Native;
    assert [e][1..] == [];
  }

  lemma AttachIsCall(g: Gov, x: Reading, rep: Report)
    ensures ReadOne(g, x, rep).0 == Play(g, AttachesOf(g, rep))
  {
    PlayOne(g, AttachCall(rep.id));
  }

  lemma {:induction false} ReadIsRun(g: Gov, reports: seq<Report>)
    ensures ReadAll(g, reports).0 == Play(g, ReadCalls(g, reports))
  {
    hide ReadOne, AttachesOf;
    if reports != [] {
      var n := |reports| - 1;
      ReadIsRun(g, reports[..n]);
      var (g1, x) := ReadAll(g, reports[..n]);
      if x.Ok? {
        AttachIsCall(g1, x.value, reports[n]);
        PlayJoins(g, ReadCalls(g, reports[..n]), AttachesOf(g1, reports[n]));
      } else {
        assert ReadCalls(g, reports) == ReadCalls(g, reports[..n]);
      }
    }
  }

  lemma {:induction false} ReleaseIsRun(g: Gov, ids: seq<nat>)
    ensures ReleaseAll(g, ids).0 == Play(g, ReleaseCalls(g, ids))
  {
    hide ReleaseRequest;
    if ids != [] {
      var n := |ids| - 1;
      ReleaseIsRun(g, ids[..n]);
      var (g1, r) := ReleaseAll(g, ids[..n]);
      if r.Ok? {
        PlayOne(g1, ReleaseCall(ids[n]));
        PlayJoins(g, ReleaseCalls(g, ids[..n]), [ReleaseCall(ids[n])]);
      } else {
        assert ReleaseCalls(g, ids) == ReleaseCalls(g, ids[..n]);
      }
    }
  }

  lemma CommitIsRun(g: Gov, x: Reading, now: real)
    ensures CommitReading(g, x, now).0 == Play(g, CommitCalls(x, now))
  {
    hide CommitBatch;
    PlayOne(g, CommitCall(x.updates, now, x.tainted));
  }

  lemma FinishIsRun(g: Gov, x: Reading, now: real, extend: bool, launch: real)
    ensures Finish(g, x, now, extend, launch).0 == Play(g, FinishCalls(g, x, now, extend, launch))
  {
    hide CommitReading, CommitCalls, ReleaseAll, ReleaseCalls, PrefillCompleted;
    CommitIsRun(g, x, now);
    var (g1, committed) := CommitReading(g, x, now);
    if committed.Ok? {
      ReleaseIsRun(g1, x.ended);
      var (g2, released) := ReleaseAll(g1, x.ended);
      var releases := ReleaseCalls(g1, x.ended);
      var prefill := [PrefillCall(now, now - launch)];
      PlayOne(g2, prefill[0]);
      PlayJoins(g1, releases, prefill);
      PlayJoins(g, CommitCalls(x, now), releases + prefill);
      PlayJoins(g, CommitCalls(x, now), releases);
      assert releases + [] == releases;
    } else {
      assert CommitCalls(x, now) + [] == CommitCalls(x, now);
    }
  }

  /** A batch result is exactly this run of calls: the refresh, an attach for each governed result, at
      most one commit, one release for each ended request, and the Prefill report. */
  lemma AfterResultIsRun(g: Gov, reports: seq<Report>, now: real, current: int, extend: bool, launch: real)
    ensures AfterResult(g, reports, now, current, extend, launch).0
         == Play(g, AfterResultCalls(g, reports, now, current, extend, launch))
  {
    hide RefreshIdentity, ReadAll, ReadCalls, Finish, FinishCalls;
    var refresh := [RefreshCall(now, current)];
    PlayOne(g, refresh[0]);
    var (g1, refreshed) := RefreshIdentity(g, now, current);
    if refreshed.Ok? {
      ReadIsRun(g1, reports);
      var (g2, x) := ReadAll(g1, reports);
      var readCalls := ReadCalls(g1, reports);
      if x.Ok? {
        FinishIsRun(g2, x.value, now, extend, launch);
        PlayJoins(g1, readCalls, FinishCalls(g2, x.value, now, extend, launch));
        PlayJoins(g, refresh, readCalls + FinishCalls(g2, x.value, now, extend, launch));
      } else {
        assert readCalls + [] == readCalls;
        PlayJoins(g, refresh, readCalls);
      }
    } else {
      assert refresh + [] == refresh;
    }
  }

  lemma RetireIsRun(g: Gov, id: nat, now: real)
    requires id < |g.requests|
    ensures RetireProgress(g, id, now).0 == Play(g, RetireCalls(g, id, now))
  {
    hide CommitBatch;
    if g.requests[id].progress.Some? {
      PlayOne(g, RetireCalls(g, id, now)[0]);
    }
  }

  lemma AbortIsRun(g: Gov, id: nat, now: real)
    requires id < |g.requests|
    ensures AbortEmitted(g, id, now).0 == Play(g, AbortCalls(g, id, now))
  {
    hide RetireProgress, RetireCalls;
    RetireIsRun(g, id, now);
    var (g1, retired) := RetireProgress(g, id, now);
    if retired.Ok? {
      ReleaseIsRun(g1, [id]);
      assert [id][..0] == [];
      assert ReleaseCalls(g1, [id]) == [ReleaseCall(id)];
      PlayJoins(g, RetireCalls(g, id, now), [ReleaseCall(id)]);
    } else {
      assert RetireCalls(g, id, now) + [] == RetireCalls(g, id, now);
    }
  }

  // ---------- What a batch amounts to ----------

  /** A request whose result is committed: reserved or under way, no health check, not ended. */
  predicate Governed(r: Request) {
    !IsCheck(r) && !Ended(r) && (r.progress.Some? || r.reservation.Some?)
  }

  predicate Checking(r: Request) {
    IsCheck(r) && !r.reservation.value.released
  }

  /** A result is readable unless it belongs to a live request the scheduler never admitted. */
  predicate Readable(g: Gov, rep: Report) {
    rep.id < |g.requests| &&
    (g.requests[rep.id].progress.Some? || g.requests[rep.id].reservation.Some? ||
     rep.prefillOnly || rep.finished || rep.finishing)
  }

  function ClassOf(r: Request): nat
    requires Governed(r)
  {
    if r.progress.Some? then r.progress.value.cls else r.reservation.value.cls
  }

  /** The updates a batch stands for, read off the requests as they were before it. */
  function UpdatesOf(rs: seq<Request>, reports: seq<Report>): seq<Update> {
    if reports == [] then []
    else
      var n := |reports| - 1;
      var rep := reports[n];
      UpdatesOf(rs, reports[..n]) +
      (if rep.id < |rs| && Governed(rs[rep.id])
       then [Update(rep.id, rep.output, Ending(rep), ClassOf(rs[rep.id]))] else [])
  }

  predicate Releases(rs: seq<Request>, rep: Report) {
    rep.id < |rs| && Ending(rep) && (Governed(rs[rep.id]) || Checking(rs[rep.id]))
  }

  function EndedOf(rs: seq<Request>, reports: seq<Report>): seq<nat> {
    if reports == [] then []
    else
      var n := |reports| - 1;
      EndedOf(rs, reports[..n]) + (if Releases(rs, reports[n]) then [reports[n].id] else [])
  }

  predicate Checks(rs: seq<Request>, reports: seq<Report>) {
    exists j :: 0 <= j < |reports| && reports[j].id < |rs| && IsCheck(rs[reports[j].id])
  }

  /** Reading a batch attaches progress to some reserved requests and touches nothing else. */
  ghost predicate Attached(r: Request, r': Request) {
    r' == r ||
    (r.progress.None? && r.reservation.Some? && !IsCheck(r) &&
     r' == r.(progress := Some(Progress(0, false, false, r.reservation.value.cls, None, false))))
  }

  ghost predicate OnlyAttached(g: Gov, g': Gov) {
    g' == g.(requests := g'.requests) && |g'.requests| == |g.requests| &&
    forall i :: 0 <= i < |g.requests| ==> Attached(g.requests[i], g'.requests[i])
  }

  lemma ReadOneExactly(g: Gov, g1: Gov, x: Reading, rep: Report)
    requires OnlyAttached(g, g1)
    ensures var (g2, r) := ReadOne(g1, x, rep);
      OnlyAttached(g, g2) &&
      if !Readable(g, rep) then r == Err(Internal)
      else
        var req := g.requests[rep.id];
        r == Ok(Reading(
          x.updates + (if Governed(req) then [Update(rep.id, rep.output, Ending(rep), ClassOf(req))] else []),
          x.ended + (if Releases(g.requests, rep) then [rep.id] else []),
          x.tainted || IsCheck(req)))
  {
    assert x.updates + [] == x.updates && x.ended + [] == x.ended;
    if rep.id < |g.requests| {
      assert Attached(g.requests[rep.id], g1.requests[rep.id]);
    }
  }

  /** A batch is read exactly when each of its results is readable, and then stands for these updates
      and releases; it is contaminated exactly when the scheduler was or a health check took part. */
  lemma {:induction false} ReadExactly(g: Gov, reports: seq<Report>)
    ensures var (g', r) := ReadAll(g, reports);
      OnlyAttached(g, g') &&
      (r.Ok? <==> forall j :: 0 <= j < |reports| ==> Readable(g, reports[j])) &&
      (r.Err? ==> r.error == Internal) &&
      (r.Ok? ==> r.value == Reading(UpdatesOf(g.requests, reports), EndedOf(g.requests, reports),
                                    g.healthOutstanding != 0 || g.dirty || Checks(g.requests, reports)))
  {
    hide ReadOne, Readable, Governed, Releases, IsCheck, OnlyAttached;
    if reports == [] {
      NothingAttached(g);
    } else {
      var n := |reports| - 1;
      ReadExactly(g, reports[..n]);
      var (g1, x) := ReadAll(g, reports[..n]);
      if x.Ok? {
        ReadOneExactly(g, g1, x.value, reports[n]);
        ChecksMore(g.requests, reports, n);
        ReadableInRange(g, reports[n]);
        assert forall j :: 0 <= j < n ==> reports[..n][j] == reports[j];
      } else {
        var j :| 0 <= j < n && !Readable(g, reports[..n][j]);
        assert reports[..n][j] == reports[j];
      }
    }
  }

  lemma NothingAttached(g: Gov)
    ensures OnlyAttached(g, g)
  {
  }

  lemma ReadableInRange(g: Gov, rep: Report)
    ensures Readable(g, rep) ==> rep.id < |g.requests|
  {
  }

  lemma ChecksMore(rs: seq<Request>, reports: seq<Report>, n: nat)
    requires |reports| == n + 1
    ensures Checks(rs, reports) <==> Checks(rs, reports[..n]) || (reports[n].id < |rs| && IsCheck(rs[reports[n].id]))
  {
    hide IsCheck;
    if Checks(rs, reports[..n]) {
      var j :| 0 <= j < n && reports[..n][j].id < |rs| && IsCheck(rs[reports[..n][j].id]);
      assert reports[j] == reports[..n][j];
    }
    if Checks(rs, reports) {
      var j :| 0 <= j < |reports| && reports[j].id < |rs| && IsCheck(rs[reports[j].id]);
      if j < n { assert reports[..n][j] == reports[j]; }
    }
  }

  /** The updates are exactly those of the governed results, the releases exactly those of the ended ones. */
  lemma {:induction false} BatchMeans(rs: seq<Request>, reports: seq<Report>)
    ensures forall j :: 0 <= j < |reports| && reports[j].id < |rs| && Governed(rs[reports[j].id]) ==>
      Update(reports[j].id, reports[j].output, Ending(reports[j]), ClassOf(rs[reports[j].id])) in UpdatesOf(rs, reports)
    ensures forall u :: u in UpdatesOf(rs, reports) ==> u.id < |rs| && Governed(rs[u.id])
    ensures forall j :: 0 <= j < |reports| && Releases(rs, reports[j]) ==> reports[j].id in EndedOf(rs, reports)
    ensures forall id :: id in EndedOf(rs, reports) ==> exists j ::
      0 <= j < |reports| && Releases(rs, reports[j]) && reports[j].id == id
  {
    hide Governed, Ending, Releases;
    if reports != [] {
      var n := |reports| - 1;
      BatchMeans(rs, reports[..n]);
      assert forall j :: 0 <= j < n ==> reports[..n][j] == reports[j];
      forall id | id in EndedOf(rs, reports)
        ensures exists j :: 0 <= j < |reports| && Releases(rs, reports[j]) && reports[j].id == id
      {
        if id in EndedOf(rs, reports[..n]) {
          var j :| 0 <= j < n && Releases(rs, reports[..n][j]) && reports[..n][j].id == id;
          assert Releases(rs, reports[j]) && reports[j].id == id;
        } else {
          assert Releases(rs, reports[n]) && reports[n].id == id;
        }
      }
    }
  }

  /** Releases never fail: each request named and held is released, and nothing else moves. */
  lemma {:induction false} ReleasesDo(g: Gov, ids: seq<nat>)
    requires LedgerExact(g)
    ensures var (g', r) := ReleaseAll(g, ids);
      r.Ok? && LedgerExact(g') && g'.core == g.core && |g'.requests| == |g.requests| &&
      forall i :: 0 <= i < |g.requests| ==>
        g'.requests[i].progress == g.requests[i].progress &&
        (Held(g'.requests[i]) <==> Held(g.requests[i]) && i !in ids)
  {
    hide LedgerExact, ReleaseRequest, Held;
    if ids != [] {
      var n := |ids| - 1;
      ReleasesDo(g, ids[..n]);
      var (g1, r) := ReleaseAll(g, ids[..n]);
      ReleaseExact(g1, ids[n]);
      ReleaseTouches(g1, ids[n]);
      assert ids == ids[..n] + [ids[n]];
    }
  }

  lemma ReleaseTouches(g: Gov, id: nat)
    requires ReleaseRequest(g, id).1.Ok?
    ensures var g' := ReleaseRequest(g, id).0;
      g'.core == g.core && |g'.requests| == |g.requests| &&
      forall i :: 0 <= i < |g.requests| ==>
        g'.requests[i].progress == g.requests[i].progress &&
        (Held(g'.requests[i]) <==> Held(g.requests[i]) && i != id)
  {
  }

  /** What an accepted commit leaves of its requests: reservations as they were, results as reported. */
  lemma CommitDoes(g: Gov, updates: seq<Update>, now: real, quarantine: bool)
    requires Agreed(g) && CommitBatch(g, updates, now, quarantine).1.Ok?
    ensures var g' := CommitBatch(g, updates, now, quarantine).0;
      Agreed(g') && |g'.requests| == |g.requests| && ClockAccepts(g.core, now) && g'.core.lastTime == Some(now) &&
      (forall i :: 0 <= i < |g.requests| ==> g'.requests[i].reservation == g.requests[i].reservation) &&
      forall u :: u in updates && u.id < |g.requests| && !Ended(g.requests[u.id]) ==> Shows(g'.requests[u.id], u)
  {
    hide CommitBatch, Propose, Linked, LedgerExact, Tally;
    CommitAgreed(g, updates, now, quarantine);
    CommitPublishes(g, updates, now, quarantine);
    TallyOf(g);
    ProposeFaithful(g.requests, updates, now, g.surfaceTime);
    CommitClock(g, updates, now, quarantine);
    forall u | u in updates && u.id < |g.requests| && !Ended(g.requests[u.id])
      ensures Shows(CommitBatch(g, updates, now, quarantine).0.requests[u.id], u)
    {
      var j :| 0 <= j < |updates| && updates[j] == u;
      ProposalShows(g.requests, updates, now, j);
    }
  }

  lemma TallyOf(g: Gov)
    requires Agreed(g)
    ensures AllProgressOk(g.requests, g.surfaceTime) && Linked(g) && LedgerExact(g)
  {
  }

  lemma CommitClock(g: Gov, updates: seq<Update>, now: real, quarantine: bool)
    requires Agreed(g) && CommitBatch(g, updates, now, quarantine).1.Ok?
    ensures ClockAccepts(g.core, now) && CommitBatch(g, updates, now, quarantine).0.core.lastTime == Some(now)
  {
    hide Propose, Settle, Sound, LedgerExact, Tally, PendingOk;
    CommitRefusedOnlyFor(g, updates, now, quarantine);
    var b := Propose(g.requests, updates, now).value;
    var after := g.active + Sum4(b.entering) - Sum4(b.leaving);
    if !Taints(g, quarantine) {
      SettleLinked(g, b, now, after, CountsAfter(g.activeCounts, b));
    }
  }

  lemma RefreshKeepsRequests(g: Gov, now: real, current: int)
    ensures RefreshIdentity(g, now, current).0.requests == g.requests
  {
  }

  lemma RefreshedAgreed(g: Gov, now: real, current: int)
    requires Agreed(g)
    ensures Agreed(RefreshIdentity(g, now, current).0)
  {
    RefreshAgreed(g, now, current);
  }

  lemma ReadAgreed(g: Gov, reports: seq<Report>)
    requires Agreed(g)
    ensures Agreed(ReadAll(g, reports).0)
  {
    hide Agreed, ReadAll;
    ReadIsRun(g, reports);
    RunAgreed(g, ReadCalls(g, reports));
  }

  lemma CommitReadingDoes(g: Gov, x: Reading, now: real)
    requires Agreed(g) && CommitReading(g, x, now).1.Ok?
    ensures var g' := CommitReading(g, x, now).0;
      Agreed(g') && |g'.requests| == |g.requests| && (ClockAccepts(g'.core, now) <==> ClockAccepts(g.core, now)) &&
      (forall i :: 0 <= i < |g.requests| ==> g'.requests[i].reservation == g.requests[i].reservation) &&
      forall u :: u in x.updates && u.id < |g.requests| && !Ended(g.requests[u.id]) ==> Shows(g'.requests[u.id], u)
  {
    hide CommitBatch, Agreed, Shows, Ended;
    if x.updates != [] || x.tainted {
      CommitDoes(g, x.updates, now, x.tainted);
    }
  }

  lemma PrefillExactly(g: Gov, now: real, wall: real)
    ensures var (g', r) := PrefillCompleted(g, now, wall);
      (r.Ok? <==> 0.0 < wall <= now && ClockAccepts(g.core, now)) && g'.requests == g.requests &&
      (r.Ok? ==> g'.core.prefillEnd == Some(now) && g'.core.prefillWall == wall)
  {
  }

  /** A batch result succeeds exactly when the refresh does, each result is readable, the one commit is
      accepted, and the Prefill to report is well formed: the releases never fail. */
  lemma AfterResultAccepts(g: Gov, reports: seq<Report>, now: real, current: int, extend: bool, launch: real)
    requires Agreed(g)
    ensures var (g1, refreshed) := RefreshIdentity(g, now, current);
      var (g2, x) := ReadAll(g1, reports);
      AfterResult(g, reports, now, current, extend, launch).1.Ok? <==>
        refreshed.Ok? && (forall j :: 0 <= j < |reports| ==> Readable(g1, reports[j])) && x.Ok? &&
        CommitReading(g2, x.value, now).1.Ok? &&
        (extend && !x.value.tainted ==> 0.0 <= launch < now && ClockAccepts(g2.core, now))
  {
    hide Agreed, RefreshIdentity, ReadAll, CommitReading, Finish, Readable, ClockAccepts, OnlyAttached, Checks;
    RefreshedAgreed(g, now, current);
    var (g1, refreshed) := RefreshIdentity(g, now, current);
    ReadExactly(g1, reports);
    ReadAgreed(g1, reports);
    var (g2, x) := ReadAll(g1, reports);
    if refreshed.Ok? && x.Ok? {
      FinishAccepts(g2, x.value, now, extend, launch);
    }
  }

  lemma FinishAccepts(g: Gov, x: Reading, now: real, extend: bool, launch: real)
    requires Agreed(g)
    ensures Finish(g, x, now, extend, launch).1.Ok? <==>
      CommitReading(g, x, now).1.Ok? && (extend && !x.tainted ==> 0.0 <= launch < now && ClockAccepts(g.core, now))
  {
    hide Agreed, CommitReading, ReleaseAll, PrefillCompleted, ClockAccepts, Held, Shows, Ended;
    if CommitReading(g, x, now).1.Ok? {
      CommitReadingDoes(g, x, now);
      var g1 := CommitReading(g, x, now).0;
      AgreedLedger(g1);
      ReleasesDo(g1, x.ended);
      PrefillExactly(ReleaseAll(g1, x.ended).0, now, now - launch);
    }
  }

  lemma AgreedLedger(g: Gov)
    requires Agreed(g)
    ensures LedgerExact(g)
  {
  }

  /** What a successful batch result leaves behind: every governed result is shown, exactly the ended
      requests are released, and a clean extend batch is the latest Prefill. */
  lemma AfterResultDoes(g: Gov, reports: seq<Report>, now: real, current: int, extend: bool, launch: real)
    requires Agreed(g) && AfterResult(g, reports, now, current, extend, launch).1.Ok?
    ensures var g' := AfterResult(g, reports, now, current, extend, launch).0;
      var rs := g.requests;
      |g'.requests| == |rs| &&
      (forall j :: 0 <= j < |reports| && reports[j].id < |rs| && Governed(rs[reports[j].id]) ==>
        var p := g'.requests[reports[j].id].progress;
        p.Some? && p.value.output == reports[j].output && p.value.terminal == Ending(reports[j])) &&
      (forall i :: 0 <= i < |rs| ==>
        (Held(g'.requests[i]) <==>
         Held(rs[i]) && !exists j :: 0 <= j < |reports| && Releases(rs, reports[j]) && reports[j].id == i)) &&
      (extend && !ReadAll(RefreshIdentity(g, now, current).0, reports).1.value.tainted ==>
        g'.core.prefillEnd == Some(now) && g'.core.prefillWall == now - launch)
  {
    hide Agreed, RefreshIdentity, ReadAll, CommitReading, ReleaseAll, PrefillCompleted, ClockAccepts, Governed,
      Releases, Ending, Held, UpdatesOf, EndedOf, OnlyAttached, Ended, Readable;
    RefreshedAgreed(g, now, current);
    RefreshKeepsRequests(g, now, current);
    var (g1, refreshed) := RefreshIdentity(g, now, current);
    ReadExactly(g1, reports);
    ReadAgreed(g1, reports);
    BatchMeans(g.requests, reports);
    var (g2, x) := ReadAll(g1, reports);
    CommitReadingDoes(g2, x.value, now);
    var g3 := CommitReading(g2, x.value, now).0;
    AgreedLedger(g3);
    ReleasesDo(g3, x.value.ended);
    var g4 := ReleaseAll(g3, x.value.ended).0;
    PrefillExactly(g4, now, now - launch);
    forall i | 0 <= i < |g.requests|
      ensures |g2.requests| == |g1.requests| && Held(g3.requests[i]) == Held(g1.requests[i])
      ensures Governed(g.requests[i]) ==> !Ended(g2.requests[i])
    {
      AttachedKeeps(g1, g2, i);
      HeldByReservation(g3.requests[i], g1.requests[i]);
    }
    forall j | 0 <= j < |reports| && reports[j].id < |g.requests| && Governed(g.requests[reports[j].id])
      ensures Shows(g3.requests[reports[j].id], Update(reports[j].id, reports[j].output, Ending(reports[j]),
                                                       ClassOf(g.requests[reports[j].id])))
    {
    }
  }

  lemma AttachedKeeps(g: Gov, g': Gov, i: nat)
    requires OnlyAttached(g, g') && i < |g.requests|
    ensures |g'.requests| == |g.requests| && g'.requests[i].reservation == g.requests[i].reservation
    ensures Governed(g.requests[i]) ==> !Ended(g'.requests[i])
    ensures Ended(g'.requests[i]) ==> Ended(g.requests[i])
    ensures g'.requests[i].progress == g.requests[i].progress || !Decoding(g'.requests[i])
  {
    assert Attached(g.requests[i], g'.requests[i]);
  }

  lemma HeldByReservation(r: Request, s: Request)
    requires r.reservation == s.reservation
    ensures Held(r) == Held(s) && Business(r) == Business(s) && IsCheck(r) == IsCheck(s)
  {
  }

  // ---------- Hooks keep the native promises ----------

  /** What the native runtime promises of a request it reports: until it ends it holds its
      reservation, and a health check makes no progress. */
  ghost predicate Honest(r: Request) {
    if r.progress.Some? then Ended(r) || Business(r)
    else r.reservation.None? || r.reservation.value.health || !r.reservation.value.released
  }

  ghost predicate HonestBatch(rs: seq<Request>, reports: seq<Report>) {
    forall j :: 0 <= j < |reports| && reports[j].id < |rs| ==> Honest(rs[reports[j].id])
  }

  lemma {:induction false} ReadNative(g: Gov, reports: seq<Report>)
    requires HonestBatch(g.requests, reports)
    ensures NativeRun(g, ReadCalls(g, reports))
  {
    hide Honest, ReadOne, AttachesOf, ReadAll, OnlyAttached;
    if reports != [] {
      var n := |reports| - 1;
      assert forall j :: 0 <= j < n ==> reports[..n][j] == reports[j];
      ReadNative(g, reports[..n]);
      var (g1, x) := ReadAll(g, reports[..n]);
      if x.Ok? {
        ReadIsRun(g, reports[..n]);
        ReadExactly(g, reports[..n]);
        AttachNative(g, g1, reports[n]);
        PlayJoins(g, ReadCalls(g, reports[..n]), AttachesOf(g1, reports[n]));
      } else {
        assert ReadCalls(g, reports) == ReadCalls(g, reports[..n]);
      }
    }
  }

  lemma AttachNative(g: Gov, g1: Gov, rep: Report)
    requires OnlyAttached(g, g1) && (rep.id < |g.requests| ==> Honest(g.requests[rep.id]))
    ensures NativeRun(g1, AttachesOf(g1, rep))
  {
    if rep.id < |g.requests| {
      assert Attached(g.requests[rep.id], g1.requests[rep.id]);
      PlayOne(g1, AttachCall(rep.id));
    }
  }

  lemma {:induction false} ReleaseNative(g: Gov, ids: seq<nat>)
    requires LedgerExact(g) && forall id :: id in ids && id < |g.requests| ==> !Decoding(g.requests[id])
    ensures NativeRun(g, ReleaseCalls(g, ids))
  {
    hide LedgerExact, ReleaseRequest, NativeRun, ReleaseAll;
    if ids == [] {
      PlayJoins(g, [], []);
      NoCalls(g);
    } else {
      var n := |ids| - 1;
      ReleaseNative(g, ids[..n]);
      ReleasesDo(g, ids[..n]);
      ReleaseIsRun(g, ids[..n]);
      var g1 := ReleaseAll(g, ids[..n]).0;
      PlayOne(g1, ReleaseCall(ids[n]));
      PlayJoins(g, ReleaseCalls(g, ids[..n]), [ReleaseCall(ids[n])]);
    }
  }

  lemma NoCalls(g: Gov)
    ensures NativeRun(g, []) && Play(g, []) == g
  {
  }

  /** Governed requests of an honest batch hold their grants, and keep them while it is read. */
  lemma CommitNative(g: Gov, g2: Gov, reports: seq<Report>, x: Reading, now: real)
    requires OnlyAttached(g, g2) && HonestBatch(g.requests, reports) && x.updates == UpdatesOf(g.requests, reports)
    ensures NativeRun(g2, CommitCalls(x, now))
  {
    hide OnlyAttached, HonestBatch, UpdatesOf, NativeRun, Business, Ended;
    NoCalls(g2);
    forall u | u in x.updates ensures u.id < |g2.requests| && Business(g2.requests[u.id]) {
      UpdateHolds(g, g2, reports, u);
    }
    CommitOfHeld(g2, x.updates, now, x.tainted);
    PlayOne(g2, CommitCall(x.updates, now, x.tainted));
  }

  lemma UpdateHolds(g: Gov, g2: Gov, reports: seq<Report>, u: Update)
    requires OnlyAttached(g, g2) && HonestBatch(g.requests, reports) && u in UpdatesOf(g.requests, reports)
    ensures u.id < |g2.requests| && Business(g2.requests[u.id])
  {
    hide OnlyAttached, Governed, Honest, Business, UpdatesOf;
    BatchMeans(g.requests, reports);
    UpdatesReported(g.requests, reports);
    GovernedHolds(g.requests[u.id]);
    AttachedKeeps(g, g2, u.id);
    HeldByReservation(g2.requests[u.id], g.requests[u.id]);
  }

  lemma CommitOfHeld(g: Gov, updates: seq<Update>, now: real, quarantine: bool)
    requires forall u :: u in updates ==> u.id < |g.requests| && Business(g.requests[u.id])
    ensures Native(g, CommitCall(updates, now, quarantine))
  {
    hide Business, Ended;
    forall k | 0 <= k < |updates| ensures updates[k].id < |g.requests| && Business(g.requests[updates[k].id]) {
      assert updates[k] in updates;
    }
  }

  lemma GovernedHolds(r: Request)
    requires Governed(r) && Honest(r)
    ensures Business(r)
  {
  }

  lemma {:induction false} UpdatesReported(rs: seq<Request>, reports: seq<Report>)
    ensures forall u :: u in UpdatesOf(rs, reports) ==> exists j :: 0 <= j < |reports| && reports[j].id == u.id
  {
    hide Governed, Ending;
    if reports != [] {
      var n := |reports| - 1;
      UpdatesReported(rs, reports[..n]);
      forall u | u in UpdatesOf(rs, reports) ensures exists j :: 0 <= j < |reports| && reports[j].id == u.id {
        if u in UpdatesOf(rs, reports[..n]) {
          var j :| 0 <= j < n && reports[..n][j].id == u.id;
          assert reports[j].id == u.id;
        } else {
          assert reports[n].id == u.id;
        }
      }
    }
  }

  /** Neither an ended request nor a health check is decoding. */
  lemma IdleRequest(g: Gov, i: nat)
    requires Agreed(g) && i < |g.requests| && (Ended(g.requests[i]) || (Owned(g) && IsCheck(g.requests[i])))
    ensures !Decoding(g.requests[i])
  {
    hide Linked, LedgerExact;
    if Owned(g) {
      assert OwnedRequest(g.requests[i], g.epoch);
    }
  }

  lemma FinishNative(g: Gov, g2: Gov, reports: seq<Report>, x: Reading, now: real, extend: bool, launch: real)
    requires Owned(g2) && Agreed(g2) && OnlyAttached(g, g2) && HonestBatch(g.requests, reports)
    requires x.updates == UpdatesOf(g.requests, reports) && x.ended == EndedOf(g.requests, reports)
    ensures NativeRun(g2, FinishCalls(g2, x, now, extend, launch))
  {
    hide Owned, Agreed, OnlyAttached, HonestBatch, UpdatesOf, EndedOf, CommitReading, CommitCalls, NativeRun,
      ReleaseAll, ReleaseCalls;
    CommitNative(g, g2, reports, x, now);
    CommitIsRun(g2, x, now);
    var (g3, committed) := CommitReading(g2, x, now);
    if committed.Ok? {
      RunOwned(g2, CommitCalls(x, now));
      CommitReadingDoes(g2, x, now);
      AgreedLedger(g3);
      forall id | id in x.ended && id < |g3.requests| ensures !Decoding(g3.requests[id]) {
        EndedIdle(g, g2, g3, reports, x, now, id);
      }
      ReleaseNative(g3, x.ended);
      ReleaseIsRun(g3, x.ended);
      var g4 := ReleaseAll(g3, x.ended).0;
      var prefill := if extend && !x.tainted && ReleaseAll(g3, x.ended).1.Ok? then [PrefillCall(now, now - launch)]
                     else [];
      NoCalls(g4);
      PlayOne(g4, PrefillCall(now, now - launch));
      PlayJoins(g3, ReleaseCalls(g3, x.ended), prefill);
      PlayJoins(g2, CommitCalls(x, now), ReleaseCalls(g3, x.ended) + prefill);
    } else {
      assert CommitCalls(x, now) + [] == CommitCalls(x, now);
    }
  }

  lemma EndedIdle(g: Gov, g2: Gov, g3: Gov, reports: seq<Report>, x: Reading, now: real, id: nat)
    requires Agreed(g2) && OnlyAttached(g, g2) && Owned(g3)
    requires CommitReading(g2, x, now).0 == g3 && CommitReading(g2, x, now).1.Ok?
    requires x.updates == UpdatesOf(g.requests, reports) && id in EndedOf(g.requests, reports)
    ensures id < |g3.requests| && !Decoding(g3.requests[id])
  {
    hide Owned, Agreed, OnlyAttached, UpdatesOf, EndedOf, CommitReading, Governed, IsCheck;
    CommitReadingDoes(g2, x, now);
    BatchMeans(g.requests, reports);
    var j :| 0 <= j < |reports| && Releases(g.requests, reports[j]) && reports[j].id == id;
    AttachedKeeps(g, g2, id);
    HeldByReservation(g3.requests[id], g.requests[id]);
    IdleRequest(g3, id);
  }

  /** An honest batch result makes only calls that the native caller may make. */
  lemma AfterResultNative(g: Gov, reports: seq<Report>, now: real, current: int, extend: bool, launch: real)
    requires Owned(g) && Agreed(g) && HonestBatch(g.requests, reports)
    ensures NativeRun(g, AfterResultCalls(g, reports, now, current, extend, launch))
  {
    hide Owned, Agreed, HonestBatch, RefreshIdentity, ReadAll, ReadCalls, FinishCalls, NativeRun, OnlyAttached;
    var refresh := [RefreshCall(now, current)];
    PlayOne(g, refresh[0]);
    RunOwned(g, refresh);
    RefreshKeepsRequests(g, now, current);
    var (g1, refreshed) := RefreshIdentity(g, now, current);
    if refreshed.Ok? {
      ReadNative(g1, reports);
      ReadIsRun(g1, reports);
      ReadExactly(g1, reports);
      RunOwned(g1, ReadCalls(g1, reports));
      var (g2, x) := ReadAll(g1, reports);
      var finish := if x.Err? then [] else FinishCalls(g2, x.value, now, extend, launch);
      NoCalls(g2);
      if x.Ok? {
        FinishNative(g1, g2, reports, x.value, now, extend, launch);
      }
      PlayJoins(g1, ReadCalls(g1, reports), finish);
      PlayJoins(g, refresh, ReadCalls(g1, reports) + finish);
    } else {
      assert refresh + [] == refresh;
    }
  }

  // ---------- Aborts ----------

  /** Whatever progress there was has ended, at the length it had. */
  predicate Retired(r: Request, r': Request) {
    r.progress.Some? ==> (Ended(r') && r'.progress.value.output == r.progress.value.output)
  }

  /** An abort succeeds exactly when its commit does, and then the request is ended and released. */
  lemma AbortDoes(g: Gov, id: nat, now: real)
    requires Agreed(g) && id < |g.requests|
    ensures var (g', r) := AbortEmitted(g, id, now);
      (r.Ok? <==> RetireProgress(g, id, now).1.Ok?) &&
      (r.Ok? ==> |g'.requests| == |g.requests| && !Held(g'.requests[id]) && Retired(g.requests[id], g'.requests[id]))
  {
    hide Agreed, CommitBatch, ReleaseAll, LedgerExact, Held;
    var (g1, retired) := RetireProgress(g, id, now);
    if retired.Ok? {
      RetireDoes(g, id, now);
      AgreedLedger(g1);
      ReleasesDo(g1, [id]);
    }
  }

  lemma RetireDoes(g: Gov, id: nat, now: real)
    requires Agreed(g) && id < |g.requests| && RetireProgress(g, id, now).1.Ok?
    ensures var g' := RetireProgress(g, id, now).0;
      Agreed(g') && |g'.requests| == |g.requests| && !Decoding(g'.requests[id]) &&
      Retired(g.requests[id], g'.requests[id])
  {
    hide Agreed, CommitBatch;
    if g.requests[id].progress.Some? {
      var p := g.requests[id].progress.value;
      var u := Update(id, p.output, true, p.cls);
      CommitDoes(g, [u], now, false);
      var g' := CommitBatch(g, [u], now, false).0;
      if p.terminal {
        CommitKeepsEnded(g, [u], now, id);
      } else {
        assert u in [u];
      }
      IdleRequest(g', id);
    }
  }

  lemma CommitKeepsEnded(g: Gov, updates: seq<Update>, now: real, id: nat)
    requires id < |g.requests| && Ended(g.requests[id]) && CommitBatch(g, updates, now, false).1.Ok?
    ensures CommitBatch(g, updates, now, false).0.requests[id] == g.requests[id]
  {
    hide CommitBatch, Propose;
    CommitPublishes(g, updates, now, false);
    TerminalUntouched(g.requests, updates, now);
  }

  /** The abort of an honest request makes only calls that the native caller may make. */
  lemma AbortNative(g: Gov, id: nat, now: real)
    requires Owned(g) && Agreed(g) && id < |g.requests| && Honest(g.requests[id])
    ensures NativeRun(g, AbortCalls(g, id, now))
  {
    hide Owned, Agreed, CommitBatch, NativeRun;
    NoCalls(g);
    RetireIsRun(g, id, now);
    var retire := RetireCalls(g, id, now);
    if g.requests[id].progress.Some? {
      PlayOne(g, retire[0]);
    }
    var (g1, retired) := RetireProgress(g, id, now);
    if retired.Ok? {
      RetireDoes(g, id, now);
      PlayOne(g1, ReleaseCall(id));
      PlayJoins(g, retire, [ReleaseCall(id)]);
    } else {
      assert retire + [] == retire;
    }
  }
}
