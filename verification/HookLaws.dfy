/** What the native hooks teach the controller: contaminated results nothing, clean ones one clean commit, an abort
    no new tokens. */
module HookLaws {
  import opened Wrappers
  import opened CoreSpec
  import opened Scheduler
  import opened Ledgers
  import opened Joint
  import opened Hooks
  import CommitLaws
  import CoreLaws

  lemma {:induction false} ReleasesTeachNothing(g: Gov, ids: seq<nat>)
    ensures var g' := ReleaseAll(g, ids).0;
      g'.core == g.core && g'.pending == g.pending && g'.dirty == g.dirty && g'.surfaceTime == g.surfaceTime &&
      g'.active == g.active
  {
    if ids != [] {
      ReleasesTeachNothing(g, ids[..|ids| - 1]);
    }
  }

  /** A contaminated commit: no evidence moves, nothing stays pending, and no run is on record. */
  lemma TaintedCommit(g: Gov, updates: seq<Update>, now: real, quarantine: bool)
    requires CommitBatch(g, updates, now, quarantine).1.Ok?
    requires quarantine || g.healthOutstanding > 0 || g.dirty
    ensures var g' := CommitBatch(g, updates, now, quarantine).0;
      g'.core.log == g.core.log && g'.core.surface == g.core.surface && !g'.core.runHasTokens &&
      g'.core.prefillEnd == g.core.prefillEnd && g'.pending == map[] && g'.surfaceTime == Some(now) &&
      (g'.dirty <==> g.healthOutstanding > 0)
  {
    hide CommitBatch, Propose, Quarantine;
    CommitLaws.CommitStateLaw(g, updates, now, quarantine);
    var g' := CommitBatch(g, updates, now, quarantine).0;
    CoreLaws.QuarantineLaw(g.core, now, g'.active, g.healthOutstanding > 0);
  }

  /** A batch that meets contamination, or has a health check in it, changes no token or second of the evidence, leaves
      nothing pending, reports no Prefill, and leaves the scheduler contaminated exactly while a check is out. */
  lemma TaintedResults(g: Gov, reports: seq<Report>, now: real, current: int, extend: bool, launch: real)
    requires AfterResult(g, reports, now, current, extend, launch).1.Ok?
    ensures var g1 := RefreshIdentity(g, now, current).0;
      var g' := AfterResult(g, reports, now, current, extend, launch).0;
      g1.healthOutstanding > 0 || g1.dirty || Checks(g.requests, reports) ==>
        g'.core.log == g1.core.log && g'.core.surface == g1.core.surface && !g'.core.runHasTokens &&
        g'.core.prefillEnd == g1.core.prefillEnd && g'.pending == map[] && g'.surfaceTime == Some(now) &&
        (g'.dirty <==> g1.healthOutstanding > 0)
  {
    hide RefreshIdentity, ReadAll, CommitBatch, ReleaseAll, PrefillCompleted, Checks, UpdatesOf, EndedOf, Readable;
    RefreshKeepsRequests(g, now, current);
    var g1 := RefreshIdentity(g, now, current).0;
    ReadExactly(g1, reports);
    var (g2, x) := ReadAll(g1, reports);
    if x.value.tainted {
      TaintedCommit(g2, x.value.updates, now, true);
      ReleasesTeachNothing(CommitBatch(g2, x.value.updates, now, true).0, x.value.ended);
    }
  }

  /** Any other batch is one clean commit of the governed results, if there are any, and the Prefill of an extend. */
  lemma CleanResults(g: Gov, reports: seq<Report>, now: real, current: int, extend: bool, launch: real)
    requires AfterResult(g, reports, now, current, extend, launch).1.Ok?
    ensures var g1 := RefreshIdentity(g, now, current).0;
      var g' := AfterResult(g, reports, now, current, extend, launch).0;
      var updates := UpdatesOf(g.requests, reports);
      !(g1.healthOutstanding > 0 || g1.dirty || Checks(g.requests, reports)) ==>
        var g2 := ReadAll(g1, reports).0;
        var g3 := if updates == [] then g1 else CommitBatch(g2, updates, now, false).0;
        OnlyAttached(g1, g2) && g'.pending == g3.pending && g'.dirty == g3.dirty && g'.active == g3.active &&
        g'.surfaceTime == g3.surfaceTime &&
        (!extend ==> g'.core == g3.core) && (extend ==> Ok(g'.core) == Prefill(g3.core, now, now - launch))
  {
    hide RefreshIdentity, ReadAll, CommitBatch, ReleaseAll, Prefill, Checks, UpdatesOf, EndedOf, Readable;
    RefreshKeepsRequests(g, now, current);
    var g1 := RefreshIdentity(g, now, current).0;
    ReadExactly(g1, reports);
    var (g2, x) := ReadAll(g1, reports);
    ReleasesTeachNothing(CommitReading(g2, x.value, now).0, x.value.ended);
  }

  /** An abort is a clean commit of the accounted length as the last, if there is progress, and then one release. */
  lemma AbortLaw(g: Gov, id: nat, now: real)
    requires Agreed(g) && id < |g.requests|
    ensures var (g', r) := AbortEmitted(g, id, now);
      var p := g.requests[id].progress;
      var (g1, committed) :=
        if p.None? then (g, Ok(())) else CommitBatch(g, [Update(id, p.value.output, true, p.value.cls)], now, false);
      (r.Ok? <==> committed.Ok?) && g' == if committed.Ok? then ReleaseRequest(g1, id).0 else g1
  {
    hide CommitBatch, Agreed, ReleaseRequest;
    AbortDoes(g, id, now);
    var g1 := RetireProgress(g, id, now).0;
    assert ReleaseAll(g1, [id][..0]) == (g1, Ok(()));
  }
}
