/** Whose exposure the core holds: over any run the aggregate's sequence-seconds are the time that each
    request has spent decoding in this epoch, request by request. */
module DecodeTime {
  import opened Wrappers
  import opened CoreSpec
  import opened CoreRuns
  import opened Scheduler
  import opened Ledgers
  import opened Joint
  import opened Conservation
  import opened Lifecycles
  import opened Exposure
  import Hooks
  import Ledger
  import Provenance

  /** The time by which a call extends the charge: none in quarantine, nor when exposure is dropped. */
  function ChargedTime(g: Gov, e: Event): real {
    var g' := Next(g, e);
    if g'.epoch != g.epoch || DropsExposure(g, e) || g.core.quarantined || g.core.lastTime.None? ||
       g'.core.lastTime.None? then 0.0
    else g'.core.lastTime.value - g.core.lastTime.value
  }

  ghost predicate Charges(g: Gov, core: Core, time: real) {
    AllSeconds(core.log) == AllSeconds(g.core.log) + g.active as real * time
  }

  /** How far a core has moved. */
  function Moved(c: Core, d: Core): real {
    if c.quarantined || c.lastTime.None? || d.lastTime.None? then 0.0 else d.lastTime.value - c.lastTime.value
  }

  lemma ScaleNothing(n: nat)
    ensures n as real * 0.0 == 0.0
  {
  }

  lemma AdvanceCharges(g: Gov, now: real, core: Core)
    requires Linked(g) && ClockAccepts(g.core, now) && LogAdvanced(g.core, now, core.log) && core.lastTime == Some(now)
    ensures Charges(g, core, Moved(g.core, core))
  {
    hide Sound, AllSeconds, PendingOk;
    AggregateGains(g.core, now, core.log);
    ScaleNothing(g.active);
  }

  lemma SameCharges(g: Gov, core: Core)
    requires core.log == g.core.log && core.lastTime == g.core.lastTime
    ensures Charges(g, core, Moved(g.core, core)) && Charges(g, core, 0.0)
  {
    ScaleNothing(g.active);
  }

  lemma CommitCharges(g: Gov, e: Event)
    requires Agreed(g) && e.CommitCall?
    ensures Charges(g, Next(g, e).core, ChargedTime(g, e)) && Next(g, e).epoch == g.epoch
  {
    hide CommitBatch, Settle, Propose, Agreed, Sound, PendingOk, LogAdvanced, AllSeconds, Taints;
    LinkedOf(g);
    ScaleNothing(g.active);
    if CommitBatch(g, e.updates, e.now, e.quarantine).1.Err? {
      RefusedCommitKeeps(g, e.updates, e.now, e.quarantine);
    } else {
      CommitPublishes(g, e.updates, e.now, e.quarantine);
      if Taints(g, e.quarantine) {
        DirtyCommit(g, e.updates, e.now, e.quarantine);
      } else {
        CleanCharges(g, e);
      }
    }
  }

  lemma CleanCharges(g: Gov, e: Event)
    requires Agreed(g) && e.CommitCall? && !Taints(g, e.quarantine)
    requires CommitBatch(g, e.updates, e.now, e.quarantine).1.Ok?
    ensures Charges(g, Next(g, e).core, Moved(g.core, Next(g, e).core)) && !DropsExposure(g, e)
    ensures g.core.lastTime.Some? ==> Next(g, e).core.lastTime.Some?
  {
    hide CommitBatch, Settle, Propose, Agreed, Sound, PendingOk, LogAdvanced, AllSeconds, ObserveCell;
    LinkedOf(g);
    CleanCommit(g, e.updates, e.now, e.quarantine);
    CommitPublishes(g, e.updates, e.now, e.quarantine);
    NotDirty(g, e.quarantine);
    var b := Propose(g.requests, e.updates, e.now).value;
    var after, counts := g.active + Sum4(b.entering) - Sum4(b.leaving), CountsAfter(g.activeCounts, b);
    SettleCharges(g, b, e.now, after, counts);
    SettleLinked(g, b, e.now, after, counts);
    SettleClock(g, b, e.now, after, counts);
    var core := Settle(g, b, e.now, after, counts).value.core;
    AdvanceCharges(g, e.now, core.(log := core.log.before));
    SampleAdds(core.log);
  }

  lemma SampleAdds(log: Ledger.Log)
    requires log.Then? && log.entry.Sample? && log.entry.seconds == 0.0
    ensures AllSeconds(log) == AllSeconds(log.before)
  {
  }

  lemma AdmitCharges(g: Gov, id: nat, now: real, retracted: bool, waiting: Option<nat>, health: bool)
    requires Agreed(g)
    ensures var g' := AdmitRequest(g, id, now, retracted, waiting, health).0;
      if g'.healthOutstanding > g.healthOutstanding then Charges(g, g'.core, 0.0)
      else Charges(g, g'.core, Moved(g.core, g'.core))
  {
    hide AdmitFresh, Sound, Agreed, PendingOk, Charges, Moved, Advance, Quarantine;
    LinkedOf(g);
    var g' := AdmitRequest(g, id, now, retracted, waiting, health).0;
    SameCharges(g, g.core);
    if g'.healthOutstanding > g.healthOutstanding {
      HealthAdmitsOnly(g, id, now, retracted, waiting, health);
      SameSeconds(g, g'.core);
    } else if g' != g {
      AdmitFreshExact(g, id, now, waiting, health);
      AdvancedOnly(g, now);
    }
  }

  lemma SameSeconds(g: Gov, core: Core)
    requires core.log == g.core.log
    ensures Charges(g, core, 0.0)
  {
    ScaleNothing(g.active);
  }

  lemma AdvancedOnly(g: Gov, now: real)
    requires Linked(g)
    ensures ClockAccepts(g.core, now) ==>
      Advance(g.core, now).Ok? && Charges(g, Advance(g.core, now).value, Moved(g.core, Advance(g.core, now).value))
  {
    hide Sound, PendingOk, AllSeconds, Charges, Ledger.Expose;
    if ClockAccepts(g.core, now) {
      AdvanceCharges(g, now, Advance(g.core, now).value);
    }
  }

  lemma RefreshSame(g: Gov, now: real, current: int)
    requires Agreed(g)
    ensures var g1 := RefreshIdentity(g, now, current).0;
      Agreed(g1) && g1.healthOutstanding == g.healthOutstanding && (g1.epoch == g.epoch || g1.epoch == g.epoch + 1) &&
      (g1.epoch == g.epoch ==> g1.core == g.core && g1.active == g.active)
  {
    hide Agreed;
    RefreshAgreed(g, now, current);
  }

  lemma AdmitCallCharges(g: Gov, e: Event)
    requires Agreed(g) && e.AdmitCall? && Next(g, e).epoch == g.epoch
    ensures Charges(g, Next(g, e).core, ChargedTime(g, e))
  {
    hide RefreshIdentity, AdmitRequest, Agreed, AllSeconds;
    RefreshSame(g, e.now, e.current);
    var (g1, r) := RefreshIdentity(g, e.now, e.current);
    AdmitKeepsEpoch(g1, e.id, e.now, e.retracted, e.waiting, e.health);
    SameCharges(g, g.core);
    if r.Ok? {
      AdmitCharges(g1, e.id, e.now, e.retracted, e.waiting, e.health);
    }
  }

  lemma PolicyCallCharges(g: Gov, e: Event)
    requires Agreed(g) && (e.PolicyCall? || e.RefreshCall?) && Next(g, e).epoch == g.epoch
    ensures Charges(g, Next(g, e).core, ChargedTime(g, e))
  {
    hide RefreshIdentity, UpdatePolicy, Agreed, AllSeconds;
    RefreshSame(g, e.now, e.current);
    var (g1, r) := RefreshIdentity(g, e.now, e.current);
    if e.PolicyCall? {
      PolicyLog(g1, e.epoch, e.revision, e.reference, e.maxWaiting, e.maxRunning);
    }
    SameCharges(g, Next(g, e).core);
  }

  lemma PolicyLog(g: Gov, epoch: nat, revision: nat, reference: Option<real>,
                  maxWaiting: Option<int>, maxRunning: Option<int>)
    ensures var g' := UpdatePolicy(g, epoch, revision, reference, maxWaiting, maxRunning).0;
      g'.core.log == g.core.log && g'.core.lastTime == g.core.lastTime && g'.epoch == g.epoch
  {
  }

  lemma QuietCharges(g: Gov, e: Event)
    requires Agreed(g)
    requires e.Arrive? || e.ReleaseCall? || e.AttachCall? || e.ReadCall? || e.PrefillCall? || e.PreferCall?
    ensures Charges(g, Next(g, e).core, ChargedTime(g, e)) && Next(g, e).epoch == g.epoch
  {
    hide Agreed, Charges;
    LinkedOf(g);
    QuietHealth(g, e);
    QuietCore(g, e);
    SameCharges(g, g.core);
    if e.ReadCall? || e.PrefillCall? || e.PreferCall? {
      AdvancedOnly(g, e.now);
      if Next(g, e).core != g.core {
        SameMove(g, Advance(g.core, e.now).value, Next(g, e).core);
      }
    }
  }

  lemma SameMove(g: Gov, c: Core, d: Core)
    requires Charges(g, c, Moved(g.core, c)) && d.log == c.log && d.lastTime == c.lastTime
    ensures Charges(g, d, Moved(g.core, d))
  {
  }

  lemma QuietCore(g: Gov, e: Event)
    requires e.Arrive? || e.ReleaseCall? || e.AttachCall? || e.ReadCall? || e.PrefillCall? || e.PreferCall?
    ensures var g' := Next(g, e);
      g'.epoch == g.epoch &&
      (g'.core == g.core ||
       ((e.ReadCall? || e.PrefillCall? || e.PreferCall?) && ClockAccepts(g.core, e.now) &&
        g'.core.log == Advance(g.core, e.now).value.log && g'.core.lastTime == Some(e.now)))
  {
    hide Advance, Prefill, Choose;
    if e.ReadCall? || e.PrefillCall? || e.PreferCall? {
      ReadLog(g.core, e);
    }
  }

  lemma ReadLog(c: Core, e: Event)
    requires e.ReadCall? || e.PrefillCall? || e.PreferCall?
    ensures Advance(c, e.now).Ok? ==> ClockAccepts(c, e.now) && Advance(c, e.now).value.lastTime == Some(e.now)
    ensures e.PrefillCall? && Prefill(c, e.now, e.wall).Ok? ==>
      (Advance(c, e.now).Ok? && Prefill(c, e.now, e.wall).value.log == Advance(c, e.now).value.log &&
       Prefill(c, e.now, e.wall).value.lastTime == Some(e.now))
    ensures e.PreferCall? ==>
      var r := Choose(c, e.now, e.decode, e.prefill, e.age);
      r.Ok? ==>
        (Advance(c, e.now).Ok? && r.value.0.log == Advance(c, e.now).value.log && r.value.0.lastTime == Some(e.now))
  {
    hide Duration, Weighs, ViewAt, Ledger.Expose;
  }

  /** A call that keeps the epoch charges every active sequence for the time by which it extends the charge. */
  lemma StepCharges(g: Gov, e: Event)
    requires Agreed(g) && Next(g, e).epoch == g.epoch
    ensures Charges(g, Next(g, e).core, ChargedTime(g, e))
  {
    hide Agreed, Next, Charges, ChargedTime;
    if e.CommitCall? {
      CommitCharges(g, e);
    } else if e.AdmitCall? {
      AdmitCallCharges(g, e);
    } else if e.PolicyCall? || e.RefreshCall? {
      PolicyCallCharges(g, e);
    } else {
      QuietCharges(g, e);
    }
  }

  // ---------- Request by request ----------

  /** The time request `i` has spent decoding under charge, in the epoch current before the n-th call. */
  ghost function TimeOfRequest(g: Gov, events: seq<Event>, i: nat, n: nat): real
    requires n <= |events|
  {
    if n == 0 then 0.0
    else
      var s, e := At(g, events, n - 1), events[n - 1];
      if Next(s, e).epoch != s.epoch then 0.0
      else TimeOfRequest(g, events, i, n - 1) + Share(s, e, i)
  }

  function Share(s: Gov, e: Event, i: nat): real {
    if i < |s.requests| && Decoding(s.requests[i]) then ChargedTime(s, e) else 0.0
  }

  ghost function TimeOfAll(g: Gov, events: seq<Event>, k: nat, n: nat): real
    requires n <= |events|
  {
    if k == 0 then 0.0 else TimeOfAll(g, events, k - 1, n) + TimeOfRequest(g, events, k - 1, n)
  }

  ghost function Shares(s: Gov, e: Event, k: nat): real {
    if k == 0 then 0.0 else Shares(s, e, k - 1) + Share(s, e, k - 1)
  }

  /** The shares of a call are those of the sequences then decoding. */
  lemma {:induction false} SharesCount(s: Gov, e: Event, k: nat)
    requires k <= |s.requests|
    ensures Shares(s, e, k) == Total(DecodingW(), s.requests[..k]) as real * ChargedTime(s, e)
  {
    hide ChargedTime;
    if k > 0 {
      SharesCount(s, e, k - 1);
      assert s.requests[..k][..k - 1] == s.requests[..k - 1];
      var before, one := Total(DecodingW(), s.requests[..k - 1]), DecodingW()(s.requests[k - 1]);
      assert Total(DecodingW(), s.requests[..k]) == before + one;
      TimesOne(before, one, ChargedTime(s, e));
    }
  }

  lemma TimesOne(n: int, one: int, x: real)
    requires one == 0 || one == 1
    ensures (n + one) as real * x == n as real * x + (if one == 1 then x else 0.0)
  {
    assert (n + one) as real == n as real + one as real;
  }

  lemma {:induction false} SharesEnd(s: Gov, e: Event, k: nat)
    requires k >= |s.requests|
    ensures Shares(s, e, k) == Shares(s, e, |s.requests|)
  {
    if k > |s.requests| {
      SharesEnd(s, e, k - 1);
    }
  }

  lemma {:induction false} TimesGrow(g: Gov, events: seq<Event>, k: nat, n: nat)
    requires 0 < n <= |events|
    ensures var s, e := At(g, events, n - 1), events[n - 1];
      TimeOfAll(g, events, k, n) ==
        if Next(s, e).epoch != s.epoch then 0.0 else TimeOfAll(g, events, k, n - 1) + Shares(s, e, k)
  {
    hide At, Next, Share;
    if k > 0 {
      TimesGrow(g, events, k - 1, n);
    }
  }

  lemma {:induction false} LateRequests(g: Gov, events: seq<Event>, k: nat, n: nat)
    requires n <= |events| && k >= |At(g, events, n).requests|
    ensures TimeOfAll(g, events, k, n) == TimeOfAll(g, events, |At(g, events, n).requests|, n)
  {
    hide At, Next;
    if k > |At(g, events, n).requests| {
      LateRequests(g, events, k - 1, n);
      LateRequest(g, events, k - 1, n);
    }
  }

  lemma {:induction false} LateRequest(g: Gov, events: seq<Event>, i: nat, n: nat)
    requires n <= |events| && i >= |At(g, events, n).requests|
    ensures TimeOfRequest(g, events, i, n) == 0.0
  {
    hide At, Next, ChargedTime;
    if n > 0 {
      AtNext(g, events, n - 1);
      Provenance.RequestsPersist(At(g, events, n - 1), events[n - 1]);
      LateRequest(g, events, i, n - 1);
    }
  }

  /** Over any run the aggregate's sequence-seconds are the decoding time of its requests in this epoch. */
  lemma {:induction false} ExposureByRequest(g: Gov, events: seq<Event>, n: nat)
    requires Agreed(g) && AllSeconds(g.core.log) == 0.0 && n <= |events|
    ensures var s := At(g, events, n);
      AllSeconds(s.core.log) == TimeOfAll(g, events, |s.requests|, n)
  {
    hide Agreed, Next, At, AllSeconds, ChargedTime, Total;
    if n == 0 {
      AtStart(g, events);
      NoTime(g, events, |g.requests|);
    } else {
      var s, e := At(g, events, n - 1), events[n - 1];
      ExposureByRequest(g, events, n - 1);
      AtNext(g, events, n - 1);
      EpochRises(g, events, n - 1, n - 1);
      var s' := Next(s, e);
      Provenance.RequestsPersist(s, e);
      TimesGrow(g, events, |s'.requests|, n);
      if s'.epoch != s.epoch {
        RotatedSeconds(s, e);
      } else {
        StepCharges(s, e);
        LateRequests(g, events, |s'.requests|, n - 1);
        SharesEnd(s, e, |s'.requests|);
        SharesCount(s, e, |s.requests|);
        assert s.requests[..|s.requests|] == s.requests;
        DecodingCounted(s);
      }
    }
  }

  lemma AtStart(g: Gov, events: seq<Event>)
    ensures At(g, events, 0) == g
  {
    assert events[..0] == [];
  }

  lemma {:induction false} NoTime(g: Gov, events: seq<Event>, k: nat)
    ensures TimeOfAll(g, events, k, 0) == 0.0
  {
    if k > 0 {
      NoTime(g, events, k - 1);
    }
  }

  lemma DecodingCounted(g: Gov)
    requires Agreed(g)
    ensures g.active == Total(DecodingW(), g.requests)
  {
  }

  lemma RotatedSeconds(g: Gov, e: Event)
    requires Agreed(g) && Next(g, e).epoch != g.epoch
    ensures AllSeconds(Next(g, e).core.log) == 0.0
  {
    hide Agreed, RefreshIdentity, AdmitRequest, UpdatePolicy, CommitBatch, Charges, Moved;
    if e.CommitCall? {
      CommitCharges(g, e);
    } else if e.AdmitCall? || e.PolicyCall? || e.RefreshCall? {
      RotatedBlank(g, e.now, e.current);
      RefreshSame(g, e.now, e.current);
      var (g1, r) := RefreshIdentity(g, e.now, e.current);
      if e.AdmitCall? {
        AdmitKeepsEpoch(g1, e.id, e.now, e.retracted, e.waiting, e.health);
        AdmitCharges(g1, e.id, e.now, e.retracted, e.waiting, e.health);
        IdleCharges(g1, AdmitRequest(g1, e.id, e.now, e.retracted, e.waiting, e.health).0.core);
      } else if e.PolicyCall? {
        PolicyLog(g1, e.epoch, e.revision, e.reference, e.maxWaiting, e.maxRunning);
      }
    } else {
      QuietCore(g, e);
    }
  }

  lemma IdleCharges(g: Gov, core: Core)
    ensures g.active == 0 && (Charges(g, core, 0.0) || Charges(g, core, Moved(g.core, core))) ==>
      AllSeconds(core.log) == AllSeconds(g.core.log)
  {
    assert 0 as real * Moved(g.core, core) == 0.0;
  }

  lemma RotatedBlank(g: Gov, now: real, current: int)
    ensures var g1 := RefreshIdentity(g, now, current).0;
      g1.epoch != g.epoch ==> AllSeconds(g1.core.log) == 0.0 && g1.active == 0
  {
  }

  // ---------- Whose requests ----------

  /** In every native run only requests admitted in the current epoch have decoding time in it. */
  lemma {:induction false} TimeOfThisEpoch(g: Gov, events: seq<Event>, i: nat, n: nat)
    requires Owned(g) && Agreed(g) && NativeRun(g, events) && n <= |events|
    ensures TimeOfRequest(g, events, i, n) != 0.0 ==>
      i < |At(g, events, n).requests| && Provenance.OfEpoch(At(g, events, n).requests[i], At(g, events, n).epoch)
  {
    hide Agreed, Owned, Next, At, ChargedTime, NativeRun;
    if n > 0 {
      var s, e := At(g, events, n - 1), events[n - 1];
      TimeOfThisEpoch(g, events, i, n - 1);
      OwnedAt(g, events, n - 1);
      AtNext(g, events, n - 1);
      Provenance.RequestsPersist(s, e);
      if i < |s.requests| && Decoding(s.requests[i]) {
        DecodingOfEpoch(s, i);
      }
    }
  }

  lemma OwnedAt(g: Gov, events: seq<Event>, n: nat)
    requires Owned(g) && Agreed(g) && NativeRun(g, events) && n <= |events|
    ensures Owned(At(g, events, n))
  {
    hide Owned, Agreed, NativeRun, Play;
    assert events[..n] + events[n..] == events;
    Hooks.PlayJoins(g, events[..n], events[n..]);
    RunOwned(g, events[..n]);
  }

  lemma DecodingOfEpoch(g: Gov, i: nat)
    requires Owned(g) && i < |g.requests| && Decoding(g.requests[i])
    ensures Provenance.OfEpoch(g.requests[i], g.epoch)
  {
    assert OwnedRequest(g.requests[i], g.epoch);
  }

  /** Over every native run: all exposure in the core is decoding time of requests admitted in the epoch. */
  lemma EpochExposure(g: Gov, events: seq<Event>)
    requires Owned(g) && Agreed(g) && NativeRun(g, events) && AllSeconds(g.core.log) == 0.0
    ensures var s, n := Play(g, events), |events|;
      AllSeconds(s.core.log) == TimeOfAll(g, events, |s.requests|, n) &&
      forall i: nat :: TimeOfRequest(g, events, i, n) != 0.0 ==>
        i < |s.requests| && Provenance.OfEpoch(s.requests[i], s.epoch)
  {
    hide Owned, Agreed, NativeRun, Play, TimeOfAll, TimeOfRequest;
    assert events[..|events|] == events;
    ExposureByRequest(g, events, |events|);
    forall i: nat
      ensures TimeOfRequest(g, events, i, |events|) != 0.0 ==>
        i < |Play(g, events).requests| && Provenance.OfEpoch(Play(g, events).requests[i], Play(g, events).epoch)
    {
      TimeOfThisEpoch(g, events, i, |events|);
    }
  }
}
