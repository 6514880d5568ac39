/** The whole system from its creation: a core, with or without a profile, and a scheduler over
    it for the same native maximum. What holds of every run of such a system. */
module System {
  import opened Wrappers
  import opened CoreSpec
  import opened CoreRuns
  import opened Scheduler
  import opened Ledgers
  import opened Joint
  import opened Conservation
  import opened Lifecycles
  import Adapter
  import Controller
  import DecodeTime
  import Drives
  import Exposure
  import HookRuns
  import Hooks
  import Ledger
  import PolicyLaws
  import Provenance
  import Sglang

  datatype Profile = NoProfile | Profile(now: real, ttl: real, cells: seq<ProfileCell>)

  datatype Config = Config(reference: real, nativeMax: nat, maxRunning: nat, maxWaiting: nat,
                           exploring: bool, identity: int, profile: Profile)

  /** Create the core, then the scheduler; an invalid configuration creates neither. */
  function Create(config: Config): Result<Gov> {
    var core :- CreateCore(config);
    Open(core, config.nativeMax, config.maxRunning, config.maxWaiting, config.exploring, config.identity)
  }

  /** Build the system in place: the controller, the scheduler around it, and the adapter. */
  method Build(config: Config) returns (r: Result<Sglang.SglangGovernor>)
    ensures match Create(config)
      case Err(e) => r == Err(e)
      case Ok(g) => r.Ok? && fresh(r.value) && r.value.scheduler.Valid() && r.value.scheduler.View() == g
  {
    hide Controller.State.Mirrored, Sound;
    var core: Controller.Governor;
    match config.profile {
      case NoProfile =>
        if config.nativeMax == 0 || config.reference < 0.0 {
          return Err(Invalid);
        }
        core := new Controller.Governor(config.reference, config.nativeMax);
      case Profile(now, ttl, cells) =>
        var made := Controller.Governor.WithProfile(config.reference, config.nativeMax, now, ttl, cells);
        if made.Err? {
          return Err(made.error);
        }
        core := made.value;
    }
    if !ValidLimits(config.nativeMax, config.maxRunning, config.maxWaiting) {
      return Err(Invalid);
    }
    CreatedCore(config);
    var scheduler := new Adapter.SchedulerGovernor(core, config.nativeMax, config.maxRunning, config.maxWaiting,
                                                   config.exploring, config.identity);
    var governor := new Sglang.SglangGovernor(scheduler);
    return Ok(governor);
  }

  /** A native request arrives and asks for admission. */
  method Submit(governor: Sglang.SglangGovernor, id: nat, input: nat, horizon: nat, now: real, current: int,
                waiting: Option<nat>, health: bool) returns (req: Adapter.NativeRequest, r: Result<Decision>)
    requires governor.scheduler.Valid() && id == |governor.scheduler.requests|
    modifies governor.scheduler, governor.scheduler.core
    ensures fresh(req) && governor.scheduler.Valid()
    ensures governor.scheduler.requests == old(governor.scheduler.requests) + [req]
    ensures (governor.scheduler.View(), r)
         == Hooks.RefreshThenAdmit(Next(old(governor.scheduler.View()), Arrive(input, horizon)), req.id, now, current,
                                   false, waiting, health)
  {
    hide Adapter.SchedulerGovernor.Valid, Hooks.RefreshThenAdmit;
    var scheduler := governor.scheduler;
    req := new Adapter.NativeRequest(id, input, horizon);
    scheduler.Arrive(req);
    r := governor.AdmitRequest(req, now, current, false, waiting, health);
  }

  function CreateCore(config: Config): Result<Core> {
    match config.profile
    case NoProfile => New(config.reference, config.nativeMax)
    case Profile(now, ttl, cells) => NewWithProfile(config.reference, config.nativeMax, now, ttl, cells)
  }

  lemma CreatedCore(config: Config)
    requires CreateCore(config).Ok?
    ensures var c := CreateCore(config).value;
      c.active == 0 && !c.quarantined && c.maxRunning == config.nativeMax && c.log == Ledger.Blank && c.surface == map[]
  {
  }

  /** Every invariant of the earlier modules holds at creation. */
  lemma CreatedSound(config: Config)
    requires Create(config).Ok?
    ensures var g := Create(config).value;
      Agreed(g) && Conserved(Begin(g)) && Budgeted(Begin(g)) && Owned(g) && Gap(g) == 0.0 &&
      g.outstanding == 0 && g.nativeMax == config.nativeMax
  {
    hide Sound, Conserved, Agreed;
    if config.profile.NoProfile? {
      NewSound(config.reference, config.nativeMax);
    } else {
      NewWithProfileSound(config.reference, config.nativeMax, config.profile.now, config.profile.ttl,
                          config.profile.cells);
    }
    var g := Create(config).value;
    OpenAgreed(g.core, config.nativeMax, config.maxRunning, config.maxWaiting, config.exploring, config.identity);
    BeginConserved(g.core, config.nativeMax, config.maxRunning, config.maxWaiting, config.exploring, config.identity);
    NoSurface(Size(config.nativeMax));
  }

  /** Over every run of every system: both sides count the same active sequences, the ledgers count the
      unreleased reservations, and admission stays within the native maximum plus three. */
  lemma EveryRunAgrees(config: Config, events: seq<Event>)
    requires Create(config).Ok?
    ensures var g := Play(Create(config).value, events);
      g.core.active == g.active == Total(DecodingW(), g.requests) == Sum4(g.activeCounts) &&
      g.core.quarantined == g.dirty && (g.healthOutstanding > 0 ==> g.dirty) &&
      g.outstanding == Total(HeldW(), g.requests) <= config.nativeMax + MAX_WAITING_LIMIT
  {
    hide Agreed, Sound, PendingOk, AllProgressOk, Play, Total;
    CreatedSound(config);
    RunAgreed(Create(config).value, events);
    NeverAboveNativeLimit(Create(config).value, events);
    CountsOf(Play(Create(config).value, events));
  }

  /** Over every run of every system the policy in force is the configured one as the accepted changes left it, and
      the identity is the one given at the latest rotation, or the configured one. */
  lemma EveryRunHoldsItsPolicy(config: Config, events: seq<Event>)
    requires Create(config).Ok?
    ensures var g := Create(config).value;
      var configured := PolicyLaws.Policy(config.maxRunning, config.maxWaiting, config.reference, 1);
      PolicyLaws.PolicyOf(Play(g, events)) == PolicyLaws.LatestPolicy(g, events, configured) &&
      Play(g, events).identity == PolicyLaws.LatestIdentity(g, events, config.identity)
  {
    hide Agreed, Sound, Play;
    CreatedSound(config);
    PolicyLaws.PolicyInForce(Create(config).value, events);
    PolicyLaws.IdentityInForce(Create(config).value, events);
  }

  /** Every decoding request is in exactly one class. */
  lemma {:induction false} ClassesPartition(rs: seq<Request>)
    ensures Total(DecodingW(), rs) ==
      Total(DecodingIn(0), rs) + Total(DecodingIn(1), rs) + Total(DecodingIn(2), rs) + Total(DecodingIn(3), rs)
  {
    if rs != [] {
      ClassesPartition(rs[..|rs| - 1]);
    }
  }

  lemma CountsOf(g: Gov)
    requires Agreed(g)
    ensures g.core.active == g.active == Total(DecodingW(), g.requests) == Sum4(g.activeCounts)
    ensures g.core.quarantined == g.dirty && (g.healthOutstanding > 0 ==> g.dirty)
    ensures g.outstanding == Total(HeldW(), g.requests)
  {
    hide Sound, PendingOk;
    ClassesPartition(g.requests);
  }

  /** Over every run of every system: tokens in the core, pending and discarded are the tokens decoded after
      each request's first, and the core's two accounts hold the same tokens. */
  lemma EveryRunConserves(config: Config, events: seq<Event>)
    requires Create(config).Ok?
    ensures var tr := TPlay(Begin(Create(config).value), events);
      tr.delivered + PendingSum(tr.g.pending, Size(tr.g.nativeMax)) + tr.dropped == Total(EarnedW(), tr.g.requests) &&
      tr.dropped >= 0 &&
      AllTokens(tr.g.core.log) == SurfaceTokens(tr.g.core.surface, Size(tr.g.nativeMax)) <= tr.delivered &&
      SurfaceSeconds(tr.g.core.surface, Size(tr.g.nativeMax)) + Owed(tr.g) <= AllSeconds(tr.g.core.log)
  {
    hide Agreed, Linked, TPlay, Total, AllTokens, AllSeconds, SurfaceTokens, SurfaceSeconds, PendingSum;
    CreatedSound(config);
    RunConserved(Begin(Create(config).value), events);
    LinkedOf(TPlay(Begin(Create(config).value), events).g);
    LinkedMax(TPlay(Begin(Create(config).value), events).g);
  }

  /** Over every run of every system with no quarantine, the surface is charged all exposure up to the last commit. */
  lemma EveryCleanRunCharges(config: Config, events: seq<Event>)
    requires Create(config).Ok?
    ensures var g := Play(Create(config).value, events);
      CleanRun(Create(config).value, events) ==>
        AllSeconds(g.core.log) == SurfaceSeconds(g.core.surface, Size(g.nativeMax)) + Owed(g)
  {
    hide Conserved, Agreed, Play, TPlay, CleanRun, AllSeconds, SurfaceSeconds, Owed, Gap;
    CreatedSound(config);
    PlayOfTrace(Begin(Create(config).value), events);
    CleanRunChargesAllExposure(Begin(Create(config).value), events);
  }

  /** Over every run of every system under the native caller: what decodes or is checked holds a reservation
      of the current epoch, each its own. */
  lemma EveryNativeRunSeparates(config: Config, events: seq<Event>)
    requires Create(config).Ok?
    ensures var g := Play(Create(config).value, events);
      NativeRun(Create(config).value, events) ==>
        g.active + g.healthOutstanding <= g.outstanding &&
        forall i :: 0 <= i < |g.requests| && (Held(g.requests[i]) || Decoding(g.requests[i])) ==>
          g.requests[i].reservation.Some? && g.requests[i].reservation.value.epoch == g.epoch
  {
    hide Agreed, Owned, Play, NativeRun;
    CreatedSound(config);
    if NativeRun(Create(config).value, events) {
      EpochSeparation(Create(config).value, events);
    }
  }

  /** Over every run of every system under the native caller, the core holds and awaits only tokens of requests
      admitted in the current epoch. */
  lemma EveryNativeRunOwnsItsTokens(config: Config, events: seq<Event>)
    requires Create(config).Ok?
    ensures var g := Play(Create(config).value, events);
      NativeRun(Create(config).value, events) ==>
        AllTokens(g.core.log) + PendingSum(g.pending, Size(g.nativeMax))
          <= Total(Provenance.EarnedInW(g.epoch), g.requests)
  {
    hide Conserved, Agreed, Owned, Play, NativeRun, AllTokens, PendingSum;
    CreatedPure(config);
    if NativeRun(Create(config).value, events) {
      Provenance.EpochTokens(Create(config).value, events);
    }
  }

  /** Over every run of every system, for every cell: what it gained since Decode last began, and what awaits it, this
      run produced for it; all that it holds, this epoch produced for it. */
  lemma EveryRunKeepsCells(config: Config, events: seq<Event>, k: Key)
    requires Create(config).Ok?
    ensures var bk := Provenance.BPlay(Provenance.OpenBook(Create(config).value, k), events, k);
      bk.g == Play(Create(config).value, events) &&
      (Provenance.CellTokens(bk.g.core, k) - bk.runBase) + PendingAt(bk.g.pending, k) <= bk.runProduced &&
      Provenance.CellTokens(bk.g.core, k) + PendingAt(bk.g.pending, k) <= bk.produced &&
      (PendingAt(bk.g.pending, k) > 0 ==> bk.oldest == bk.run)
  {
    hide Agreed, Play, Provenance.BPlay, Provenance.CellTokens, Owned, Conserved;
    CreatedSound(config);
    Provenance.PendingStaysInRun(Create(config).value, events, k);
  }

  /** Over every run of every system the aggregate's exposure is what the surface was charged, what is owed, and
      what was dropped since the epoch began; the surface misses none exactly when nothing owed was dropped. */
  lemma EveryRunChargesExactly(config: Config, events: seq<Event>)
    requires Create(config).Ok?
    ensures var g0 := Create(config).value;
      var g := Play(g0, events);
      var charged := SurfaceSeconds(g.core.surface, Size(g.nativeMax));
      AllSeconds(g.core.log) == charged + Owed(g) + Exposure.Unmet(g0, events, |events|) &&
      (AllSeconds(g.core.log) == charged + Owed(g) <==> Exposure.NothingOwedDropped(g0, events, |events|))
  {
    hide Conserved, Agreed, Play, AllSeconds, SurfaceSeconds, Owed, Gap, Exposure.Unmet, Exposure.NothingOwedDropped;
    CreatedSound(config);
    Exposure.ExposureExactly(Create(config).value, events);
  }

  /** Over every honest run of hooks of every system: what decodes or is checked holds its own reservation of the
      current epoch, and the core holds and awaits only tokens of requests admitted in it. */
  lemma EveryHonestRunSeparates(config: Config, hooks: seq<HookRuns.Hook>)
    requires Create(config).Ok?
    ensures var g0 := Create(config).value;
      var g := HookRuns.AfterAll(g0, hooks);
      HookRuns.HonestRun(g0, hooks) ==>
        g.active + g.healthOutstanding <= g.outstanding &&
        (forall i :: 0 <= i < |g.requests| && (Held(g.requests[i]) || Decoding(g.requests[i])) ==>
          g.requests[i].reservation.Some? && g.requests[i].reservation.value.epoch == g.epoch) &&
        AllTokens(g.core.log) + PendingSum(g.pending, Size(g.nativeMax))
          <= Total(Provenance.EarnedInW(g.epoch), g.requests)
  {
    hide Conserved, Agreed, Owned, HookRuns.AfterAll, HookRuns.HonestRun, AllTokens, PendingSum;
    CreatedPure(config);
    if HookRuns.HonestRun(Create(config).value, hooks) {
      HookRuns.HonestRunSeparates(Create(config).value, hooks);
    }
  }

  lemma CreatedPure(config: Config)
    requires Create(config).Ok?
    ensures Provenance.EpochPure(Begin(Create(config).value))
  {
    hide Conserved, Agreed, Owned;
    CreatedSound(config);
    assert Create(config).value.requests == [];
  }

  /** Over every honest run of hooks of every system all exposure in the core is decoding time of requests admitted in
      the current epoch. */
  lemma EveryHonestRunOwnsItsExposure(config: Config, hooks: seq<HookRuns.Hook>)
    requires Create(config).Ok?
    ensures var g0 := Create(config).value;
      var g, calls := HookRuns.AfterAll(g0, hooks), HookRuns.AllCalls(g0, hooks);
      HookRuns.HonestRun(g0, hooks) ==>
        AllSeconds(g.core.log) == DecodeTime.TimeOfAll(g0, calls, |g.requests|, |calls|) &&
        forall i: nat :: DecodeTime.TimeOfRequest(g0, calls, i, |calls|) != 0.0 ==>
          i < |g.requests| && Provenance.OfEpoch(g.requests[i], g.epoch)
  {
    hide Conserved, Agreed, Owned, HookRuns.AfterAll, HookRuns.HonestRun, AllSeconds, HookRuns.AllCalls, Play,
      DecodeTime.TimeOfAll, DecodeTime.TimeOfRequest, NativeRun;
    CreatedSound(config);
    CreatedBlank(config);
    var g0 := Create(config).value;
    if HookRuns.HonestRun(g0, hooks) {
      HookRuns.HooksAreRun(g0, hooks);
      HookRuns.HonestRunIsNative(g0, hooks);
      DecodeTime.EpochExposure(g0, HookRuns.AllCalls(g0, hooks));
    }
  }

  lemma CreatedBlank(config: Config)
    requires Create(config).Ok?
    ensures AllSeconds(Create(config).value.core.log) == 0.0
  {
    CreatedCore(config);
  }

  /** Over every run of every system the core's 60 s window holds at most 60.5 s of every native slot. */
  lemma EveryRunFitsItsWindow(config: Config, events: seq<Event>, now: real)
    requires Create(config).Ok?
    ensures var r := Snapshot(Play(Create(config).value, events).core, now);
      r.Ok? ==> 0.0 <= r.value.1.shortSeconds <= r.value.1.longSeconds <= config.nativeMax as real * 60.5
  {
    hide Agreed, PacedCore, Play, Conserved;
    CreatedSound(config);
    CreatedPaced(config);
    Drives.WindowWithinCapacity(Create(config).value, events, now);
  }

  lemma CreatedPaced(config: Config)
    requires Create(config).Ok?
    ensures PacedCore(Create(config).value.core)
  {
    hide PacedCore;
    if config.profile.NoProfile? {
      NewPaced(config.reference, config.nativeMax);
    } else {
      NewWithProfilePaced(config.reference, config.nativeMax, config.profile.now, config.profile.ttl,
                          config.profile.cells);
    }
  }
}
