/** Whole runs as the native runtime makes them: hook after hook. An honest run of hooks is a run
    of calls by the native caller. */
module HookRuns {
  import opened Wrappers
  import opened Scheduler
  import opened Ledgers
  import opened Joint
  import opened Conservation
  import opened Lifecycles
  import opened Hooks
  import Provenance

  /** One entry of the native runtime, or of its operator, into the scheduler. */
  datatype Hook =
    | Arrives(input: nat, horizon: nat)
    | Admits(id: nat, now: real, current: int, retracted: bool, waiting: Option<nat>, health: bool)
    | RollsBack(id: nat)
    | Configures(now: real, current: int, epoch: nat, revision: nat, reference: Option<real>,
                 maxWaiting: Option<int>, maxRunning: Option<int>)
    | Inspects(now: real, current: int)
    | Results(reports: seq<Report>, now: real, current: int, extend: bool, launch: real)
    | Aborts(id: nat, now: real)
    | Prefers(now: real, decode: bool, prefill: bool, age: real)

  function RefreshThenRead(g: Gov, now: real, current: int): (Gov, Result<()>) {
    var (g1, refreshed) := RefreshIdentity(g, now, current);
    if refreshed.Err? then (g1, Err(refreshed.error)) else ReadCore(g1, now)
  }

  function After(g: Gov, h: Hook): Gov {
    match h
    case Arrives(input, horizon) => Next(g, Arrive(input, horizon))
    case Admits(id, now, current, retracted, waiting, health) =>
      RefreshThenAdmit(g, id, now, current, retracted, waiting, health).0
    case RollsBack(id) => ReleaseRequest(g, id).0
    case Configures(now, current, epoch, revision, reference, maxWaiting, maxRunning) =>
      RefreshThenUpdate(g, now, current, epoch, revision, reference, maxWaiting, maxRunning).0
    case Inspects(now, current) => RefreshThenRead(g, now, current).0
    case Results(reports, now, current, extend, launch) => AfterResult(g, reports, now, current, extend, launch).0
    case Aborts(id, now) => if id < |g.requests| then AbortEmitted(g, id, now).0 else g
    case Prefers(now, decode, prefill, age) => PreferDecode(g, now, decode, prefill, age).0
  }

  /** The calls a hook makes on the scheduler. */
  function CallsOf(g: Gov, h: Hook): seq<Event> {
    match h
    case Arrives(input, horizon) => [Arrive(input, horizon)]
    case Admits(id, now, current, retracted, waiting, health) =>
      [AdmitCall(id, now, current, retracted, waiting, health)]
    case RollsBack(id) => [ReleaseCall(id)]
    case Configures(now, current, epoch, revision, reference, maxWaiting, maxRunning) =>
      [PolicyCall(now, current, epoch, revision, reference, maxWaiting, maxRunning)]
    case Inspects(now, current) =>
      [RefreshCall(now, current)] + (if RefreshIdentity(g, now, current).1.Err? then [] else [ReadCall(now)])
    case Results(reports, now, current, extend, launch) => AfterResultCalls(g, reports, now, current, extend, launch)
    case Aborts(id, now) => if id < |g.requests| then AbortCalls(g, id, now) else []
    case Prefers(now, decode, prefill, age) => [PreferCall(now, decode, prefill, age)]
  }

  /** An admission is rolled back before its request has progress; results and aborts are of honest requests. */
  ghost predicate HonestHook(g: Gov, h: Hook) {
    match h
    case RollsBack(id) => id < |g.requests| ==> g.requests[id].progress.None?
    case Results(reports, _, _, _, _) => HonestBatch(g.requests, reports)
    case Aborts(id, _) => id < |g.requests| ==> Honest(g.requests[id])
    case _ => true
  }

  function AfterAll(g: Gov, hooks: seq<Hook>): Gov
    decreases |hooks|
  {
    if hooks == [] then g else AfterAll(After(g, hooks[0]), hooks[1..])
  }

  function AllCalls(g: Gov, hooks: seq<Hook>): seq<Event>
    decreases |hooks|
  {
    if hooks == [] then [] else CallsOf(g, hooks[0]) + AllCalls(After(g, hooks[0]), hooks[1..])
  }

  ghost predicate HonestRun(g: Gov, hooks: seq<Hook>)
    decreases |hooks|
  {
    hooks == [] || (HonestHook(g, hooks[0]) && HonestRun(After(g, hooks[0]), hooks[1..]))
  }

  /** Each hook is exactly its calls. */
  lemma HookIsRun(g: Gov, h: Hook)
    ensures After(g, h) == Play(g, CallsOf(g, h))
  {
    hide Next, Play, RefreshThenAdmit, RefreshThenUpdate, RefreshIdentity, AfterResult, AfterResultCalls, AbortEmitted,
      AbortCalls;
    NoCalls(g);
    match h
    case Admits(id, now, current, retracted, waiting, health) =>
      RefreshThenCalls(g, now, current);
      PlayOne(g, CallsOf(g, h)[0]);
    case Configures(now, current, epoch, revision, reference, maxWaiting, maxRunning) =>
      RefreshThenCalls(g, now, current);
      PlayOne(g, CallsOf(g, h)[0]);
    case Inspects(now, current) => InspectIsRun(g, now, current);
    case Results(reports, now, current, extend, launch) => AfterResultIsRun(g, reports, now, current, extend, launch);
    case Aborts(id, now) => if id < |g.requests| { AbortIsRun(g, id, now); }
    case _ =>
      PlayOne(g, CallsOf(g, h)[0]);
      OneCall(g, h);
  }

  lemma OneCall(g: Gov, h: Hook)
    requires h.Arrives? || h.RollsBack? || h.Prefers?
    ensures After(g, h) == Next(g, CallsOf(g, h)[0])
  {
  }

  lemma InspectIsRun(g: Gov, now: real, current: int)
    ensures RefreshThenRead(g, now, current).0 == Play(g, CallsOf(g, Inspects(now, current)))
  {
    hide RefreshIdentity, ReadCore;
    var g1 := RefreshIdentity(g, now, current).0;
    PlayOne(g, RefreshCall(now, current));
    PlayOne(g1, ReadCall(now));
    PlayJoins(g, [RefreshCall(now, current)], [ReadCall(now)]);
    assert [RefreshCall(now, current)] + [] == [RefreshCall(now, current)];
  }

  /** An honest hook makes only calls that the native caller may make. */
  lemma HookNative(g: Gov, h: Hook)
    requires Owned(g) && Agreed(g) && HonestHook(g, h)
    ensures NativeRun(g, CallsOf(g, h))
  {
    hide Owned, Agreed, AfterResultCalls, AbortCalls, HonestBatch, Honest, NativeRun;
    NoCalls(g);
    match h
    case Inspects(now, current) => InspectNative(g, now, current);
    case Results(reports, now, current, extend, launch) => AfterResultNative(g, reports, now, current, extend, launch);
    case Aborts(id, now) => if id < |g.requests| { AbortNative(g, id, now); }
    case _ => PlayOne(g, CallsOf(g, h)[0]);
  }

  lemma InspectNative(g: Gov, now: real, current: int)
    ensures NativeRun(g, CallsOf(g, Inspects(now, current)))
  {
    hide RefreshIdentity;
    PlayOne(g, RefreshCall(now, current));
    PlayOne(Next(g, RefreshCall(now, current)), ReadCall(now));
    PlayJoins(g, [RefreshCall(now, current)], [ReadCall(now)]);
    assert [RefreshCall(now, current)] + [] == [RefreshCall(now, current)];
  }

  /** A run of hooks is exactly the run of their calls, and an honest one a native run. */
  lemma {:induction false} HooksAreRun(g: Gov, hooks: seq<Hook>)
    ensures AfterAll(g, hooks) == Play(g, AllCalls(g, hooks))
    decreases |hooks|
  {
    hide After, CallsOf;
    NoCalls(g);
    if hooks != [] {
      HookIsRun(g, hooks[0]);
      HooksAreRun(After(g, hooks[0]), hooks[1..]);
      PlayJoins(g, CallsOf(g, hooks[0]), AllCalls(After(g, hooks[0]), hooks[1..]));
    }
  }

  lemma {:induction false} HonestRunIsNative(g: Gov, hooks: seq<Hook>)
    requires Owned(g) && Agreed(g) && HonestRun(g, hooks)
    ensures NativeRun(g, AllCalls(g, hooks))
    decreases |hooks|
  {
    hide After, CallsOf, HonestHook, Owned, Agreed;
    NoCalls(g);
    if hooks != [] {
      HookNative(g, hooks[0]);
      HookIsRun(g, hooks[0]);
      RunOwned(g, CallsOf(g, hooks[0]));
      HonestRunIsNative(After(g, hooks[0]), hooks[1..]);
      PlayJoins(g, CallsOf(g, hooks[0]), AllCalls(After(g, hooks[0]), hooks[1..]));
    }
  }

  /** Over every honest run of hooks: decoding requests and health checks are distinct outstanding ones of the
      current epoch, and all that the core holds or awaits was earned by requests of that epoch. */
  lemma HonestRunSeparates(g: Gov, hooks: seq<Hook>)
    requires Provenance.EpochPure(Begin(g)) && HonestRun(g, hooks)
    ensures var g' := AfterAll(g, hooks);
      g'.active + g'.healthOutstanding <= g'.outstanding &&
      (forall i :: 0 <= i < |g'.requests| && (Held(g'.requests[i]) || Decoding(g'.requests[i])) ==>
        g'.requests[i].reservation.Some? && g'.requests[i].reservation.value.epoch == g'.epoch) &&
      AllTokens(g'.core.log) + PendingSum(g'.pending, Size(g'.nativeMax))
        <= Total(Provenance.EarnedInW(g'.epoch), g'.requests)
  {
    hide Owned, Agreed, HonestRun, AfterAll, AllCalls, Play, NativeRun;
    HooksAreRun(g, hooks);
    HonestRunIsNative(g, hooks);
    EpochSeparation(g, AllCalls(g, hooks));
    Provenance.EpochTokens(g, AllCalls(g, hooks));
  }
}
