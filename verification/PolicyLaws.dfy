/** Policy and identity: when a change is accepted, what it installs, and what is in force after any run. */
module PolicyLaws {
  import opened Wrappers
  import opened Ticks
  import opened CoreSpec
  import opened CoreRuns
  import opened Scheduler
  import opened Ledgers
  import opened Joint
  import Conservation
  import CoreLaws
  import Drives
  import Lifecycles

  /** The mutable policy. */
  datatype Policy = Policy(maxRunning: nat, maxWaiting: nat, reference: real, revision: nat)

  function PolicyOf(g: Gov): Policy {
    Policy(g.maxRunning, g.maxWaiting, g.core.reference, g.core.revision)
  }

  /** The fields a change gives, if any. */
  datatype Change = Change(reference: Option<real>, maxWaiting: Option<int>, maxRunning: Option<int>)

  predicate Fitting(g: Gov, change: Change) {
    (change.reference.Some? || change.maxWaiting.Some? || change.maxRunning.Some?) &&
    (change.maxRunning.Some? ==> 1 <= change.maxRunning.value <= g.nativeMax) &&
    (change.maxWaiting.Some? ==> 0 <= change.maxWaiting.value <= 3) &&
    (change.reference.Some? ==> change.reference.value >= 0.0)
  }

  /** The policy a change leaves: what it gives is installed, what it does not is kept, one revision on. */
  ghost predicate Installs(p: Policy, change: Change, q: Policy) {
    q.revision == p.revision + 1 &&
    q.maxRunning == (if change.maxRunning.Some? then change.maxRunning.value else p.maxRunning) &&
    q.maxWaiting == (if change.maxWaiting.Some? then change.maxWaiting.value else p.maxWaiting) &&
    q.reference == (if change.reference.Some? then change.reference.value else p.reference)
  }

  /** A policy change is accepted exactly when it fits, names the epoch and the revision, and there is a next revision;
      then both sides have it, and nothing else changes but that a Prefill preference ends. Refused, nothing does. */
  lemma PolicyLaw(g: Gov, epoch: nat, revision: nat, reference: Option<real>,
                  maxWaiting: Option<int>, maxRunning: Option<int>)
    requires Linked(g)
    ensures var (g', r) := UpdatePolicy(g, epoch, revision, reference, maxWaiting, maxRunning);
      var change := Change(reference, maxWaiting, maxRunning);
      var current := epoch == g.epoch && revision == g.core.revision;
      (r.Ok? <==> Fitting(g, change) && current && g.core.revision + 1 < U64) &&
      (r == Err(Conflict) <==> Fitting(g, change) && !current) && (r.Err? ==> r.error != Internal && g' == g) &&
      (r.Ok? ==>
        Installs(PolicyOf(g), change, PolicyOf(g')) &&
        g' == g.(maxRunning := g'.maxRunning, maxWaiting := g'.maxWaiting,
                 core := g.core.(reference := g'.core.reference, revision := g'.core.revision, preferenceUntil := 0.0)))
  {
    hide Sound, PendingOk;
    CoreLaws.ReferenceLaw(g.core, revision, GetOr(reference, g.core.reference));
    SoundReference(g.core);
  }

  lemma SoundReference(c: Core)
    ensures Sound(c) ==> c.reference >= 0.0
  {
  }

  // ---------- Identity ----------

  /** A refresh rotates exactly when the identity changed or is draining and nothing is outstanding or decoding, at a
      valid time; the new epoch has the identity given, is not paused, and has learnt nothing. Otherwise a changed
      identity only pauses admission, and the same one changes nothing. */
  lemma RefreshLaw(g: Gov, now: real, current: int)
    requires Linked(g)
    ensures var (g', r) := RefreshIdentity(g, now, current);
      var due := (g.paused || current != g.identity) && g.outstanding == 0 && g.active == 0;
      (r == Ok(true) <==> due && 0.0 <= now < MAX_CLOCK) && (r.Err? <==> due && !(0.0 <= now < MAX_CLOCK)) &&
      (r.Err? ==> r == Err(Invalid) && g' == g) &&
      (r == Ok(false) ==> g' == g.(paused := g.paused || current != g.identity)) &&
      (r == Ok(true) ==>
        g'.identity == current && !g'.paused && g'.epoch == g.epoch + 1 && g'.pending == map[] && !g'.dirty &&
        g'.surfaceTime == Some(now) && StartSurfaceEpoch(g.core, now, 0) == Ok(g'.core) &&
        g' == g.(core := g'.core, identity := current, paused := false, pending := map[], surfaceTime := Some(now),
                 dirty := false, epoch := g.epoch + 1))
  {
    hide Sound, PendingOk;
  }

  /** Asking again with the identity just adopted is answered no, and changes nothing. */
  lemma RefreshTwice(g: Gov, now: real, current: int, later: real)
    requires Linked(g) && RefreshIdentity(g, now, current).1 == Ok(true)
    ensures var g' := RefreshIdentity(g, now, current).0; RefreshIdentity(g', later, current) == (g', Ok(false))
  {
    hide Linked;
    RefreshLaw(g, now, current);
  }

  // ---------- What is in force after a run ----------

  /** The identity a call gives, if it refreshes. */
  function Given(e: Event): Option<int> {
    match e
    case AdmitCall(_, _, current, _, _, _) => Some(current)
    case PolicyCall(_, current, _, _, _, _, _) => Some(current)
    case RefreshCall(_, current) => Some(current)
    case _ => None
  }

  /** The identity given at the latest rotation of a run, or the one before it. */
  ghost function LatestIdentity(g: Gov, events: seq<Event>, identity: int): int
    decreases |events|
  {
    if events == [] then identity
    else
      var g', e := Next(g, events[0]), events[0];
      LatestIdentity(g', events[1..],
                     if g'.epoch != g.epoch && Given(e).Some? then Given(e).value else identity)
  }

  lemma RefreshAdopts(g: Gov, now: real, current: int)
    ensures var g' := RefreshIdentity(g, now, current).0;
      g'.identity == if g'.epoch != g.epoch then current else g.identity
  {
  }

  lemma AdoptStep(g: Gov, e: Event)
    requires Agreed(g)
    ensures Next(g, e).identity ==
      if Next(g, e).epoch != g.epoch && Given(e).Some? then Given(e).value else g.identity
    ensures Next(g, e).epoch != g.epoch ==> Given(e).Some?
  {
    hide RefreshIdentity, AdmitRequest, UpdatePolicy, CommitBatch, Agreed;
    match e
    case AdmitCall(id, now, current, retracted, waiting, health) =>
      RefreshAdopts(g, now, current);
      AdmitKeepsIdentity(RefreshIdentity(g, now, current).0, id, now, retracted, waiting, health);
    case PolicyCall(now, current, epoch, revision, reference, maxWaiting, maxRunning) =>
      RefreshAdopts(g, now, current);
      PolicyKeepsIdentity(RefreshIdentity(g, now, current).0, epoch, revision, reference, maxWaiting, maxRunning);
    case RefreshCall(now, current) => RefreshAdopts(g, now, current);
    case CommitCall(updates, now, quarantine) =>
      if CommitBatch(g, updates, now, quarantine).1.Ok? {
        CommitPublishes(g, updates, now, quarantine);
      } else {
        RefusedCommitKeeps(g, updates, now, quarantine);
      }
    case _ => QuietKeepsIdentity(g, e);
  }

  lemma AdmitKeepsIdentity(g: Gov, id: nat, now: real, retracted: bool, waiting: Option<nat>, health: bool)
    ensures var g' := AdmitRequest(g, id, now, retracted, waiting, health).0;
      g'.identity == g.identity && g'.epoch == g.epoch && g'.maxRunning == g.maxRunning && g'.maxWaiting == g.maxWaiting
  {
    hide AdmitFresh;
    if AdmitRequest(g, id, now, retracted, waiting, health).0 != g {
      AdmitFreshCases(g, id, now, waiting, health);
    }
  }

  lemma PolicyKeepsIdentity(g: Gov, epoch: nat, revision: nat, reference: Option<real>,
                            maxWaiting: Option<int>, maxRunning: Option<int>)
    ensures var g' := UpdatePolicy(g, epoch, revision, reference, maxWaiting, maxRunning).0;
      g'.identity == g.identity && g'.epoch == g.epoch
  {
    hide UpdateReference;
  }

  lemma QuietKeepsIdentity(g: Gov, e: Event)
    requires e.Arrive? || e.ReleaseCall? || e.AttachCall? || e.ReadCall? || e.PrefillCall? || e.PreferCall?
    ensures var g' := Next(g, e);
      g'.identity == g.identity && g'.epoch == g.epoch && g'.maxRunning == g.maxRunning && g'.maxWaiting == g.maxWaiting
  {
    hide Advance, Prefill, Choose;
  }

  /** In every run the identity in force is the one given at the latest rotation. */
  lemma {:induction false} IdentityInForce(g: Gov, events: seq<Event>)
    requires Agreed(g)
    ensures Play(g, events).identity == LatestIdentity(g, events, g.identity)
    decreases |events|
  {
    hide Next, Agreed;
    if events != [] {
      AdoptStep(g, events[0]);
      NextAgreed(g, events[0]);
      IdentityInForce(Next(g, events[0]), events[1..]);
    }
  }

  /** While every refresh gives the identity in force and admission is not paused, no refresh rotates, pauses, or
      changes anything: the system stays in its epoch. */
  lemma {:induction false} SameIdentityStays(g: Gov, events: seq<Event>, later: real)
    requires Agreed(g) && !g.paused && forall i :: 0 <= i < |events| && Given(events[i]).Some? ==>
      Given(events[i]).value == g.identity
    ensures var s := Play(g, events);
      s.epoch == g.epoch && !s.paused && s.identity == g.identity &&
      RefreshIdentity(s, later, g.identity) == (s, Ok(false))
    decreases |events|
  {
    hide Next, Agreed;
    if events != [] {
      SameIdentityStep(g, events[0]);
      NextAgreed(g, events[0]);
      SameIdentityStays(Next(g, events[0]), events[1..], later);
    }
  }

  lemma SameIdentityStep(g: Gov, e: Event)
    requires Agreed(g) && !g.paused && (Given(e).Some? ==> Given(e).value == g.identity)
    ensures var g' := Next(g, e); g'.epoch == g.epoch && !g'.paused && g'.identity == g.identity
  {
    hide AdmitRequest, UpdatePolicy, CommitBatch, Agreed;
    match e
    case AdmitCall(id, now, current, retracted, waiting, health) =>
      AdmitKeepsIdentity(g, id, now, retracted, waiting, health);
      Lifecycles.AdmitKeepsPause(g, id, now, retracted, waiting, health);
    case PolicyCall(now, current, epoch, revision, reference, maxWaiting, maxRunning) =>
      PolicyKeepsIdentity(g, epoch, revision, reference, maxWaiting, maxRunning);
      PolicyKeepsPause(g, epoch, revision, reference, maxWaiting, maxRunning);
    case CommitCall(updates, now, quarantine) =>
      if CommitBatch(g, updates, now, quarantine).1.Ok? {
        CommitPublishes(g, updates, now, quarantine);
      } else {
        RefusedCommitKeeps(g, updates, now, quarantine);
      }
    case _ =>
      if !e.RefreshCall? {
        QuietKeepsIdentity(g, e);
        QuietKeepsPause(g, e);
      }
  }

  lemma PolicyKeepsPause(g: Gov, epoch: nat, revision: nat, reference: Option<real>,
                         maxWaiting: Option<int>, maxRunning: Option<int>)
    ensures UpdatePolicy(g, epoch, revision, reference, maxWaiting, maxRunning).0.paused == g.paused
  {
    hide UpdateReference;
  }

  lemma QuietKeepsPause(g: Gov, e: Event)
    requires e.Arrive? || e.ReleaseCall? || e.AttachCall? || e.ReadCall? || e.PrefillCall? || e.PreferCall?
    ensures Next(g, e).paused == g.paused
  {
    hide Advance, Prefill, Choose;
  }

  /** A policy call is accepted, as its refresh leaves the scheduler. */
  ghost predicate Accepts(g: Gov, e: Event) {
    e.PolicyCall? &&
    var (g1, r) := RefreshIdentity(g, e.now, e.current);
    r.Ok? && !g1.paused && Fitting(g1, Change(e.reference, e.maxWaiting, e.maxRunning)) &&
    e.epoch == g1.epoch && e.revision == g1.core.revision && g1.core.revision + 1 < U64
  }

  /** The policy of the latest accepted change of a run, each field given installed and each other kept. */
  ghost function LatestPolicy(g: Gov, events: seq<Event>, p: Policy): Policy
    decreases |events|
  {
    if events == [] then p
    else
      var e := events[0];
      LatestPolicy(Next(g, e), events[1..],
                   if Accepts(g, e)
                   then Policy(if e.maxRunning.Some? && e.maxRunning.value >= 0 then e.maxRunning.value
                               else p.maxRunning,
                               if e.maxWaiting.Some? && e.maxWaiting.value >= 0 then e.maxWaiting.value
                               else p.maxWaiting,
                               if e.reference.Some? then e.reference.value else p.reference, p.revision + 1)
                   else p)
  }

  predicate KeepsPolicy(c: Core, d: Core) {
    d.reference == c.reference && d.revision == c.revision
  }

  lemma ReadKeepsPolicy(c: Core, op: Op)
    requires op.DoSnapshot? || op.DoAdmit? || op.DoExport? || op.DoChoose?
    ensures KeepsPolicy(c, Step(c, op).0)
  {
    hide ViewAt, Weighs, Duration, Decide, ExportAll;
  }

  lemma ObservationKeepsPolicy(c: Core, op: Op)
    requires op.DoObserve? || op.DoObserveBatch? || op.DoObserveReplacement? || op.DoObserveSurface?
    ensures KeepsPolicy(c, Step(c, op).0)
  {
    hide Observe, ObserveBatch, ObserveReplacement, ObserveCell;
    if Step(c, op).1.Done? {
      match op
      case DoObserve(now, delta, after) => ObserveEffect(c, now, delta, after);
      case DoObserveBatch(now, delta, seconds, key, after) => BatchEffect(c, now, delta, seconds, key, after);
      case DoObserveReplacement(now, delta, seconds, key, after) =>
        ReplacementEffect(c, now, delta, seconds, key, after);
      case DoObserveSurface(_, _, _, _) =>
    }
  }

  lemma OtherKeepsPolicy(c: Core, op: Op)
    requires op.DoQuarantine? || op.DoPrefill? || op.DoStartEpoch?
    ensures KeepsPolicy(c, Step(c, op).0)
  {
  }

  /** Core calls other than a reference change keep the policy. */
  lemma OpKeepsPolicy(c: Core, op: Op)
    requires !op.DoUpdateReference?
    ensures KeepsPolicy(c, Step(c, op).0)
  {
    hide Step, KeepsPolicy;
    if op.DoObserve? || op.DoObserveBatch? || op.DoObserveReplacement? || op.DoObserveSurface? {
      ObservationKeepsPolicy(c, op);
    } else if op.DoQuarantine? || op.DoPrefill? || op.DoStartEpoch? {
      OtherKeepsPolicy(c, op);
    } else {
      ReadKeepsPolicy(c, op);
    }
  }

  lemma {:induction false} OpsKeepPolicy(c: Core, ops: seq<Op>)
    requires forall i :: 0 <= i < |ops| ==> !ops[i].DoUpdateReference?
    ensures Run(c, ops).reference == c.reference && Run(c, ops).revision == c.revision
    decreases |ops|
  {
    hide Step;
    if ops != [] {
      OpKeepsPolicy(c, ops[0]);
      OpsKeepPolicy(Step(c, ops[0]).0, ops[1..]);
    }
  }

  lemma RefreshKeepsPolicy(g: Gov, now: real, current: int)
    ensures PolicyOf(RefreshIdentity(g, now, current).0) == PolicyOf(g)
  {
  }

  lemma AdmitKeepsPolicy(g: Gov, id: nat, now: real, retracted: bool, waiting: Option<nat>, health: bool)
    ensures PolicyOf(AdmitRequest(g, id, now, retracted, waiting, health).0) == PolicyOf(g)
  {
    hide AdmitRequest;
    AdmitKeepsIdentity(g, id, now, retracted, waiting, health);
    Drives.AdmitFollows(g, id, now, retracted, waiting, health);
    OpsKeepPolicy(g.core, Drives.AdmitOps(g, id, now, retracted, waiting, health));
  }

  lemma CommitKeepsPolicy(g: Gov, updates: seq<Update>, now: real, quarantine: bool)
    ensures PolicyOf(CommitBatch(g, updates, now, quarantine).0) == PolicyOf(g)
  {
    hide CommitBatch, Propose;
    if CommitBatch(g, updates, now, quarantine).1.Ok? {
      CommitPublishes(g, updates, now, quarantine);
    } else {
      RefusedCommitKeeps(g, updates, now, quarantine);
    }
    Drives.CommitFollows(g, updates, now, quarantine);
    OpsKeepPolicy(g.core, Drives.CommitOps(g, updates, now, quarantine));
  }

  lemma QuietKeepsPolicy(g: Gov, e: Event)
    requires e.Arrive? || e.ReleaseCall? || e.AttachCall? || e.ReadCall? || e.PrefillCall? || e.PreferCall?
    ensures PolicyOf(Next(g, e)) == PolicyOf(g)
  {
    hide Next;
    QuietKeepsIdentity(g, e);
    Drives.CoreFollows(g, e);
    OpsKeepPolicy(g.core, Drives.CoreCalls(g, e));
  }

  lemma PolicyStep(g: Gov, e: Event)
    requires Agreed(g)
    ensures if Accepts(g, e) then
              Installs(PolicyOf(g), Change(e.reference, e.maxWaiting, e.maxRunning), PolicyOf(Next(g, e))) &&
              (e.maxRunning.Some? ==> e.maxRunning.value >= 0) && (e.maxWaiting.Some? ==> e.maxWaiting.value >= 0)
            else PolicyOf(Next(g, e)) == PolicyOf(g)
  {
    hide RefreshIdentity, AdmitRequest, UpdatePolicy, CommitBatch, Agreed;
    match e
    case AdmitCall(id, now, current, retracted, waiting, health) =>
      RefreshKeepsPolicy(g, now, current);
      AdmitKeepsPolicy(RefreshIdentity(g, now, current).0, id, now, retracted, waiting, health);
    case PolicyCall(now, current, epoch, revision, reference, maxWaiting, maxRunning) =>
      RefreshKeepsPolicy(g, now, current);
      RefreshAgreed(g, now, current);
      var g1 := RefreshIdentity(g, now, current).0;
      Conservation.LinkedOf(g1);
      PolicyLaw(g1, epoch, revision, reference, maxWaiting, maxRunning);
    case RefreshCall(now, current) => RefreshKeepsPolicy(g, now, current);
    case CommitCall(updates, now, quarantine) => CommitKeepsPolicy(g, updates, now, quarantine);
    case _ => QuietKeepsPolicy(g, e);
  }

  /** In every run the policy in force is that of the latest accepted changes. */
  lemma {:induction false} PolicyInForce(g: Gov, events: seq<Event>)
    requires Agreed(g)
    ensures PolicyOf(Play(g, events)) == LatestPolicy(g, events, PolicyOf(g))
    decreases |events|
  {
    hide Next, Agreed, Accepts;
    if events != [] {
      PolicyStep(g, events[0]);
      NextAgreed(g, events[0]);
      PolicyInForce(Next(g, events[0]), events[1..]);
    }
  }
}
