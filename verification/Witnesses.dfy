/** Concrete reachable states at which the exceptions to the general promises show. */
module Witnesses {
  import opened Wrappers
  import opened CoreSpec
  import opened CoreRuns
  import opened Scheduler
  import opened Joint
  import opened Conservation
  import opened System
  import Exposure
  import Hooks
  import Horizon
  import Ledger

  // ---------- Dropped exposure, for one system ----------

  /** One slot, no reference: a request is admitted, decodes its first token at time 0, and runs on. */
  const ONE_SLOT := Config(0.0, 1, 1, 0, false, 0, NoProfile)

  function FirstToken(): seq<Event> {
    [Arrive(10, 10), AdmitCall(0, 0.0, 0, false, None, false), AttachCall(0),
     CommitCall([Update(0, 1, false, 0)], 0.0, false)]
  }

  lemma OneSlotAdmits(g: Gov)
    requires Create(ONE_SLOT).Ok? && g == Next(Create(ONE_SLOT).value, Arrive(10, 10))
    ensures var g' := Next(g, AdmitCall(0, 0.0, 0, false, None, false));
      g' == Create(ONE_SLOT).value.(core := g'.core, requests := g'.requests, outstanding := 1,
                                    admitted := g'.admitted) &&
      g'.core == g.core.(lastTime := Some(0.0)) && g.core == New(0.0, 1).value && |g'.requests| == 1 &&
      g'.requests[0].progress.None? &&
      g'.requests[0].reservation.Some? && g'.requests[0].reservation.value.cls == 0
  {
    assert Advance(g.core, 0.0) == Ok(g.core.(lastTime := Some(0.0)));
    assert ProjectedClass(g, 0) == 0;
    assert Wanted(g, 0) == Key(1, 0);
  }

  /** The first result of the only request, at time 0. */
  lemma OneSlotDecodes(g: Gov)
    requires |g.requests| == 1 && g.requests[0].progress == Some(Progress(0, false, false, 0, None, false))
    requires g.active == 0 && g.activeCounts == NO_COUNTS && g.pending == map[] && g.surfaceTime.None? && !g.dirty
    requires g.healthOutstanding == 0 && g.core.lastTime == Some(0.0) && g.core.active == 0 && g.core.maxRunning == 1
    requires g.core.log == Ledger.Blank && !g.core.quarantined
    ensures var g' := Next(g, CommitCall([Update(0, 1, false, 0)], 0.0, false));
      g'.active == 1 && !g'.dirty && g'.healthOutstanding == 0 && !g'.core.quarantined &&
      g'.core.lastTime == Some(0.0) && g'.surfaceTime == Some(0.0)
  {
    hide Propose, Settle, Observe;
    OneSlotProposes(g);
    OneSlotObserves(g.core);
    var b := Propose(g.requests, [Update(0, 1, false, 0)], 0.0).value;
    SettleSilent(g, b, 0.0, 1, CountsAfter(g.activeCounts, b), map[], Key(1, 0));
  }

  lemma OneSlotProposes(g: Gov)
    requires |g.requests| == 1 && g.requests[0].progress == Some(Progress(0, false, false, 0, None, false))
    ensures var r := Propose(g.requests, [Update(0, 1, false, 0)], 0.0);
      r.Ok? && r.value.entering == [1, 0, 0, 0] && r.value.leaving == NO_COUNTS && r.value.total == 0 &&
      r.value.enteringDelta == 0
  {
    var updates := [Update(0, 1, false, 0)];
    assert updates[..0] == [];
    assert Propose(g.requests, updates[..0], 0.0) == Ok(Batch(NO_COUNTS, NO_COUNTS, 0, 0, g.requests, {}));
  }

  lemma OneSlotObserves(c: Core)
    requires c.lastTime == Some(0.0) && c.active == 0 && c.maxRunning == 1 && c.log == Ledger.Blank && !c.quarantined
    ensures var r := Observe(c, 0.0, 0, 1);
      r.Ok? && r.value.lastTime == Some(0.0) && !r.value.quarantined
  {
  }

  lemma OneSlotRuns()
    ensures Create(ONE_SLOT).Ok?
    ensures var g := Play(Create(ONE_SLOT).value, FirstToken());
      g.active == 1 && !g.dirty && g.healthOutstanding == 0 && !g.core.quarantined &&
      g.core.lastTime == Some(0.0) && g.surfaceTime == Some(0.0)
  {
    hide Next, Play;
    var g0 := Create(ONE_SLOT).value;
    var g1 := Next(g0, FirstToken()[0]);
    var g2 := Next(g1, FirstToken()[1]);
    var g3 := Next(g2, FirstToken()[2]);
    OneSlotAdmits(g1);
    OneSlotAttaches(g2);
    OneSlotDecodes(g3);
    Exposure.TwoCalls(g0, FirstToken()[0], FirstToken()[1]);
    Exposure.TwoCalls(g2, FirstToken()[2], FirstToken()[3]);
    Hooks.PlayJoins(g0, [FirstToken()[0], FirstToken()[1]], [FirstToken()[2], FirstToken()[3]]);
    assert FirstToken() == [FirstToken()[0], FirstToken()[1]] + [FirstToken()[2], FirstToken()[3]];
  }

  lemma OneSlotAttaches(g: Gov)
    requires |g.requests| == 1 && g.requests[0].progress.None?
    requires g.requests[0].reservation.Some? && g.requests[0].reservation.value.cls == 0
    ensures var g' := Next(g, AttachCall(0));
      g' == g.(requests := g'.requests) && |g'.requests| == 1 &&
      g'.requests[0].progress == Some(Progress(0, false, false, 0, None, false))
  {
  }

  /** There is a reachable state in which a read before a contaminated commit leaves exposure that the surface
      never gets: a second of one sequence. */
  lemma SomeExposureIsDropped()
    ensures Create(ONE_SLOT).Ok?
    ensures Gap(Play(Create(ONE_SLOT).value, FirstToken() + [ReadCall(1.0), CommitCall([], 1.0, true)])) >= 1.0
  {
    hide Next, Play, TPlay, Gap, Agreed, TokensMatch;
    OneSlotRuns();
    CreatedSound(ONE_SLOT);
    var g0 := Create(ONE_SLOT).value;
    PlayOfTrace(Begin(g0), FirstToken());
    RunConserved(Begin(g0), FirstToken());
    Exposure.ReadThenQuarantineDrops(TPlay(Begin(g0), FirstToken()), 1.0);
    Hooks.PlayJoins(g0, FirstToken(), [ReadCall(1.0), CommitCall([], 1.0, true)]);
  }

  // ---------- A read that a quarantine tells ----------

  /** One sequence decodes from time 0; a read at 1 before a quarantine at 1 shows in later outputs. */
  lemma SomeReadIsSeen()
    ensures New(50.0, 1).Ok? && Observe(New(50.0, 1).value, 0.0, 0, 1).Ok?
    ensures var c := Observe(New(50.0, 1).value, 0.0, 0, 1).value;
      Advance(c, 1.0).Ok? && Quarantine(c, 1.0, 1, true).Ok? && Quarantine(Advance(c, 1.0).value, 1.0, 1, true).Ok? &&
      exists ops: seq<Op> ::
        Outputs(Quarantine(Advance(c, 1.0).value, 1.0, 1, true).value, ops)
          != Outputs(Quarantine(c, 1.0, 1, true).value, ops)
  {
    var c0 := New(50.0, 1).value;
    NewSound(50.0, 1);
    OneObserved(c0);
    ObserveSound(c0, 0.0, 0, 1);
    var c := Observe(c0, 0.0, 0, 1).value;
    hide Sound, Quarantine, Observe, Outputs;
    Horizon.QuarantineSeesRead(c, 1.0, 1.0, 1, true);
  }

  lemma OneObserved(c: Core)
    requires c == New(50.0, 1).value
    ensures Observe(c, 0.0, 0, 1).Ok?
    ensures var c' := Observe(c, 0.0, 0, 1).value;
      c'.active == 1 && !c'.quarantined && c'.lastTime == Some(0.0) && c'.maxRunning == 1
  {
  }
}
