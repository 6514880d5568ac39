/** What becomes of exposure over any run: the surface is charged all that the aggregate holds, but for
    what is still owed and what health checks and contaminated commits dropped since the epoch began. */
module Exposure {
  import opened Wrappers
  import opened CoreSpec
  import opened Scheduler
  import opened Ledgers
  import opened Joint
  import opened Conservation
  import Hooks
  import Horizon
  import Ledger
  import Lifecycles
  import Ticks

  /** The state before the i-th call of a run. */
  function At(g: Gov, events: seq<Event>, i: nat): Gov
    requires i <= |events|
  {
    Play(g, events[..i])
  }

  lemma AtNext(g: Gov, events: seq<Event>, i: nat)
    requires i < |events|
    ensures At(g, events, i + 1) == Next(At(g, events, i), events[i])
  {
    hide Next;
    assert events[..i + 1] == events[..i] + [events[i]];
    Hooks.PlayJoins(g, events[..i], [events[i]]);
    Hooks.PlayOne(At(g, events, i), events[i]);
  }

  /** The exposure dropped in the first n calls, and since the epoch then current began. */
  ghost function Unmet(g: Gov, events: seq<Event>, n: nat): real
    requires n <= |events|
  {
    if n == 0 then 0.0
    else
      var s, e := At(g, events, n - 1), events[n - 1];
      if Next(s, e).epoch != s.epoch then 0.0
      else Unmet(g, events, n - 1) + (if DropsExposure(s, e) then Owed(s) else 0.0)
  }

  /** In the current epoch no call has dropped exposure that was owed. */
  ghost predicate NothingOwedDropped(g: Gov, events: seq<Event>, n: nat)
    requires n <= |events|
  {
    forall i :: 0 <= i < n && At(g, events, i).epoch == At(g, events, n).epoch &&
                DropsExposure(At(g, events, i), events[i]) ==>
      Owed(At(g, events, i)) == 0.0
  }

  lemma {:induction false} GapIsUnmet(g: Gov, events: seq<Event>, n: nat)
    requires Conserved(Begin(g)) && Gap(g) == 0.0 && n <= |events|
    ensures Gap(At(g, events, n)) == Unmet(g, events, n)
    ensures Conserved(TPlay(Begin(g), events[..n])) && TPlay(Begin(g), events[..n]).g == At(g, events, n)
  {
    hide Conserved, Gap, Next, DropsExposure, Owed, Play, TPlay;
    RunConserved(Begin(g), events[..n]);
    PlayOfTrace(Begin(g), events[..n]);
    if n == 0 {
      Hooks.NoCalls(g);
    } else {
      GapIsUnmet(g, events, n - 1);
      AtNext(g, events, n - 1);
      StepGap(TPlay(Begin(g), events[..n - 1]), events[n - 1]);
    }
  }

  lemma {:induction false} EpochRises(g: Gov, events: seq<Event>, i: nat, n: nat)
    requires Agreed(g) && i <= n <= |events|
    ensures At(g, events, i).epoch <= At(g, events, n).epoch
    ensures Agreed(At(g, events, n))
  {
    hide Agreed, Next, Play;
    RunAgreed(g, events[..n]);
    if i < n {
      EpochRises(g, events, i, n - 1);
      AtNext(g, events, n - 1);
      EpochStep(At(g, events, n - 1), events[n - 1]);
    }
  }

  lemma EpochStep(g: Gov, e: Event)
    requires Agreed(g)
    ensures Next(g, e).epoch >= g.epoch
  {
    hide Next, Agreed;
    if Next(g, e).epoch != g.epoch {
      Lifecycles.RotationDrained(g, e);
    }
  }

  /** Nothing is unmet exactly when nothing owed was dropped in this epoch. */
  lemma {:induction false} UnmetExactly(g: Gov, events: seq<Event>, n: nat)
    requires Agreed(g) && n <= |events|
    ensures Unmet(g, events, n) >= 0.0
    ensures Unmet(g, events, n) == 0.0 <==> NothingOwedDropped(g, events, n)
  {
    hide Agreed, Next, DropsExposure, Owed, At;
    if n > 0 {
      UnmetExactly(g, events, n - 1);
      AtNext(g, events, n - 1);
      EpochRises(g, events, n - 1, n - 1);
      var s := At(g, events, n - 1);
      LinkedOf(s);
      OwedNonnegative(s);
      forall i | 0 <= i < n ensures At(g, events, i).epoch <= s.epoch {
        EpochRises(g, events, i, n - 1);
      }
      EpochStep(s, events[n - 1]);
    }
  }

  /** Over any run the aggregate holds what the surface was charged, what is owed, and what was dropped; so the
      surface is charged all but what is owed exactly when nothing owed was dropped in this epoch. */
  lemma ExposureExactly(g: Gov, events: seq<Event>)
    requires Conserved(Begin(g)) && Gap(g) == 0.0
    ensures var s := Play(g, events);
      var charged := SurfaceSeconds(s.core.surface, Size(s.nativeMax));
      AllSeconds(s.core.log) == charged + Owed(s) + Unmet(g, events, |events|) &&
      (AllSeconds(s.core.log) == charged + Owed(s) <==> NothingOwedDropped(g, events, |events|))
  {
    hide Play, TPlay, Unmet, NothingOwedDropped, Agreed, Owed, AllSeconds, SurfaceSeconds, TokensMatch;
    GapIsUnmet(g, events, |events|);
    UnmetExactly(g, events, |events|);
    assert events[..|events|] == events;
  }

  /** A read charges the aggregate; a contaminated commit next drops it, and the surface never gets it. */
  lemma ReadThenQuarantineDrops(tr: Trace, read: real)
    requires var g := tr.g;
      Conserved(tr) && !g.dirty && !g.core.quarantined && g.active > 0 &&
      g.core.lastTime.Some? && g.surfaceTime == g.core.lastTime && 0.0 <= g.core.lastTime.value < read < Ticks.MAX_CLOCK
    ensures var g := tr.g;
      var s := Play(g, [ReadCall(read), CommitCall([], read, true)]);
      Gap(s) == Gap(g) + g.active as real * (read - g.surfaceTime.value) > Gap(g)
  {
    hide Agreed, Gap, Next, Conserved, Owed, DropsExposure;
    var g, first, second := tr.g, ReadCall(read), CommitCall([], read, true);
    TwoCalls(g, first, second);
    ReadOwes(g, read);
    ReadAgreedAt(tr, read);
    var s := Next(g, first);
    StepGap(tr, first);
    StepConserved(tr, first);
    NextOfTrace(tr, first);
    EmptyCommitDrops(s, read);
    StepGap(TNext(tr, first), second);
    Horizon.ScalePositive(g.active, read - g.surfaceTime.value);
  }

  lemma TwoCalls(g: Gov, first: Event, second: Event)
    ensures Play(g, [first, second]) == Next(Next(g, first), second)
  {
    hide Next;
    assert [first, second] == [first] + [second];
    Hooks.PlayJoins(g, [first], [second]);
    Hooks.PlayOne(g, first);
    Hooks.PlayOne(Next(g, first), second);
  }

  lemma ReadAgreedAt(tr: Trace, read: real)
    requires Conserved(tr)
    ensures Agreed(Next(tr.g, ReadCall(read)))
  {
    hide Agreed;
    NextAgreed(tr.g, ReadCall(read));
  }

  /** A read while Decode runs owes the exposure since the last commit, and drops nothing. */
  lemma ReadOwes(g: Gov, read: real)
    requires !g.dirty && g.surfaceTime.Some? && ClockAccepts(g.core, read) && !g.core.quarantined
    ensures var s := Next(g, ReadCall(read));
      s == g.(core := s.core) && s.core.lastTime == Some(read) && s.core.active == g.core.active &&
      Owed(s) == g.active as real * (read - g.surfaceTime.value) && !DropsExposure(g, ReadCall(read))
  {
    hide Ledger.Expose;
    var core := Advance(g.core, read).value;
    assert Next(g, ReadCall(read)) == g.(core := core);
  }

  /** An empty contaminated commit is accepted, and drops what is owed. */
  lemma EmptyCommitDrops(g: Gov, now: real)
    requires Agreed(g) && g.core.lastTime == Some(now) && 0.0 <= now < Ticks.MAX_CLOCK
    ensures DropsExposure(g, CommitCall([], now, true)) && Next(g, CommitCall([], now, true)).epoch == g.epoch
  {
    hide Agreed, CommitBatch;
    EmptyCommitAccepted(g, now);
    CommitPublishes(g, [], now, true);
  }

  lemma EmptyCommitAccepted(g: Gov, now: real)
    requires Agreed(g) && g.core.lastTime == Some(now) && 0.0 <= now < Ticks.MAX_CLOCK
    ensures CommitBatch(g, [], now, true).1.Ok?
  {
    hide Agreed;
    CommitRefusedOnlyFor(g, [], now, true);
    LinkedOf(g);
    StartCellInSurface(g);
  }
}
