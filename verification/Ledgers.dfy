/** The reservation ledger and the Decode tally: every counter is the exact count it
    stands for, over every run. */
module Ledgers {
  import opened Wrappers
  import opened CoreSpec
  import opened Scheduler

  // ---------- Totals over requests ----------

  type Weight = Request -> int

  ghost function Total(w: Weight, rs: seq<Request>): int {
    if rs == [] then 0 else Total(w, rs[..|rs| - 1]) + w(rs[|rs| - 1])
  }

  lemma {:induction false} TotalUpdate(w: Weight, rs: seq<Request>, i: nat, r: Request)
    requires i < |rs|
    ensures Total(w, rs[i := r]) == Total(w, rs) - w(rs[i]) + w(r)
  {
    var n := |rs| - 1;
    if i < n {
      TotalUpdate(w, rs[..n], i, r);
      assert rs[i := r][..n] == rs[..n][i := r];
    } else {
      assert rs[i := r][..n] == rs[..n];
    }
  }

  lemma TotalAppend(w: Weight, rs: seq<Request>, r: Request)
    ensures Total(w, rs + [r]) == Total(w, rs) + w(r)
  {
    assert (rs + [r])[..|rs|] == rs;
  }

  lemma {:induction false} TotalSame(w: Weight, rs: seq<Request>, ss: seq<Request>)
    requires |rs| == |ss| && forall i :: 0 <= i < |rs| ==> w(rs[i]) == w(ss[i])
    ensures Total(w, rs) == Total(w, ss)
  {
    if rs != [] {
      TotalSame(w, rs[..|rs| - 1], ss[..|ss| - 1]);
    }
  }

  lemma {:induction false} TotalAtLeast(w: Weight, rs: seq<Request>, i: nat)
    requires i < |rs| && forall r: Request :: w(r) >= 0
    ensures Total(w, rs) >= w(rs[i]) && Total(w, rs) >= 0
  {
    var n := |rs| - 1;
    if i < n {
      TotalAtLeast(w, rs[..n], i);
    } else {
      TotalNonnegative(w, rs[..n]);
    }
  }

  lemma {:induction false} TotalNonnegative(w: Weight, rs: seq<Request>)
    requires forall r: Request :: w(r) >= 0
    ensures Total(w, rs) >= 0
  {
    if rs != [] {
      TotalNonnegative(w, rs[..|rs| - 1]);
    }
  }

  lemma {:induction false} TotalZero(w: Weight, rs: seq<Request>)
    requires (forall r: Request :: w(r) >= 0) && Total(w, rs) == 0
    ensures forall i :: 0 <= i < |rs| ==> w(rs[i]) == 0
  {
    forall i | 0 <= i < |rs| ensures w(rs[i]) == 0 {
      TotalAtLeast(w, rs, i);
    }
  }

  predicate Held(r: Request) {
    r.reservation.Some? && !r.reservation.value.released
  }

  predicate Decoding(r: Request) {
    r.progress.Some? && r.progress.value.decoding
  }

  function One(b: bool): int {
    if b then 1 else 0
  }

  function HeldW(): Weight { (r: Request) => One(Held(r)) }
  function HeldIn(cls: int): Weight { (r: Request) => One(Held(r) && r.reservation.value.cls == cls) }
  function HealthW(): Weight { (r: Request) => One(Held(r) && r.reservation.value.health) }
  function ProbeW(): Weight { (r: Request) => One(Held(r) && r.reservation.value.exploration) }
  function DecodingW(): Weight { (r: Request) => One(Decoding(r)) }
  function DecodingIn(cls: int): Weight { (r: Request) => One(Decoding(r) && r.progress.value.cls == cls) }

  /** Tokens after the first of every request that ever entered Decode. */
  function EarnedW(): Weight {
    (r: Request) => if r.progress.Some? && r.progress.value.entered then r.progress.value.output - 1 else 0
  }

  // ---------- The reservation ledger ----------

  ghost predicate LedgerExact(g: Gov) {
    g.outstanding == Total(HeldW(), g.requests) &&
    (forall cls :: 0 <= cls < 4 ==> g.admitted[cls] == Total(HeldIn(cls), g.requests)) &&
    g.healthOutstanding == Total(HealthW(), g.requests) &&
    One(g.explorationActive) == Total(ProbeW(), g.requests)
  }

  ghost predicate SameLedger(g: Gov, h: Gov) {
    g.outstanding == h.outstanding && g.admitted == h.admitted &&
    g.healthOutstanding == h.healthOutstanding && g.explorationActive == h.explorationActive &&
    |g.requests| == |h.requests| &&
    forall i :: 0 <= i < |g.requests| ==> g.requests[i].reservation == h.requests[i].reservation
  }

  lemma SameLedgerKept(g: Gov, h: Gov)
    requires LedgerExact(g) && SameLedger(g, h)
    ensures LedgerExact(h)
  {
    TotalSame(HeldW(), g.requests, h.requests);
    TotalSame(HealthW(), g.requests, h.requests);
    TotalSame(ProbeW(), g.requests, h.requests);
    forall cls | 0 <= cls < 4 ensures h.admitted[cls] == Total(HeldIn(cls), h.requests) {
      TotalSame(HeldIn(cls), g.requests, h.requests);
    }
  }

  lemma ReserveLedger(g: Gov, id: nat, now: real, cls: Class, health: bool, d: Decision)
    requires LedgerExact(g) && id < |g.requests| && g.requests[id].reservation.None?
    requires d.reason == OnlineExploration ==> !g.explorationActive
    ensures LedgerExact(Reserve(g, id, now, cls, health, d))
  {
    hide Total;
    var h := Reserve(g, id, now, cls, health, d);
    var r := h.requests[id];
    TotalUpdate(HeldW(), g.requests, id, r);
    TotalUpdate(HealthW(), g.requests, id, r);
    TotalUpdate(ProbeW(), g.requests, id, r);
    forall c | 0 <= c < 4 ensures h.admitted[c] == Total(HeldIn(c), h.requests) {
      TotalUpdate(HeldIn(c), g.requests, id, r);
    }
  }

  /** The terms of an allowed decision: no pause, room to wait, and for a probe the only one,
      within capacity and off cooldown. */
  lemma AllowedTerms(g: Gov, core: Core, now: real, want: Key, waiting: Option<nat>, health: bool, f: Forecast)
    requires Verdict(g, core, now, want, waiting, health, f).Ok? && f.reason != OnlineExploration
    requires Capped(g, health, Verdict(g, core, now, want, waiting, health, f).value).allowed
    ensures !g.paused && ProjectedWaiting(g, waiting) <= g.maxWaiting && (health ==> g.outstanding + 1 <= g.maxRunning)
    ensures Capped(g, health, Verdict(g, core, now, want, waiting, health, f).value).reason == OnlineExploration ==>
      !health && !g.explorationActive && g.outstanding + 1 <= g.maxRunning &&
      (g.lastExploration.Some? ==> now - g.lastExploration.value >= EXPLORATION_INTERVAL_SECONDS)
  {
    hide Admit;
  }

  lemma CoreReasons(c: Core, now: real, want: Key)
    ensures Decide(c, now, want).reason in {Fit, ReferenceDisabled, TpsRisk, ColdPrior, Unknown, AggregateTpsRisk}
  {
  }

  /** A granted admission, taken apart: what was reserved, and on which terms. */
  ghost predicate IsGrant(g: Gov, id: nat, now: real, waiting: Option<nat>, health: bool, g': Gov) {
    exists core: Core, cls: Class, d: Decision {:trigger Reserve(g.(core := core), id, now, cls, health, d)} ::
      id < |g.requests| && g.requests[id].reservation.None? && d.allowed && !g.paused &&
      g' == Reserve(g.(core := core), id, now, cls, health, d) &&
      ProjectedWaiting(g, waiting) <= g.maxWaiting && (health ==> g.outstanding + 1 <= g.maxRunning) &&
      (d.reason == OnlineExploration ==>
        !g.explorationActive && !health &&
        (g.lastExploration.Some? ==> now - g.lastExploration.value >= EXPLORATION_INTERVAL_SECONDS))
  }

  lemma AdmitFreshCases(g: Gov, id: nat, now: real, waiting: Option<nat>, health: bool)
    requires id < |g.requests| && g.requests[id].reservation.None?
    ensures var (g', r) := AdmitFresh(g, id, now, waiting, health);
      (exists core: Core :: g' == g.(core := core)) || IsGrant(g, id, now, waiting, health, g')
  {
    hide Verdict, Capped, Decide, Reserve, HealthFits, FreshForecast, ProjectedClass;
    var (g', r) := AdmitFresh(g, id, now, waiting, health);
    var cls := PressureClass(g.requests[id].input + g.requests[id].horizon);
    var want := Key(Smaller(g.outstanding + 1, g.nativeMax), ProjectedClass(g, cls));
    if r.Ok? && r.value.allowed {
      var (core, f) := FreshForecast(g, now, want, HealthFits(g, health, waiting));
      ForecastReasons(g, now, want, HealthFits(g, health, waiting));
      AllowedTerms(g, core, now, want, waiting, health, f.value);
      assert g' == Reserve(g.(core := core), id, now, cls, health, r.value);
    } else {
      assert g' == g.(core := g'.core);
    }
  }

  lemma ForecastReasons(g: Gov, now: real, want: Key, fits: bool)
    ensures var f := FreshForecast(g, now, want, fits).1;
      f.Ok? ==> f.value.reason in {Fit, ReferenceDisabled, TpsRisk, ColdPrior, Unknown, AggregateTpsRisk}
  {
    var core := if fits && Quarantine(g.core, now, g.active, true).Ok?
                then Quarantine(g.core, now, g.active, true).value else g.core;
    if Admit(core, now, want).Ok? {
      CoreReasons(Admit(core, now, want).value.0, now, want);
    }
  }

  lemma AdmitLedger(g: Gov, id: nat, now: real, retracted: bool, waiting: Option<nat>, health: bool)
    requires LedgerExact(g)
    ensures LedgerExact(AdmitRequest(g, id, now, retracted, waiting, health).0)
  {
    hide LedgerExact, AdmitFresh, Reserve;
    var g' := AdmitRequest(g, id, now, retracted, waiting, health).0;
    if g' != g {
      AdmitFreshCases(g, id, now, waiting, health);
      if IsGrant(g, id, now, waiting, health, g') {
        var core: Core, cls: Class, d: Decision :|
          d.allowed && g' == Reserve(g.(core := core), id, now, cls, health, d) &&
          (d.reason == OnlineExploration ==> !g.explorationActive);
        SameLedgerKept(g, g.(core := core));
        ReserveLedger(g.(core := core), id, now, cls, health, d);
      } else {
        SameLedgerKept(g, g');
      }
    }
  }

  /** Releasing an unreleased reservation always succeeds: neither underflow can happen. */
  lemma ReleaseExact(g: Gov, id: nat)
    requires LedgerExact(g)
    ensures var (g', r) := ReleaseRequest(g, id);
      r == Ok(id < |g.requests| && Held(g.requests[id])) && LedgerExact(g') &&
      (r == Ok(false) ==> g' == g) &&
      (r == Ok(true) ==> !Held(g'.requests[id]) && g'.outstanding == g.outstanding - 1)
  {
    hide Total;
    if id < |g.requests| && Held(g.requests[id]) {
      var was := g.requests[id].reservation.value;
      TotalAtLeast(HeldW(), g.requests, id);
      TotalAtLeast(HeldIn(was.cls), g.requests, id);
      TotalAtLeast(HealthW(), g.requests, id);
      TotalAtLeast(ProbeW(), g.requests, id);
      ReleaseLedger(g, id);
    }
  }

  lemma ReleaseLedger(g: Gov, id: nat)
    requires LedgerExact(g) && ReleaseRequest(g, id).1.Ok?
    requires id < |g.requests| && Held(g.requests[id]) && Total(ProbeW(), g.requests) >= ProbeW()(g.requests[id])
    ensures LedgerExact(ReleaseRequest(g, id).0)
  {
    hide Total;
    var g' := ReleaseRequest(g, id).0;
    var now := g'.requests[id];
    TotalUpdate(HeldW(), g.requests, id, now);
    TotalUpdate(HealthW(), g.requests, id, now);
    TotalUpdate(ProbeW(), g.requests, id, now);
    forall c | 0 <= c < 4 ensures g'.admitted[c] == Total(HeldIn(c), g'.requests) {
      TotalUpdate(HeldIn(c), g.requests, id, now);
    }
  }

  /** Asking again for a request that holds a reservation changes nothing at all. */
  lemma ReadmissionIsFree(g: Gov, id: nat, now: real, retracted: bool, waiting: Option<nat>, health: bool)
    requires id < |g.requests| && g.requests[id].reservation.Some?
    ensures var (g', r) := AdmitRequest(g, id, now, retracted, waiting, health);
      var was := g.requests[id].reservation.value;
      g' == g && r == if was.released || was.health != health then Err(Internal) else Ok(was.decision)
  {
  }

  // ---------- The Decode tally ----------

  ghost predicate ProgressOk(p: Progress, surfaceTime: Option<real>) {
    (p.decoding ==> p.entered && !p.terminal && p.lastTime.Some? && surfaceTime.Some? &&
                    p.lastTime.value <= surfaceTime.value) &&
    (!p.decoding && !p.terminal ==> !p.entered) && (p.entered ==> p.output >= 1)
  }

  ghost predicate AllProgressOk(rs: seq<Request>, t: Option<real>) {
    forall i :: 0 <= i < |rs| && rs[i].progress.Some? ==> ProgressOk(rs[i].progress.value, t)
  }

  ghost predicate Tally(g: Gov) {
    g.active == Total(DecodingW(), g.requests) &&
    (forall cls :: 0 <= cls < 4 ==> g.activeCounts[cls] == Total(DecodingIn(cls), g.requests)) &&
    AllProgressOk(g.requests, g.surfaceTime)
  }

  ghost predicate SameTally(g: Gov, h: Gov) {
    g.active == h.active && g.activeCounts == h.activeCounts && g.surfaceTime == h.surfaceTime &&
    |g.requests| == |h.requests| &&
    forall i :: 0 <= i < |g.requests| ==> g.requests[i].progress == h.requests[i].progress
  }

  lemma SameTallyKept(g: Gov, h: Gov)
    requires Tally(g) && SameTally(g, h)
    ensures Tally(h) && Total(EarnedW(), h.requests) == Total(EarnedW(), g.requests)
  {
    TotalSame(DecodingW(), g.requests, h.requests);
    TotalSame(EarnedW(), g.requests, h.requests);
    forall cls | 0 <= cls < 4 ensures h.activeCounts[cls] == Total(DecodingIn(cls), h.requests) {
      TotalSame(DecodingIn(cls), g.requests, h.requests);
    }
    forall i | 0 <= i < |h.requests| && h.requests[i].progress.Some?
      ensures ProgressOk(h.requests[i].progress.value, h.surfaceTime)
    {
      assert g.requests[i].progress == h.requests[i].progress;
    }
  }

  /** How a proposal relates to the requests it was made from. */
  ghost predicate Faithful(rs: seq<Request>, b: Batch, now: real, t: Option<real>) {
    Proposal(rs, b) &&
    (forall i :: 0 <= i < |rs| ==> b.next[i].reservation == rs[i].reservation) &&
    (forall i :: 0 <= i < |rs| && i !in b.seen ==> b.next[i] == rs[i]) &&
    (forall i :: 0 <= i < |rs| && b.next[i].progress.Some? ==>
      rs[i].progress.Some? &&
      (b.next[i].progress == rs[i].progress || ProgressOk(b.next[i].progress.value, Some(now)))) &&
    Total(DecodingW(), b.next) == Total(DecodingW(), rs) + Sum4(b.entering) - Sum4(b.leaving) &&
    (forall cls :: 0 <= cls < 4 ==>
      Total(DecodingIn(cls), b.next) == Total(DecodingIn(cls), rs) + b.entering[cls] - b.leaving[cls] &&
      b.entering[cls] >= 0 && b.leaving[cls] >= 0) &&
    Total(EarnedW(), b.next) == Total(EarnedW(), rs) + b.total
  }

  lemma ProposeOneFaithful(rs: seq<Request>, b: Batch, u: Update, now: real, t: Option<real>)
    requires AllProgressOk(rs, t) && Faithful(rs, b, now, t) && ProposeOne(rs, b, u, now).Ok?
    ensures Faithful(rs, ProposeOne(rs, b, u, now).value, now, t)
  {
    hide Total;
    var b' := ProposeOne(rs, b, u, now).value;
    if !rs[u.id].progress.value.terminal {
      var r := b'.next[u.id];
      assert b.next[u.id] == rs[u.id];
      TotalUpdate(DecodingW(), b.next, u.id, r);
      TotalUpdate(EarnedW(), b.next, u.id, r);
      forall cls | 0 <= cls < 4
        ensures Total(DecodingIn(cls), b'.next) == Total(DecodingIn(cls), rs) + b'.entering[cls] - b'.leaving[cls]
      {
        TotalUpdate(DecodingIn(cls), b.next, u.id, r);
      }
    }
  }

  lemma {:induction false} ProposeFaithful(rs: seq<Request>, updates: seq<Update>, now: real, t: Option<real>)
    requires AllProgressOk(rs, t) && Propose(rs, updates, now).Ok?
    ensures Faithful(rs, Propose(rs, updates, now).value, now, t)
  {
    if updates != [] {
      var n := |updates| - 1;
      ProposeFaithful(rs, updates[..n], now, t);
      ProposeOneFaithful(rs, Propose(rs, updates[..n], now).value, updates[n], now, t);
    }
  }

  /** Each result of an accepted proposal is what its request shows afterwards. */
  ghost predicate Shows(r: Request, u: Update) {
    r.progress.Some? && r.progress.value.output == u.output && r.progress.value.terminal == u.terminal
  }

  lemma {:induction false} TerminalUntouched(rs: seq<Request>, updates: seq<Update>, now: real)
    requires Propose(rs, updates, now).Ok?
    ensures forall i :: 0 <= i < |rs| && rs[i].progress.Some? && rs[i].progress.value.terminal ==>
      Propose(rs, updates, now).value.next[i] == rs[i]
  {
    if updates != [] {
      TerminalUntouched(rs, updates[..|updates| - 1], now);
    }
  }

  lemma {:induction false} ProposalShows(rs: seq<Request>, updates: seq<Update>, now: real, j: nat)
    requires Propose(rs, updates, now).Ok? && j < |updates|
    ensures var b := Propose(rs, updates, now).value;
      var id := updates[j].id;
      id < |rs| && id in b.seen && rs[id].progress.Some? &&
      (if rs[id].progress.value.terminal then b.next[id] == rs[id] else Shows(b.next[id], updates[j]))
  {
    TerminalUntouched(rs, updates, now);
    var n := |updates| - 1;
    if j < n {
      ProposalShows(rs, updates[..n], now, j);
    }
  }

  /** The counts after a batch are exact, so the underflow checks never fire. */
  lemma CountsExact(g: Gov, b: Batch, now: real)
    requires Tally(g) && Faithful(g.requests, b, now, g.surfaceTime)
    ensures g.active + Sum4(b.entering) - Sum4(b.leaving) == Total(DecodingW(), b.next) >= 0
    ensures forall i :: 0 <= i < 4 ==> CountsAfter(g.activeCounts, b)[i] == Total(DecodingIn(i), b.next) >= 0
  {
    TotalNonnegative(DecodingW(), b.next);
    forall i | 0 <= i < 4
      ensures CountsAfter(g.activeCounts, b)[i] == Total(DecodingIn(i), b.next) >= 0
    {
      TotalNonnegative(DecodingIn(i), b.next);
    }
  }

  /** What an accepted commit publishes of the requests and their counts. */
  lemma CommitPublishes(g: Gov, updates: seq<Update>, now: real, quarantine: bool)
    requires CommitBatch(g, updates, now, quarantine).1.Ok?
    ensures var g' := CommitBatch(g, updates, now, quarantine).0;
      var b := Propose(g.requests, updates, now);
      b.Ok? && g'.requests == b.value.next && g'.surfaceTime == Some(now) &&
      g'.active == g.active + Sum4(b.value.entering) - Sum4(b.value.leaving) &&
      g'.activeCounts == CountsAfter(g.activeCounts, b.value) &&
      g'.outstanding == g.outstanding && g'.admitted == g.admitted && g'.healthOutstanding == g.healthOutstanding &&
      g'.explorationActive == g.explorationActive && g'.lastExploration == g.lastExploration &&
      g'.nativeMax == g.nativeMax && g'.maxRunning == g.maxRunning && g'.maxWaiting == g.maxWaiting &&
      g'.epoch == g.epoch && g'.paused == g.paused && g'.identity == g.identity
  {
    hide Settle, Quarantine, Propose;
  }

  lemma ProgressLater(rs: seq<Request>, b: Batch, now: real, t: Option<real>)
    requires AllProgressOk(rs, t) && Faithful(rs, b, now, t) && (t.Some? ==> t.value <= now)
    ensures AllProgressOk(b.next, Some(now))
  {
    forall i | 0 <= i < |b.next| && b.next[i].progress.Some?
      ensures ProgressOk(b.next[i].progress.value, Some(now))
    {
      assert rs[i].progress.Some?;
    }
  }

  lemma CommitTally(g: Gov, updates: seq<Update>, now: real, quarantine: bool)
    requires Tally(g) && CommitBatch(g, updates, now, quarantine).1.Ok?
    requires g.surfaceTime.Some? ==> g.surfaceTime.value <= now
    ensures var g' := CommitBatch(g, updates, now, quarantine).0;
      var b := Propose(g.requests, updates, now);
      b.Ok? && Faithful(g.requests, b.value, now, g.surfaceTime) && Tally(g') && SameLedger(g, g') &&
      g'.requests == b.value.next && Total(EarnedW(), g'.requests) == Total(EarnedW(), g.requests) + b.value.total
  {
    hide CommitBatch, Propose;
    CommitPublishes(g, updates, now, quarantine);
    ProposeFaithful(g.requests, updates, now, g.surfaceTime);
    var b := Propose(g.requests, updates, now).value;
    CountsExact(g, b, now);
    ProgressLater(g.requests, b, now, g.surfaceTime);
  }
}
