/** Batch commits, update by update: when a batch is well formed, what it makes of each request, and which
    of its tokens belong to which cell. */
module CommitLaws {
  import opened Wrappers
  import opened CoreSpec
  import opened CoreRuns
  import opened Scheduler
  import opened Ledgers
  import opened Joint
  import Provenance

  // ---------- One update ----------

  /** An update fits its request: progress of its class, and unless that has ended, output and clock not going back. */
  predicate FitsRequest(rs: seq<Request>, u: Update, now: real) {
    u.id < |rs| && rs[u.id].progress.Some? && u.cls < 4 && u.cls == rs[u.id].progress.value.cls &&
    var p := rs[u.id].progress.value;
    p.terminal || (p.output <= u.output && (p.decoding ==> p.lastTime.Some? && p.lastTime.value <= now))
  }

  /** A request after a result: its reported length and end; decoding from its first output until its end, with the
      commit's clock. */
  function AfterUpdate(r: Request, u: Update, now: real): Request
    requires r.progress.Some?
  {
    var p := r.progress.value;
    if p.terminal then r
    else
      var begins := !p.decoding && u.output >= 1 && !u.terminal;
      var decodes := !u.terminal && (p.decoding || u.output >= 1);
      r.(progress := Some(Progress(u.output, decodes, u.terminal, p.cls, if decodes then Some(now) else None,
                                   p.entered || begins)))
  }

  predicate Distinct(updates: seq<Update>) {
    forall i, j :: 0 <= i < j < |updates| ==> updates[i].id != updates[j].id
  }

  predicate AllFit(rs: seq<Request>, updates: seq<Update>, now: real) {
    forall j :: 0 <= j < |updates| ==> FitsRequest(rs, updates[j], now)
  }

  predicate Names(updates: seq<Update>, id: nat) {
    exists j :: 0 <= j < |updates| && updates[j].id == id
  }

  lemma OneLaw(rs: seq<Request>, b: Batch, u: Update, now: real)
    requires Proposal(rs, b)
    ensures ProposeOne(rs, b, u, now).Ok? <==> FitsRequest(rs, u, now) && u.id !in b.seen
    ensures ProposeOne(rs, b, u, now).Ok? ==>
      var c := ProposeOne(rs, b, u, now).value;
      c.seen == b.seen + {u.id} && (rs[u.id].progress.value.terminal ==> c.next == b.next) &&
      (!rs[u.id].progress.value.terminal ==> c.next == b.next[u.id := AfterUpdate(rs[u.id], u, now)])
  {
  }

  /** A batch is well formed exactly when each update fits its request and no request is named twice. */
  lemma {:induction false} ProposalLaw(rs: seq<Request>, updates: seq<Update>, now: real)
    ensures var r := Propose(rs, updates, now);
      (r.Ok? <==> Distinct(updates) && AllFit(rs, updates, now)) &&
      (r.Ok? ==> forall i: nat :: i in r.value.seen <==> Names(updates, i))
  {
    hide ProposeOne, FitsRequest, AllFit, Distinct, Names;
    if updates == [] {
      NothingNamed(rs, now);
    } else {
      var n := |updates| - 1;
      ProposalLaw(rs, updates[..n], now);
      FitMore(rs, updates, now);
      var r := Propose(rs, updates[..n], now);
      if r.Ok? {
        OneLaw(rs, r.value, updates[n], now);
        SeenMore(updates, r.value.seen);
      } else {
        DistinctLess(updates);
      }
    }
  }

  lemma NothingNamed(rs: seq<Request>, now: real)
    ensures Distinct([]) && AllFit(rs, [], now) && forall i: nat :: !Names([], i)
  {
  }

  lemma FitMore(rs: seq<Request>, updates: seq<Update>, now: real)
    requires updates != []
    ensures var n := |updates| - 1;
      AllFit(rs, updates, now) <==> AllFit(rs, updates[..n], now) && FitsRequest(rs, updates[n], now)
  {
    hide FitsRequest;
    var n := |updates| - 1;
    assert forall j :: 0 <= j < n ==> updates[..n][j] == updates[j];
  }

  lemma DistinctLess(updates: seq<Update>)
    requires updates != []
    ensures Distinct(updates) ==> Distinct(updates[..|updates| - 1])
  {
  }

  lemma NamesMore(updates: seq<Update>, id: nat)
    requires updates != []
    ensures var n := |updates| - 1; Names(updates, id) <==> Names(updates[..n], id) || updates[n].id == id
  {
    var n := |updates| - 1;
    assert forall j :: 0 <= j < n ==> updates[..n][j] == updates[j];
    if updates[n].id == id { assert Names(updates, id); }
    if j :| 0 <= j < n && updates[..n][j].id == id {
      assert updates[j].id == id;
    }
  }

  lemma SeenMore(updates: seq<Update>, seen: set<nat>)
    requires updates != [] && Distinct(updates[..|updates| - 1])
    requires forall i: nat :: i in seen <==> Names(updates[..|updates| - 1], i)
    ensures var last := updates[|updates| - 1];
      (Distinct(updates) <==> last.id !in seen) &&
      forall i: nat :: i in seen + {last.id} <==> Names(updates, i)
  {
    hide Names;
    var n := |updates| - 1;
    forall i: nat ensures Names(updates, i) <==> Names(updates[..n], i) || updates[n].id == i {
      NamesMore(updates, i);
    }
    DistinctMore(updates);
  }

  lemma DistinctMore(updates: seq<Update>)
    requires updates != [] && Distinct(updates[..|updates| - 1])
    ensures var n := |updates| - 1; Distinct(updates) <==> !Names(updates[..n], updates[n].id)
  {
    var n := |updates| - 1;
    assert forall j :: 0 <= j < n ==> updates[..n][j] == updates[j];
    if Names(updates[..n], updates[n].id) {
      var j :| 0 <= j < n && updates[..n][j].id == updates[n].id;
      assert updates[j].id == updates[n].id;
    }
    forall i, j | 0 <= i < j < |updates| && !Names(updates[..n], updates[n].id) ensures updates[i].id != updates[j].id {
      if j < n {
        assert updates[..n][i].id != updates[..n][j].id;
      } else {
        assert updates[..n][i].id == updates[i].id;
      }
    }
  }

  /** Each named request is as its result says; every other request is as it was. */
  lemma {:induction false} NextLaw(rs: seq<Request>, updates: seq<Update>, now: real)
    requires Propose(rs, updates, now).Ok?
    ensures var next := Propose(rs, updates, now).value.next;
      |next| == |rs| &&
      (forall j :: 0 <= j < |updates| ==>
        (updates[j].id < |rs| && rs[updates[j].id].progress.Some? &&
         next[updates[j].id] == AfterUpdate(rs[updates[j].id], updates[j], now))) &&
      (forall i :: 0 <= i < |rs| && !Names(updates, i) ==> next[i] == rs[i])
  {
    hide ProposeOne, AfterUpdate, Distinct, AllFit, Names;
    if updates != [] {
      var n := |updates| - 1;
      var u := updates[n];
      var b := Propose(rs, updates[..n], now).value;
      NextLaw(rs, updates[..n], now);
      ProposalLaw(rs, updates[..n], now);
      OneLaw(rs, b, u, now);
      EndedKept(rs, u, now);
      assert forall j :: 0 <= j < n ==> updates[..n][j] == updates[j];
      forall i: nat ensures Names(updates, i) <==> Names(updates[..n], i) || u.id == i {
        NamesMore(updates, i);
      }
      forall j | 0 <= j < n ensures updates[j].id != u.id {
        NamedAt(updates[..n], j);
      }
    }
  }

  lemma NamedAt(updates: seq<Update>, j: nat)
    requires j < |updates|
    ensures Names(updates, updates[j].id)
  {
  }

  lemma EndedKept(rs: seq<Request>, u: Update, now: real)
    ensures u.id < |rs| && rs[u.id].progress.Some? && rs[u.id].progress.value.terminal ==>
      AfterUpdate(rs[u.id], u, now) == rs[u.id]
  {
  }

  // ---------- Counts of a batch, request by request ----------

  type Change = (Request, Request) -> int

  ghost function Sum(w: Change, rs: seq<Request>, next: seq<Request>): int
    requires |rs| == |next|
  {
    if rs == [] then 0 else Sum(w, rs[..|rs| - 1], next[..|next| - 1]) + w(rs[|rs| - 1], next[|next| - 1])
  }

  lemma {:induction false} SumUpdate(w: Change, rs: seq<Request>, next: seq<Request>, i: nat, r: Request)
    requires |rs| == |next| && i < |rs|
    ensures Sum(w, rs, next[i := r]) == Sum(w, rs, next) - w(rs[i], next[i]) + w(rs[i], r)
  {
    var n := |rs| - 1;
    if i < n {
      SumUpdate(w, rs[..n], next[..n], i, r);
      assert next[i := r][..n] == next[..n][i := r];
    } else {
      assert next[i := r][..n] == next[..n];
    }
  }

  lemma {:induction false} SumSame(w: Change, rs: seq<Request>)
    requires forall i :: 0 <= i < |rs| ==> w(rs[i], rs[i]) == 0
    ensures Sum(w, rs, rs) == 0
  {
    if rs != [] {
      SumSame(w, rs[..|rs| - 1]);
    }
  }

  /** One for a request of the class that starts decoding, that stops; and the tokens after its first of one that
      starts. */
  function Starts(cls: int): Change {
    (r: Request, s: Request) => One(!Decoding(r) && Decoding(s) && s.progress.value.cls == cls)
  }

  function Stops(cls: int): Change {
    (r: Request, s: Request) => One(Decoding(r) && !Decoding(s) && r.progress.value.cls == cls)
  }

  function StartTokens(): Change {
    (r: Request, s: Request) => if !Decoding(r) && Decoding(s) then s.progress.value.output - 1 else 0
  }

  /** The batch's counters count the requests that start and stop decoding, class by class, and its entering tokens are
      those of the requests that start. */
  ghost predicate Counted(rs: seq<Request>, b: Batch) {
    |b.next| == |rs| && b.enteringDelta == Sum(StartTokens(), rs, b.next) &&
    forall cls :: 0 <= cls < 4 ==>
      b.entering[cls] == Sum(Starts(cls), rs, b.next) && b.leaving[cls] == Sum(Stops(cls), rs, b.next)
  }

  lemma {:induction false} CountLaw(rs: seq<Request>, updates: seq<Update>, now: real)
    requires Propose(rs, updates, now).Ok?
    ensures Counted(rs, Propose(rs, updates, now).value)
  {
    hide ProposeOne, Counted, AfterUpdate, Distinct, AllFit, Names;
    if updates == [] {
      NothingCounted(rs);
    } else {
      var n := |updates| - 1;
      CountLaw(rs, updates[..n], now);
      var b := Propose(rs, updates[..n], now).value;
      OneLaw(rs, b, updates[n], now);
      ProposalLaw(rs, updates[..n], now);
      NextLaw(rs, updates[..n], now);
      CountOne(rs, b, updates[n], now);
    }
  }

  lemma ChangeOf(cls: int, r: Request, s: Request)
    ensures Starts(cls)(r, s) == One(!Decoding(r) && Decoding(s) && s.progress.value.cls == cls)
    ensures Stops(cls)(r, s) == One(Decoding(r) && !Decoding(s) && r.progress.value.cls == cls)
  {
  }

  lemma NothingCounted(rs: seq<Request>)
    ensures Counted(rs, Batch(NO_COUNTS, NO_COUNTS, 0, 0, rs, {}))
  {
    SumSame(StartTokens(), rs);
    forall cls | 0 <= cls < 4 ensures Sum(Starts(cls), rs, rs) == 0 == Sum(Stops(cls), rs, rs) {
      forall i | 0 <= i < |rs| ensures Starts(cls)(rs[i], rs[i]) == 0 == Stops(cls)(rs[i], rs[i]) {
        ChangeOf(cls, rs[i], rs[i]);
      }
      SumSame(Starts(cls), rs);
      SumSame(Stops(cls), rs);
    }
  }

  lemma CountOne(rs: seq<Request>, b: Batch, u: Update, now: real)
    requires Proposal(rs, b) && Counted(rs, b) && ProposeOne(rs, b, u, now).Ok? && b.next[u.id] == rs[u.id]
    ensures Counted(rs, ProposeOne(rs, b, u, now).value)
  {
    hide Sum;
    var c := ProposeOne(rs, b, u, now).value;
    if !rs[u.id].progress.value.terminal {
      var r := c.next[u.id];
      SumUpdate(StartTokens(), rs, b.next, u.id, r);
      forall cls | 0 <= cls < 4
        ensures c.entering[cls] == Sum(Starts(cls), rs, c.next) && c.leaving[cls] == Sum(Stops(cls), rs, c.next)
      {
        SumUpdate(Starts(cls), rs, b.next, u.id, r);
        SumUpdate(Stops(cls), rs, b.next, u.id, r);
        ChangeOf(cls, rs[u.id], r);
        ChangeOf(cls, rs[u.id], rs[u.id]);
      }
    }
  }

  // ---------- Replacement ----------

  lemma {:induction false} StopsAtMost(rs: seq<Request>, next: seq<Request>)
    requires |rs| == |next| && AllClassed(rs)
    ensures var stops :=
        Sum(Stops(0), rs, next) + Sum(Stops(1), rs, next) + Sum(Stops(2), rs, next) + Sum(Stops(3), rs, next);
      stops <= Total(DecodingW(), rs) &&
      (stops == Total(DecodingW(), rs) <==> forall i :: 0 <= i < |rs| && Decoding(rs[i]) ==> !Decoding(next[i]))
  {
    if rs != [] {
      var n := |rs| - 1;
      StopsAtMost(rs[..n], next[..n]);
      assert forall i :: 0 <= i < n ==> rs[..n][i] == rs[i] && next[..n][i] == next[i];
    }
  }

  predicate AllClassed(rs: seq<Request>) {
    forall i :: 0 <= i < |rs| && rs[i].progress.Some? ==> rs[i].progress.value.cls < 4
  }

  /** A batch is a full replacement exactly when some request was decoding and none of those still is. */
  lemma ReplacementLaw(g: Gov, updates: seq<Update>, now: real)
    requires Agreed(g) && Propose(g.requests, updates, now).Ok?
    ensures var b := Propose(g.requests, updates, now).value;
      FullReplacement(g, b) <==>
        g.active > 0 && forall i :: 0 <= i < |g.requests| && Decoding(g.requests[i]) ==> !Decoding(b.next[i])
  {
    hide Linked, LedgerExact, Propose, Sum, Total, Decoding;
    var b := Propose(g.requests, updates, now).value;
    CountLaw(g.requests, updates, now);
    StopsAtMost(g.requests, b.next);
    ActiveCounted(g);
  }

  lemma ActiveCounted(g: Gov)
    requires Agreed(g)
    ensures g.active == Total(DecodingW(), g.requests)
  {
  }

  // ---------- Settlement ----------

  /** Evidence older than a minute is dropped, the rest kept as it is. */
  lemma ExpiryLaw(pending: map<Key, Pending>, now: real)
    ensures forall k :: k in Unexpired(pending, now) <==> k in pending && now <= pending[k].at + 60.0
    ensures forall k :: k in Unexpired(pending, now) ==> Unexpired(pending, now)[k] == pending[k]
  {
  }

  /** The exposure of a commit: the time since the last one, for every sequence active since. */
  lemma ElapsedLaw(g: Gov, now: real)
    ensures ElapsedSince(g, now) == if g.surfaceTime.Some? then now - g.surfaceTime.value else 0.0
  {
  }

  /** What stays pending carries the time of the last tokens added to it, and there is no empty evidence. */
  lemma PendingTimeLaw(g: Gov, b: Batch, now: real, after: nat, counts: Counts, k: Key)
    requires Linked(g) && b.enteringDelta <= b.total && Settle(g, b, now, after, counts).Ok?
    requires k in Settle(g, b, now, after, counts).value.pending
    ensures var kept := Settle(g, b, now, after, counts).value.pending[k];
      var added := Provenance.OfRun(g, b, k) + Provenance.OfNextRun(g, b, after, counts, k);
      if added > 0 then kept.at == now else k in g.pending && kept == g.pending[k]
  {
    hide ObserveReplacement, ObserveBatch, Observe, Sound;
    assert g.active == 0 ==> g.pending == map[];
  }

  /** A contaminated commit publishes the batch, drops all pending evidence, and stays contaminated while a health check
      is out; a clean one stays clean. */
  lemma CommitStateLaw(g: Gov, updates: seq<Update>, now: real, quarantine: bool)
    requires CommitBatch(g, updates, now, quarantine).1.Ok?
    ensures var g' := CommitBatch(g, updates, now, quarantine).0;
      var b := Propose(g.requests, updates, now).value;
      var tainted := quarantine || g.healthOutstanding > 0 || g.dirty;
      Propose(g.requests, updates, now).Ok? &&
      g' == g.(core := g'.core, requests := b.next, active := g'.active, activeCounts := g'.activeCounts,
               pending := g'.pending, surfaceTime := Some(now), dirty := g'.dirty) &&
      (tainted ==>
        g'.pending == map[] && g'.dirty == (g.healthOutstanding > 0) &&
        Quarantine(g.core, now, g'.active, g.healthOutstanding > 0) == Ok(g'.core)) &&
      (!tainted ==> !g'.dirty)
  {
    hide Propose, Settle, Quarantine;
  }

  /** A scheduler opens with nothing held, decoding, pending or learnt. */
  lemma OpenLaw(core: Core, nativeMax: nat, maxRunning: nat, maxWaiting: nat, exploring: bool, identity: int)
    ensures var r := Open(core, nativeMax, maxRunning, maxWaiting, exploring, identity);
      (r.Ok? <==> 1 <= nativeMax < 0x1_0000_0000 && 1 <= maxRunning <= nativeMax && maxWaiting <= 3) &&
      (r.Err? ==> r == Err(Invalid)) &&
      (r.Ok? ==>
        r.value.core == core && r.value.nativeMax == nativeMax && r.value.maxRunning == maxRunning &&
        r.value.maxWaiting == maxWaiting && r.value.exploring == exploring && r.value.identity == identity &&
        r.value.outstanding == 0 && r.value.active == 0 && r.value.healthOutstanding == 0 && r.value.pending == map[] &&
        (forall c :: 0 <= c < 4 ==> r.value.admitted[c] == 0 == r.value.activeCounts[c]) &&
        r.value.surfaceTime.None? && !r.value.explorationActive && r.value.lastExploration.None? && !r.value.paused &&
        !r.value.dirty && r.value.requests == [])
  {
  }
}
