/** Where tokens come from: each cell's tokens over an epoch and over a single run of Decode, and
    the requests of an epoch as the only source of what its core holds. */
module Provenance {
  import opened Wrappers
  import opened CoreSpec
  import opened CoreRuns
  import opened Scheduler
  import opened Ledgers
  import opened Joint
  import opened Conservation
  import opened Lifecycles
  import Hooks
  import Ledger

  // ---------- One commit, one cell ----------

  /** The cell that a beginning run's first tokens belong to. */
  function EntryCell(after: nat, counts: Counts): Key {
    Key(after, Heaviest(counts))
  }

  /** A clean commit that begins a run: Decode resumes from idle, or every running request leaves. */
  predicate BeginsRun(g: Gov, b: Batch) {
    g.active == 0 || FullReplacement(g, b)
  }

  /** The batch's tokens that belong to cell `k` and to the run in progress at batch start. */
  function OfRun(g: Gov, b: Batch, k: Key): int {
    if g.active > 0 && k == StartCell(g) then b.total - (if FullReplacement(g, b) then b.enteringDelta else 0) else 0
  }

  /** The batch's tokens that belong to cell `k` and to the run the batch begins. */
  function OfNextRun(g: Gov, b: Batch, after: nat, counts: Counts, k: Key): int {
    if after == 0 || k != EntryCell(after, counts) then 0
    else if g.active == 0 then b.total
    else if FullReplacement(g, b) then b.enteringDelta
    else 0
  }

  /** The tokens of cell `k` that a clean commit discards: expired ones, and those that meet no exposure
      before their run ends. */
  function LostAt(g: Gov, b: Batch, now: real, after: nat, k: Key): int {
    var seconds := ElapsedSince(g, now) * g.active as real;
    var before, live := PendingAt(g.pending, k), PendingAt(Unexpired(g.pending, now), k);
    var charged := g.active > 0 && seconds > 0.0 && k == StartCell(g);
    if charged then before - live
    else if BeginsRun(g, b) || after == 0 then before + OfRun(g, b, k)
    else before - live
  }

  /** A clean commit moves the cell's tokens between pending, delivered and lost, and adds the batch's own.
      A run it begins inherits nothing. */
  lemma SettleCell(g: Gov, b: Batch, now: real, after: nat, counts: Counts, k: Key)
    requires Linked(g) && b.enteringDelta <= b.total && Settle(g, b, now, after, counts).Ok?
    requires after == g.active + Sum4(b.entering) - Sum4(b.leaving)
    requires b.enteringDelta > 0 ==> Sum4(b.entering) > 0
    ensures var s := Settle(g, b, now, after, counts).value;
      var seconds := ElapsedSince(g, now) * g.active as real;
      PendingAt(s.pending, k) + (if g.active > 0 && seconds > 0.0 && k == StartCell(g) then s.delivered else 0) +
        LostAt(g, b, now, after, k)
      == PendingAt(g.pending, k) + OfRun(g, b, k) + OfNextRun(g, b, after, counts, k)
    ensures BeginsRun(g, b) ==>
      PendingAt(Settle(g, b, now, after, counts).value.pending, k) == OfNextRun(g, b, after, counts, k)
  {
    hide ObserveReplacement, ObserveBatch, Observe, Sound;
    assert g.active == 0 ==> g.pending == map[];
  }

  ghost function CellTokens(c: Core, k: Key): nat {
    AllTokens(CellAt(c, k).log)
  }

  lemma SettleDelivers(g: Gov, b: Batch, now: real, after: nat, counts: Counts, k: Key)
    requires Linked(g) && !g.dirty && b.enteringDelta <= b.total && Settle(g, b, now, after, counts).Ok?
    ensures var s := Settle(g, b, now, after, counts).value;
      var seconds := ElapsedSince(g, now) * g.active as real;
      CellTokens(s.core, k) == CellTokens(g.core, k) +
        (if g.active > 0 && seconds > 0.0 && k == StartCell(g) then s.delivered else 0)
  {
    hide Settle, Sound, ObserveCell;
    SettleCharges(g, b, now, after, counts);
    var seconds := ElapsedSince(g, now) * g.active as real;
    if seconds > 0.0 {
      CellSample(CellAt(g.core, StartCell(g)), now, Settle(g, b, now, after, counts).value.delivered, seconds);
    }
  }

  // ---------- A cell's book over a run of calls ----------

  /** One cell's book: since the epoch began, what was produced for it and lost; since the current run
      began, the same, with the cell's tokens at that time; and the run its oldest pending token is of. */
  datatype Book = Book(g: Gov, produced: int, lost: int, run: nat, runProduced: int, runLost: int, runBase: nat,
                       oldest: nat)

  function ProposalOf(g: Gov, e: Event): Result<Batch> {
    if e.CommitCall? && CommitBatch(g, e.updates, e.now, e.quarantine).1.Ok? then Propose(g.requests, e.updates, e.now)
    else Err(Invalid)
  }

  /** An accepted commit outside quarantine, and what it proposed. */
  predicate Clean(g: Gov, e: Event) {
    ProposalOf(g, e).Ok? && !Taints(g, e.quarantine)
  }

  function AfterOf(g: Gov, b: Batch): nat {
    var after := g.active + Sum4(b.entering) - Sum4(b.leaving);
    if after < 0 then 0 else after
  }

  /** The events that end a run: an accepted commit that begins another or is contaminated, a granted
      health check, and a rotation. */
  predicate EndsRun(g: Gov, e: Event) {
    Next(g, e).epoch != g.epoch || Next(g, e).healthOutstanding > g.healthOutstanding ||
    (ProposalOf(g, e).Ok? && (Taints(g, e.quarantine) || BeginsRun(g, ProposalOf(g, e).value)))
  }

  /** Tokens the event produces for cell `k`: those of the run in progress, and those of a run it begins. */
  function Produced(g: Gov, e: Event, k: Key): int {
    if Clean(g, e) then OfRun(g, ProposalOf(g, e).value, k) else 0
  }

  function ProducedNext(g: Gov, e: Event, k: Key): int {
    if Clean(g, e) then
      var b := ProposalOf(g, e).value;
      OfNextRun(g, b, AfterOf(g, b), CountsAfter(g.activeCounts, b), k)
    else 0
  }

  /** Tokens of cell `k` the event discards; contamination discards all that is pending. */
  function Lost(g: Gov, e: Event, k: Key): int {
    if Clean(g, e) then
      var b := ProposalOf(g, e).value;
      LostAt(g, b, e.now, AfterOf(g, b), k)
    else if EndsRun(g, e) then PendingAt(g.pending, k)
    else 0
  }

  ghost function BNext(bk: Book, e: Event, k: Key): Book {
    var g, g' := bk.g, Next(bk.g, e);
    var rotates, ends := g'.epoch != g.epoch, EndsRun(g, e);
    var run := if ends then bk.run + 1 else bk.run;
    // What the event itself leaves pending is of the run in progress after it; the rest was pending before.
    var added := if ends then ProducedNext(g, e, k) else Produced(g, e, k);
    Book(g',
         if rotates then 0 else bk.produced + Produced(g, e, k) + ProducedNext(g, e, k),
         if rotates then 0 else bk.lost + Lost(g, e, k),
         run,
         if ends then ProducedNext(g, e, k) else bk.runProduced + Produced(g, e, k),
         if ends then 0 else bk.runLost + Lost(g, e, k),
         if ends then CellTokens(g'.core, k) else bk.runBase,
         if PendingAt(g'.pending, k) > added then bk.oldest else run)
  }

  ghost function BPlay(bk: Book, events: seq<Event>, k: Key): Book
    decreases |events|
  {
    if events == [] then bk else BPlay(BNext(bk, events[0], k), events[1..], k)
  }

  ghost function OpenBook(g: Gov, k: Key): Book {
    Book(g, CellTokens(g.core, k) + PendingAt(g.pending, k), 0, 0, PendingAt(g.pending, k), 0, CellTokens(g.core, k), 0)
  }

  /** Over the epoch: what the cell holds, awaits and lost is what was produced for it. Over the run: what the
      cell gained, awaits and lost is what this run produced for it, and nothing older is pending. */
  ghost predicate Balanced(bk: Book, k: Key) {
    Agreed(bk.g) &&
    CellTokens(bk.g.core, k) + PendingAt(bk.g.pending, k) + bk.lost == bk.produced &&
    CellTokens(bk.g.core, k) - bk.runBase + PendingAt(bk.g.pending, k) + bk.runLost == bk.runProduced &&
    bk.lost >= 0 && bk.runLost >= 0 && CellTokens(bk.g.core, k) >= bk.runBase &&
    (PendingAt(bk.g.pending, k) > 0 ==> bk.oldest == bk.run)
  }

  lemma LostNonnegative(g: Gov, b: Batch, now: real, after: nat, k: Key)
    requires b.enteringDelta <= b.total
    ensures LostAt(g, b, now, after, k) >= 0
  {
  }

  lemma CleanCell(g: Gov, e: Event, k: Key)
    requires Agreed(g) && Clean(g, e)
    ensures var g' := Next(g, e);
      var b := ProposalOf(g, e).value;
      CellTokens(g'.core, k) >= CellTokens(g.core, k) && Lost(g, e, k) >= 0 &&
      CellTokens(g'.core, k) + PendingAt(g'.pending, k) + Lost(g, e, k)
        == CellTokens(g.core, k) + PendingAt(g.pending, k) + Produced(g, e, k) + ProducedNext(g, e, k) &&
      (BeginsRun(g, b) ==> PendingAt(g'.pending, k) == ProducedNext(g, e, k)) &&
      (!BeginsRun(g, b) ==> ProducedNext(g, e, k) == 0) &&
      g'.epoch == g.epoch && g'.healthOutstanding == g.healthOutstanding
  {
    hide CommitBatch, Settle, Propose, LedgerExact, Linked, CellTokens, LostAt, OfRun, OfNextRun;
    CleanCommit(g, e.updates, e.now, e.quarantine);
    CommitPublishes(g, e.updates, e.now, e.quarantine);
    EntrantsCounted(g.requests, e.updates, e.now);
    NotDirty(g, e.quarantine);
    var b := ProposalOf(g, e).value;
    var after, counts := AfterOf(g, b), CountsAfter(g.activeCounts, b);
    SettleCell(g, b, e.now, after, counts, k);
    SettleDelivers(g, b, e.now, after, counts, k);
    LostNonnegative(g, b, e.now, after, k);
    NextRunOnly(g, b, after, counts, k);
    SameCell(Next(g, e).core, Settle(g, b, e.now, after, counts).value.core, k);
  }

  lemma NextRunOnly(g: Gov, b: Batch, after: nat, counts: Counts, k: Key)
    ensures !BeginsRun(g, b) ==> OfNextRun(g, b, after, counts, k) == 0
  {
  }

  lemma SameCell(c: Core, d: Core, k: Key)
    requires c.surface == d.surface
    ensures CellTokens(c, k) == CellTokens(d, k)
  {
  }

  lemma BareCell(c: Core, k: Key)
    requires c.surface == map[]
    ensures CellTokens(c, k) == 0
  {
  }

  /** What any other event does to cells and pending evidence. */
  lemma OtherCell(g: Gov, e: Event)
    requires Agreed(g) && !Clean(g, e)
    ensures var g' := Next(g, e);
      if g'.epoch != g.epoch then g'.pending == map[] && g'.core.surface == map[]
      else g'.core.surface == g.core.surface && g'.pending == if EndsRun(g, e) then map[] else g.pending
  {
    hide CommitBatch, Propose, Agreed, SameAccounts;
    if e.CommitCall? {
      OtherCommitCell(g, e);
    } else if e.AdmitCall? || e.PolicyCall? || e.RefreshCall? {
      RefreshingCell(g, e);
    } else {
      QuietCell(g, e);
    }
  }

  lemma OtherCommitCell(g: Gov, e: Event)
    requires Agreed(g) && e.CommitCall? && !Clean(g, e)
    ensures var g' := Next(g, e);
      g'.epoch == g.epoch && g'.core.surface == g.core.surface &&
      g'.pending == if EndsRun(g, e) then map[] else g.pending
  {
    hide CommitBatch, Propose, Agreed, BeginsRun;
    if CommitBatch(g, e.updates, e.now, e.quarantine).1.Ok? {
      CommitPublishes(g, e.updates, e.now, e.quarantine);
      DirtyCommit(g, e.updates, e.now, e.quarantine);
    } else {
      RefusedCommitKeeps(g, e.updates, e.now, e.quarantine);
    }
  }

  lemma QuietCell(g: Gov, e: Event)
    requires Agreed(g)
    requires e.Arrive? || e.ReleaseCall? || e.AttachCall? || e.ReadCall? || e.PrefillCall? || e.PreferCall?
    ensures var g' := Next(g, e);
      g'.epoch == g.epoch && g'.core.surface == g.core.surface && g'.pending == g.pending &&
      g'.healthOutstanding <= g.healthOutstanding
  {
    hide Agreed, Advance, Prefill, Choose;
    if e.ReadCall? || e.PrefillCall? || e.PreferCall? {
      ReadKeepsSurface(g.core, e);
    }
  }

  lemma ReadKeepsSurface(c: Core, e: Event)
    ensures e.ReadCall? && Advance(c, e.now).Ok? ==> Advance(c, e.now).value.surface == c.surface
    ensures e.PrefillCall? && Prefill(c, e.now, e.wall).Ok? ==> Prefill(c, e.now, e.wall).value.surface == c.surface
    ensures e.PreferCall? ==>
      var r := Choose(c, e.now, e.decode, e.prefill, e.age); r.Ok? ==> r.value.0.surface == c.surface
  {
    hide Duration, Weighs, ViewAt, Ledger.Expose;
  }

  lemma RefreshingCell(g: Gov, e: Event)
    requires Agreed(g) && (e.AdmitCall? || e.PolicyCall? || e.RefreshCall?)
    ensures var g' := Next(g, e);
      if g'.epoch != g.epoch then g'.pending == map[] && g'.core.surface == map[]
      else g'.core.surface == g.core.surface && g'.pending == if EndsRun(g, e) then map[] else g.pending
  {
    hide AdmitRequest, UpdatePolicy, RefreshIdentity, Agreed, Gap, Total, AllTokens, TokensMatch;
    RotateAccounts(g, e.now, e.current);
    RefreshAgreed(g, e.now, e.current);
    RotatedBare(g, e.now, e.current);
    var (g1, r) := RefreshIdentity(g, e.now, e.current);
    if e.AdmitCall? && r.Ok? {
      AdmitAccounts(g1, e.id, e.now, e.retracted, e.waiting, e.health);
    } else if e.PolicyCall? && r.Ok? && !g1.paused {
      PolicyAccounts(g1, e.epoch, e.revision, e.reference, e.maxWaiting, e.maxRunning);
    }
  }

  lemma RotatedBare(g: Gov, now: real, current: int)
    requires Agreed(g)
    ensures var (g1, r) := RefreshIdentity(g, now, current);
      (r == Ok(true) ==> g1.pending == map[] && g1.core.surface == map[]) && (r.Err? ==> g1 == g) &&
      (r == Ok(true) || (r.Ok? && r.value == false) || r.Err?)
  {
    hide Agreed;
  }

  /** Every call keeps every cell's book balanced. */
  lemma StepBalanced(bk: Book, e: Event, k: Key)
    requires Balanced(bk, k)
    ensures Balanced(BNext(bk, e, k), k)
  {
    hide Agreed, Next, Propose, CommitBatch, CellTokens, OfRun, OfNextRun, LostAt, BeginsRun, Taints;
    NextAgreed(bk.g, e);
    var g' := Next(bk.g, e);
    if Clean(bk.g, e) {
      CleanCell(bk.g, e, k);
    } else {
      OtherCell(bk.g, e);
      SameCell(g'.core, bk.g.core.(surface := g'.core.surface), k);
      if g'.epoch != bk.g.epoch {
        BareCell(g'.core, k);
      } else {
        SameCell(g'.core, bk.g.core, k);
      }
    }
  }

  /** In every run of calls, for every cell. */
  lemma {:induction false} RunBalanced(bk: Book, events: seq<Event>, k: Key)
    requires Balanced(bk, k)
    ensures Balanced(BPlay(bk, events, k), k) && BPlay(bk, events, k).g == Play(bk.g, events)
    decreases |events|
  {
    hide Balanced, Next, EndsRun, Produced, ProducedNext, Lost;
    if events != [] {
      StepBalanced(bk, events[0], k);
      RunBalanced(BNext(bk, events[0], k), events[1..], k);
    }
  }

  lemma OpenBalanced(g: Gov, k: Key)
    requires Agreed(g)
    ensures Balanced(OpenBook(g, k), k)
  {
  }

  /** In every run the pending tokens of a cell, and what the cell gained since Decode last began, are at most
      what this very run produced for that cell; and all a cell holds was produced for it in this epoch. */
  lemma PendingStaysInRun(g: Gov, events: seq<Event>, k: Key)
    requires Agreed(g)
    ensures var bk := BPlay(OpenBook(g, k), events, k);
      bk.g == Play(g, events) &&
      (CellTokens(bk.g.core, k) - bk.runBase) + PendingAt(bk.g.pending, k) <= bk.runProduced &&
      CellTokens(bk.g.core, k) + PendingAt(bk.g.pending, k) <= bk.produced &&
      (PendingAt(bk.g.pending, k) > 0 ==> bk.oldest == bk.run)
  {
    hide Agreed, BPlay, CellTokens, Play;
    OpenBalanced(g, k);
    RunBalanced(OpenBook(g, k), events, k);
  }

  // ---------- The requests of an epoch ----------

  predicate OfEpoch(r: Request, epoch: nat) {
    r.reservation.Some? && r.reservation.value.epoch == epoch
  }

  /** Tokens earned by requests admitted in the epoch, and by all others. */
  function EarnedInW(epoch: nat): Weight {
    (r: Request) => if OfEpoch(r, epoch) then EarnedW()(r) else 0
  }

  function EarnedElsewhereW(epoch: nat): Weight {
    (r: Request) => if OfEpoch(r, epoch) then 0 else EarnedW()(r)
  }

  lemma {:induction false} EarnedSplits(epoch: nat, rs: seq<Request>)
    ensures Total(EarnedW(), rs) == Total(EarnedInW(epoch), rs) + Total(EarnedElsewhereW(epoch), rs)
  {
    if rs != [] {
      EarnedSplits(epoch, rs[..|rs| - 1]);
    }
  }

  /** The sum cannot grow when no request's share does, new requests having none. */
  lemma {:induction false} TotalShrinks(w: Weight, rs: seq<Request>, rs': seq<Request>)
    requires |rs| <= |rs'|
    requires forall i :: 0 <= i < |rs| ==> w(rs'[i]) <= w(rs[i])
    requires forall i :: |rs| <= i < |rs'| ==> w(rs'[i]) <= 0
    ensures Total(w, rs') <= Total(w, rs)
  {
    if |rs'| > |rs| {
      TotalShrinks(w, rs, rs'[..|rs'| - 1]);
    } else if rs != [] {
      TotalShrinks(w, rs[..|rs| - 1], rs'[..|rs| - 1]);
    }
  }

  ghost predicate NoneEarnsElsewhere(epoch: nat, rs: seq<Request>, rs': seq<Request>) {
    |rs| <= |rs'| &&
    (forall i :: 0 <= i < |rs| ==> EarnedElsewhereW(epoch)(rs'[i]) <= EarnedElsewhereW(epoch)(rs[i])) &&
    forall i :: |rs| <= i < |rs'| ==> EarnedElsewhereW(epoch)(rs'[i]) <= 0
  }

  lemma CommitEarnsHere(g: Gov, updates: seq<Update>, now: real, quarantine: bool)
    requires Owned(g) && Agreed(g) && Native(g, CommitCall(updates, now, quarantine))
    ensures NoneEarnsElsewhere(g.epoch, g.requests, CommitBatch(g, updates, now, quarantine).0.requests)
  {
    hide CommitBatch, Propose, Linked, LedgerExact, EarnedW;
    var (g', r) := CommitBatch(g, updates, now, quarantine);
    if r.Ok? {
      CommitPublishes(g, updates, now, quarantine);
      ProposeFaithful(g.requests, updates, now, g.surfaceTime);
      TerminalUntouched(g.requests, updates, now);
      EntrantsCounted(g.requests, updates, now);
      var b := Propose(g.requests, updates, now).value;
      forall i | 0 <= i < |g.requests| && i in b.seen
        ensures EarnedElsewhereW(g.epoch)(g'.requests[i]) <= EarnedElsewhereW(g.epoch)(g.requests[i])
      {
        var j :| 0 <= j < |updates| && updates[j].id == i;
        assert OwnedRequest(g.requests[i], g.epoch);
        assert b.next[i].reservation == g.requests[i].reservation;
      }
    } else {
      RefusedCommitKeeps(g, updates, now, quarantine);
    }
  }

  /** A request's share elsewhere, by its reservation and progress. */
  lemma ElsewhereBy(epoch: nat, r: Request, r': Request)
    requires r'.progress == r.progress
    requires r.progress.Some? && r.progress.value.entered ==> r.progress.value.output >= 1
    requires r'.reservation == r.reservation || OfEpoch(r', epoch)
    ensures EarnedElsewhereW(epoch)(r') <= EarnedElsewhereW(epoch)(r)
  {
    assert EarnedW()(r') == EarnedW()(r) >= 0;
  }

  lemma AdmitEarnsNothing(g: Gov, id: nat, now: real, retracted: bool, waiting: Option<nat>, health: bool)
    requires Agreed(g)
    ensures NoneEarnsElsewhere(g.epoch, g.requests, AdmitRequest(g, id, now, retracted, waiting, health).0.requests)
  {
    hide AdmitFresh, Linked, LedgerExact, EarnedElsewhereW, OfEpoch;
    var g' := AdmitRequest(g, id, now, retracted, waiting, health).0;
    if g' != g {
      AdmitFreshCases(g, id, now, waiting, health);
      if IsGrant(g, id, now, waiting, health, g') {
        var core: Core, cls: Class, d: Decision :| g' == Reserve(g.(core := core), id, now, cls, health, d);
        ReserveOfEpoch(g.(core := core), id, now, cls, health, d);
      }
    }
    forall i | 0 <= i < |g.requests|
      ensures EarnedElsewhereW(g.epoch)(g'.requests[i]) <= EarnedElsewhereW(g.epoch)(g.requests[i])
    {
      EnteredOutput(g, i);
      ElsewhereBy(g.epoch, g.requests[i], g'.requests[i]);
    }
  }

  lemma ReserveOfEpoch(g: Gov, id: nat, now: real, cls: Class, health: bool, d: Decision)
    requires id < |g.requests|
    ensures var g' := Reserve(g, id, now, cls, health, d);
      |g'.requests| == |g.requests| && OfEpoch(g'.requests[id], g.epoch) &&
      (forall i :: 0 <= i < |g.requests| ==> g'.requests[i].progress == g.requests[i].progress) &&
      (forall i :: 0 <= i < |g.requests| && i != id ==> g'.requests[i] == g.requests[i])
  {
  }

  lemma EnteredOutput(g: Gov, i: nat)
    requires Agreed(g) && i < |g.requests|
    ensures var p := g.requests[i].progress; p.Some? && p.value.entered ==> p.value.output >= 1
  {
    hide Linked, LedgerExact;
  }

  lemma QuietEarnsNothing(g: Gov, e: Event)
    requires Agreed(g) && !e.AdmitCall? && !e.CommitCall? && Next(g, e).epoch == g.epoch
    ensures NoneEarnsElsewhere(g.epoch, g.requests, Next(g, e).requests)
  {
    hide Next, Agreed, EarnedElsewhereW;
    var g' := Next(g, e);
    if e.Arrive? {
      ArriveAppends(g, e);
    } else {
      QuietLength(g, e);
    }
    forall i | 0 <= i < |g.requests|
      ensures EarnedElsewhereW(g.epoch)(g'.requests[i]) <= EarnedElsewhereW(g.epoch)(g.requests[i])
    {
      EnteredOutput(g, i);
      QuietRequest(g, e, i);
      if g'.requests[i].progress == g.requests[i].progress {
        ReleasedElsewhere(g.epoch, g.requests[i], g'.requests[i]);
      } else {
        NotEntered(g.epoch, g'.requests[i], g.requests[i]);
      }
    }
    if e.Arrive? {
      NotEntered(g.epoch, g'.requests[|g.requests|], g'.requests[|g.requests|]);
    }
  }

  lemma QuietRequest(g: Gov, e: Event, i: nat)
    requires !e.AdmitCall? && !e.CommitCall? && i < |g.requests|
    ensures var r, r' := g.requests[i], Next(g, e).requests[i];
      |Next(g, e).requests| >= |g.requests| && Quiet(r, r')
  {
    hide RefreshIdentity, UpdatePolicy, AttachProgress, ReleaseRequest, ReadCore, PrefillCompleted, PreferDecode;
    if e.ReleaseCall? {
      ReleaseQuiet(g, e.id, i);
    } else if e.AttachCall? {
      AttachQuiet(g, e.id, i);
    } else if !e.Arrive? {
      OthersKeepRequests(g, e);
    }
  }

  /** The same grant, and progress only where there was none. */
  predicate Quiet(r: Request, r': Request) {
    OfSame(r, r') && (r'.progress != r.progress ==> r.progress.None? && r'.progress.Some? && !r'.progress.value.entered)
  }

  lemma ReleaseQuiet(g: Gov, id: nat, i: nat)
    requires i < |g.requests|
    ensures var g' := ReleaseRequest(g, id).0; |g'.requests| == |g.requests| && Quiet(g.requests[i], g'.requests[i])
  {
  }

  lemma AttachQuiet(g: Gov, id: nat, i: nat)
    requires i < |g.requests|
    ensures var g' := AttachProgress(g, id).0; |g'.requests| == |g.requests| && Quiet(g.requests[i], g'.requests[i])
  {
  }

  lemma OthersKeepRequests(g: Gov, e: Event)
    requires e.PolicyCall? || e.RefreshCall? || e.ReadCall? || e.PrefillCall? || e.PreferCall?
    ensures Next(g, e).requests == g.requests
  {
    hide Advance, Prefill, Choose, StartSurfaceEpoch, UpdateReference;
  }

  lemma ArriveAppends(g: Gov, e: Event)
    requires e.Arrive?
    ensures Next(g, e).requests == g.requests + [Request(e.input, e.horizon, None, None)]
  {
  }

  lemma QuietLength(g: Gov, e: Event)
    requires !e.AdmitCall? && !e.CommitCall? && !e.Arrive?
    ensures |Next(g, e).requests| == |g.requests|
  {
    hide RefreshIdentity, UpdatePolicy, ReadCore, PrefillCompleted, PreferDecode;
    if !e.ReleaseCall? && !e.AttachCall? {
      OthersKeepRequests(g, e);
    }
  }

  /** The same reservation, released or not. */
  predicate OfSame(r: Request, r': Request) {
    r'.reservation.Some? == r.reservation.Some? &&
    (r.reservation.Some? ==>
      r'.reservation.value == r.reservation.value.(released := r'.reservation.value.released) &&
      (r.reservation.value.released ==> r'.reservation.value.released))
  }

  lemma ReleasedElsewhere(epoch: nat, r: Request, r': Request)
    requires r'.progress == r.progress && OfSame(r, r')
    ensures EarnedElsewhereW(epoch)(r') == EarnedElsewhereW(epoch)(r)
  {
    assert EarnedW()(r') == EarnedW()(r);
  }

  lemma NotEntered(epoch: nat, r': Request, r: Request)
    requires r'.progress.Some? ==> !r'.progress.value.entered
    requires r.progress.Some? ==> !r.progress.value.entered
    ensures EarnedElsewhereW(epoch)(r') == 0 == EarnedElsewhereW(epoch)(r)
  {
    assert EarnedW()(r') == 0 == EarnedW()(r);
  }

  // ---------- Grants persist ----------

  /** Requests are never forgotten, and a grant changes only by its release. */
  lemma RequestsPersist(g: Gov, e: Event)
    ensures var g' := Next(g, e);
      |g'.requests| >= |g.requests| &&
      forall i :: 0 <= i < |g.requests| && g.requests[i].reservation.Some? ==> OfSame(g.requests[i], g'.requests[i])
  {
    hide Next;
    if e.CommitCall? {
      CommitPersists(g, e);
    } else if e.AdmitCall? {
      AdmitPersists(g, e);
    } else {
      QuietLonger(g, e);
      forall i | 0 <= i < |g.requests| ensures OfSame(g.requests[i], Next(g, e).requests[i]) {
        QuietRequest(g, e, i);
      }
    }
  }

  lemma QuietLonger(g: Gov, e: Event)
    requires !e.CommitCall? && !e.AdmitCall?
    ensures |Next(g, e).requests| >= |g.requests|
  {
    hide Next;
    if e.Arrive? {
      ArriveAppends(g, e);
    } else {
      QuietLength(g, e);
    }
  }

  lemma CommitPersists(g: Gov, e: Event)
    requires e.CommitCall?
    ensures |Next(g, e).requests| == |g.requests|
    ensures forall i :: 0 <= i < |g.requests| ==> Next(g, e).requests[i].reservation == g.requests[i].reservation
  {
    hide CommitBatch, Propose;
    if CommitBatch(g, e.updates, e.now, e.quarantine).1.Ok? {
      CommitPublishes(g, e.updates, e.now, e.quarantine);
      ProposalKeepsReservations(g.requests, e.updates, e.now);
    } else {
      RefusedCommitKeeps(g, e.updates, e.now, e.quarantine);
    }
  }

  lemma {:induction false} ProposalKeepsReservations(rs: seq<Request>, updates: seq<Update>, now: real)
    requires Propose(rs, updates, now).Ok?
    ensures var next := Propose(rs, updates, now).value.next;
      |next| == |rs| && forall i :: 0 <= i < |rs| ==> next[i].reservation == rs[i].reservation
  {
    if updates != [] {
      ProposalKeepsReservations(rs, updates[..|updates| - 1], now);
    }
  }

  lemma AdmitPersists(g: Gov, e: Event)
    requires e.AdmitCall?
    ensures |Next(g, e).requests| == |g.requests|
    ensures forall i :: 0 <= i < |g.requests| && g.requests[i].reservation.Some? ==>
      Next(g, e).requests[i].reservation == g.requests[i].reservation
  {
    hide RefreshIdentity, AdmitFresh;
    Hooks.RefreshKeepsRequests(g, e.now, e.current);
    var (g1, r) := RefreshIdentity(g, e.now, e.current);
    if r.Ok? && AdmitRequest(g1, e.id, e.now, e.retracted, e.waiting, e.health).0 != g1 {
      AdmitFreshCases(g1, e.id, e.now, e.waiting, e.health);
    }
  }

  /** A decision stands: whatever is called after a grant, asking for the request again changes nothing, and is
      answered by the same decision until the release, and by an error after it. */
  lemma {:induction false} DecisionStands(g: Gov, events: seq<Event>, id: nat, now: real, retracted: bool,
                                          waiting: Option<nat>)
    requires id < |g.requests| && g.requests[id].reservation.Some?
    ensures var s := Play(g, events);
      var was := g.requests[id].reservation.value;
      id < |s.requests| && OfSame(g.requests[id], s.requests[id]) &&
      AdmitRequest(s, id, now, retracted, waiting, was.health)
        == (s, if s.requests[id].reservation.value.released then Err(Internal) else Ok(was.decision))
    decreases |events|
  {
    hide Next, AdmitRequest;
    if events == [] {
      ReadmissionIsFree(g, id, now, retracted, waiting, g.requests[id].reservation.value.health);
    } else {
      RequestsPersist(g, events[0]);
      DecisionStands(Next(g, events[0]), events[1..], id, now, retracted, waiting);
    }
  }

  /** Within an epoch a native call earns tokens only for requests admitted in it. */
  lemma StepEarnsHere(g: Gov, e: Event)
    requires Owned(g) && Agreed(g) && Native(g, e) && Next(g, e).epoch == g.epoch
    ensures Total(EarnedElsewhereW(g.epoch), Next(g, e).requests) <= Total(EarnedElsewhereW(g.epoch), g.requests)
  {
    hide Owned, Agreed, Native, CommitBatch, RefreshIdentity, AdmitRequest, EarnedElsewhereW, NoneEarnsElsewhere, Total;
    var g' := Next(g, e);
    if e.CommitCall? {
      CommitEarnsHere(g, e.updates, e.now, e.quarantine);
    } else if e.AdmitCall? {
      AdmitCallEarns(g, e);
    } else {
      QuietEarnsNothing(g, e);
    }
    EarnsByRequest(g.epoch, g.requests, g'.requests);
  }

  lemma AdmitCallEarns(g: Gov, e: Event)
    requires Agreed(g) && e.AdmitCall? && Next(g, e).epoch == g.epoch
    ensures NoneEarnsElsewhere(g.epoch, g.requests, Next(g, e).requests)
  {
    hide Agreed, AdmitRequest, EarnedElsewhereW;
    var g1 := RefreshIdentity(g, e.now, e.current).0;
    RefreshAgreed(g, e.now, e.current);
    AdmitKeepsEpoch(g1, e.id, e.now, e.retracted, e.waiting, e.health);
    AdmitEarnsNothing(g1, e.id, e.now, e.retracted, e.waiting, e.health);
  }

  lemma EarnsByRequest(epoch: nat, rs: seq<Request>, rs': seq<Request>)
    requires NoneEarnsElsewhere(epoch, rs, rs')
    ensures Total(EarnedElsewhereW(epoch), rs') <= Total(EarnedElsewhereW(epoch), rs)
  {
    hide EarnedElsewhereW;
    TotalShrinks(EarnedElsewhereW(epoch), rs, rs');
  }

  /** All that other requests earned has been discarded, or was handed to the core before this epoch. */
  ghost predicate EpochPure(tr: Trace) {
    Conserved(tr) && Owned(tr.g) && Total(EarnedElsewhereW(tr.g.epoch), tr.g.requests) <= tr.base + tr.dropped
  }

  lemma StepPure(tr: Trace, e: Event)
    requires EpochPure(tr) && Native(tr.g, e)
    ensures EpochPure(TNext(tr, e))
  {
    hide Agreed, Owned, Native, Next, Delivered, CommitDrops, Gap, TokensMatch, EarnedElsewhereW, Total, PendingSum;
    StepConserved(tr, e);
    NextOwned(tr.g, e);
    var g, g' := tr.g, Next(tr.g, e);
    if g'.epoch == g.epoch {
      StepEarnsHere(g, e);
      DroppedNonnegative(g, e);
    } else {
      OtherCellsBare(g, e);
      PendingNone(Size(g'.nativeMax));
      EarnedSplits(g'.epoch, g'.requests);
      EarnedInNonnegative(g', g'.epoch);
    }
  }

  lemma OtherCellsBare(g: Gov, e: Event)
    requires Agreed(g) && Next(g, e).epoch != g.epoch
    ensures Next(g, e).pending == map[]
  {
    hide Agreed, CommitBatch, Propose, BeginsRun, RefreshIdentity, AdmitRequest, UpdatePolicy;
    if e.CommitCall? && CommitBatch(g, e.updates, e.now, e.quarantine).1.Ok? {
      CommitPublishes(g, e.updates, e.now, e.quarantine);
    } else {
      OtherCell(g, e);
    }
  }

  lemma DroppedNonnegative(g: Gov, e: Event)
    requires Agreed(g)
    ensures Dropped(g, e) >= 0
  {
    hide Agreed, CommitBatch, Next, Propose, SettleDrops;
    LinkedOf(g);
    if e.CommitCall? && Propose(g.requests, e.updates, e.now).Ok? {
      var b := Propose(g.requests, e.updates, e.now).value;
      var after := g.active + Sum4(b.entering) - Sum4(b.leaving);
      if after >= 0 {
        DropsNonnegative(g, b, e.now, after);
      }
    }
  }

  lemma EarnedInNonnegative(g: Gov, epoch: nat)
    requires Agreed(g)
    ensures Total(EarnedInW(epoch), g.requests) >= 0
  {
    hide Agreed;
    TallyRequests(g);
    SharesNonnegative(epoch, g.requests, g.surfaceTime);
  }

  lemma TallyRequests(g: Gov)
    requires Agreed(g)
    ensures AllProgressOk(g.requests, g.surfaceTime)
  {
  }

  lemma {:induction false} SharesNonnegative(epoch: nat, rs: seq<Request>, t: Option<real>)
    requires AllProgressOk(rs, t)
    ensures Total(EarnedInW(epoch), rs) >= 0
  {
    if rs != [] {
      var n := |rs| - 1;
      SharesNonnegative(epoch, rs[..n], t);
      assert EarnedW()(rs[n]) >= 0;
    }
  }

  lemma {:induction false} RunPure(tr: Trace, events: seq<Event>)
    requires EpochPure(tr) && NativeRun(tr.g, events)
    ensures EpochPure(TPlay(tr, events))
    decreases |events|
  {
    hide EpochPure, Next, TNext, Native;
    if events != [] {
      NextOfTrace(tr, events[0]);
      StepPure(tr, events[0]);
      RunPure(TNext(tr, events[0]), events[1..]);
    }
  }

  /** Over every native run: all tokens the core holds or awaits were earned by requests admitted in the
      current epoch; no token of another epoch's request is among them. */
  lemma EpochTokens(g: Gov, events: seq<Event>)
    requires EpochPure(Begin(g)) && NativeRun(g, events)
    ensures var g' := Play(g, events);
      AllTokens(g'.core.log) + PendingSum(g'.pending, Size(g'.nativeMax)) <= Total(EarnedInW(g'.epoch), g'.requests)
  {
    hide Agreed, Owned, Play, TPlay, NativeRun, Gap, TokensMatch, Total, PendingSum, AllTokens;
    PlayOfTrace(Begin(g), events);
    RunPure(Begin(g), events);
    var tr := TPlay(Begin(g), events);
    EarnedSplits(tr.g.epoch, tr.g.requests);
  }
}
