/** The lazily recycled ring of 121 half-second buckets, and how far it mirrors
    the unbounded log: exactly on the ticks of the current 60 s window. */
module Ring {
  import opened Wrappers
  import opened Ticks
  import opened Ledger

  datatype Bucket = Bucket(tick: int, tokens: nat, seconds: real)

  const EMPTY := Bucket(-1, 0, 0.0)

  /** What a ring holds for tick `k`; a slot filed under another tick holds nothing. */
  function Held(r: seq<Bucket>, k: int): Bucket
    requires |r| == BUCKETS
  {
    if 0 <= k && r[k % BUCKETS].tick == k then r[k % BUCKETS] else Bucket(k, 0, 0.0)
  }

  /** Each slot is empty or filed under a tick of its own residue, none later than `last`. */
  ghost predicate Filed(r: seq<Bucket>, last: int) {
    |r| == BUCKETS &&
    forall i :: 0 <= i < BUCKETS ==>
      (r[i].tick == -1 || (0 <= r[i].tick <= last && r[i].tick % BUCKETS == i))
  }

  /** The ring agrees with the log on every tick of the 60 s window ending at `t`. */
  ghost predicate Mirrors(r: seq<Bucket>, log: Log, t: real) {
    Filed(r, Tick(t)) &&
    forall k :: 0 <= k && Tick(t) - 120 <= k <= Tick(t) ==>
      Held(r, k) == Bucket(k, Tokens(log, k, k), Seconds(log, k, k))
  }

  function SlotTokens(b: Bucket, first: int, last: int): nat {
    if b.tick >= 0 && first <= b.tick <= last then b.tokens else 0
  }

  function SlotSeconds(b: Bucket, first: int, last: int): real {
    if b.tick >= 0 && first <= b.tick <= last then b.seconds else 0.0
  }

  function SumTokens(r: seq<Bucket>, first: int, last: int, n: nat): nat
    requires n <= |r|
  {
    if n == 0 then 0 else SumTokens(r, first, last, n - 1) + SlotTokens(r[n - 1], first, last)
  }

  function SumSeconds(r: seq<Bucket>, first: int, last: int, n: nat): real
    requires n <= |r|
  {
    if n == 0 then 0.0 else SumSeconds(r, first, last, n - 1) + SlotSeconds(r[n - 1], first, last)
  }

  lemma {:induction false} SumGrows(r: seq<Bucket>, first: int, last: int, n: nat, m: nat)
    requires n <= m <= |r|
    ensures SumTokens(r, first, last, n) <= SumTokens(r, first, last, m)
    decreases m
  {
    if n < m {
      SumGrows(r, first, last, n, m - 1);
    }
  }

  /** Moving a window's end by one tick brings in exactly that tick's slot. */
  lemma {:induction false} SumExtends(r: seq<Bucket>, first: int, last: int, n: nat, clock: int)
    requires Filed(r, clock) && n <= BUCKETS && first <= last
    ensures SumTokens(r, first, last, n)
         == SumTokens(r, first, last - 1, n) + (if last % BUCKETS < n then Held(r, last).tokens else 0)
    ensures SumSeconds(r, first, last, n)
         == SumSeconds(r, first, last - 1, n) + (if last % BUCKETS < n then Held(r, last).seconds else 0.0)
  {
    if n > 0 {
      SumExtends(r, first, last, n - 1, clock);
    }
  }

  lemma {:induction false} SumNothing(r: seq<Bucket>, first: int, last: int, n: nat)
    requires n <= |r| && last < first
    ensures SumTokens(r, first, last, n) == 0 && SumSeconds(r, first, last, n) == 0.0
  {
    if n > 0 {
      SumNothing(r, first, last, n - 1);
    }
  }

  lemma HeldTick(r: seq<Bucket>, log: Log, t: real, k: int)
    requires Mirrors(r, log, t) && Until(log, t) && Tick(t) - 120 <= k
    ensures Held(r, k) == Bucket(k, Tokens(log, k, k), Seconds(log, k, k))
  {
    if k < 0 || k > Tick(t) {
      NothingOutside(log, t, k, k);
    }
  }

  /** Summing the slots filed inside a window reads the log's own window, at any
      time from the ring's last write on. */
  lemma {:induction false} RingReadsLog(r: seq<Bucket>, log: Log, t: real, first: int, last: int)
    requires Mirrors(r, log, t) && Until(log, t) && Tick(t) - 120 <= first <= last + 1
    ensures SumTokens(r, first, last, BUCKETS) == Tokens(log, first, last)
    ensures SumSeconds(r, first, last, BUCKETS) == Seconds(log, first, last)
    decreases last - first
  {
    if last < first {
      SumNothing(r, first, last, BUCKETS);
      WindowSplits(log, t, first, last, last);
    } else {
      RingReadsLog(r, log, t, first, last - 1);
      SumExtends(r, first, last, BUCKETS, Tick(t));
      HeldTick(r, log, t, last);
      WindowSplits(log, t, first, last - 1, last);
    }
  }

  /** Recycle the slot of tick `k` if it is filed under another tick. */
  method Slot(ring: array<Bucket>, k: int) returns (i: nat)
    requires ring.Length == BUCKETS && 0 <= k
    modifies ring
    ensures i == k % BUCKETS && ring[i] == Held(old(ring[..]), k)
    ensures ring[..] == old(ring[..])[i := Held(old(ring[..]), k)]
  {
    i := k % BUCKETS;
    if ring[i].tick != k {
      ring[i] := Bucket(k, 0, 0.0);
    }
    assert ring[..] == old(ring[..])[i := ring[i]];
  }

  method Clear(ring: array<Bucket>)
    requires ring.Length == BUCKETS
    modifies ring
    ensures ring[..] == seq(BUCKETS, _ => EMPTY)
  {
    for i := 0 to BUCKETS
      invariant forall j :: 0 <= j < i ==> ring[j] == EMPTY
    {
      ring[i] := EMPTY;
    }
    assert ring[..] == seq(BUCKETS, _ => EMPTY);
  }

  lemma EmptyMirrors(t: real)
    requires 0.0 <= t
    ensures Mirrors(seq(BUCKETS, _ => EMPTY), Blank, t) && Until(Blank, t)
  {
  }

  /** Adding to tick `k`'s bucket is adding a sample to the log. */
  lemma SampleMirrors(r: seq<Bucket>, log: Log, t: real, now: real, tokens: nat, seconds: real)
    requires Mirrors(r, log, t) && Until(log, t) && 0.0 <= t <= now && 0.0 <= seconds
    ensures var k := Tick(now);
      var was := Held(r, k);
      was.tokens == Tokens(log, k, k) &&
      Until(Then(log, Sample(k, tokens, seconds)), now) &&
      Mirrors(r[k % BUCKETS := Bucket(k, was.tokens + tokens, was.seconds + seconds)],
              Then(log, Sample(k, tokens, seconds)), now)
  {
    var k := Tick(now);
    TickMonotone(t, now);
    TickMonotone(0.0, t);
    UntilLater(log, t, now);
    var was := Held(r, k);
    HeldTick(r, log, t, k);
    var r' := r[k % BUCKETS := Bucket(k, was.tokens + tokens, was.seconds + seconds)];
    var log' := Then(log, Sample(k, tokens, seconds));
    forall j | 0 <= j && k - 120 <= j <= k
      ensures Held(r', j) == Bucket(j, Tokens(log', j, j), Seconds(log', j, j))
    {
      HeldTick(r, log, t, j);
    }
  }

  /** The ring's reading of a lookback window, refused on u64 overflow. */
  method Evidence(ring: array<Bucket>, now: real, lookback: real, ghost log: Log, ghost t: real)
    returns (r: Result<(nat, real)>)
    requires Mirrors(ring[..], log, t) && Until(log, t) && 0.0 <= t <= now
    requires lookback == WINDOW_SECONDS || lookback == SHORT_WINDOW_SECONDS
    ensures var first, last := Tick(now - lookback), Tick(now);
      r == if Tokens(log, first, last) < U64
           then Ok((Tokens(log, first, last), Seconds(log, first, last))) else Err(Invalid)
  {
    var first, last := Tick(now - lookback), Tick(now);
    WindowTicks(now);
    TickMonotone(t, now);
    RingReadsLog(ring[..], log, t, first, last);
    var tokens: nat, seconds := 0, 0.0;
    for i := 0 to BUCKETS
      invariant tokens == SumTokens(ring[..], first, last, i) < U64
      invariant seconds == SumSeconds(ring[..], first, last, i)
    {
      var b := ring[i];
      if b.tick >= 0 && first <= b.tick <= last {
        if tokens + b.tokens >= U64 {
          SumGrows(ring[..], first, last, i + 1, BUCKETS);
          return Err(Invalid);
        }
        tokens := tokens + b.tokens;
        seconds := seconds + b.seconds;
      }
    }
    return Ok((tokens, seconds));
  }

  // ---------- Advancing the clock ----------

  /** Mid-advance: the window ending at `now` shows the log plus the span [last, start]. */
  ghost predicate Accruing(r: seq<Bucket>, log: Log, last: real, start: real, active: nat, now: real) {
    Filed(r, Tick(now)) &&
    forall k :: 0 <= k && Tick(now) - 120 <= k <= Tick(now) ==>
      Held(r, k)
      == Bucket(k, Tokens(log, k, k), Seconds(log, k, k) + EntrySeconds(Exposed(last, start, active), k, k))
  }

  /** The first instant an advance may charge: a gap longer than the window is clamped. */
  function ClampedStart(last: real, now: real): real {
    Max(last, Max(Edge(Tick(now - WINDOW_SECONDS)), 0.0))
  }

  lemma AdvanceBegins(r: seq<Bucket>, log: Log, last: real, active: nat, now: real)
    requires Mirrors(r, log, last) && Until(log, last) && 0.0 <= last <= now
    ensures Accruing(r, log, last, ClampedStart(last, now), active, now)
    ensures last <= ClampedStart(last, now) <= now
    ensures Tick(ClampedStart(last, now)) >= Tick(now) - 120
  {
    var start := ClampedStart(last, now);
    WindowTicks(now);
    TickMonotone(last, now);
    forall k | 0 <= k && Tick(now) - 120 <= k <= Tick(now)
      ensures Held(r, k)
        == Bucket(k, Tokens(log, k, k), Seconds(log, k, k) + EntrySeconds(Exposed(last, start, active), k, k))
    {
      HeldTick(r, log, last, k);
      assert Meet(last, start, Edge(k), Edge(k + 1)) == 0.0;
    }
  }

  /** The sequence-seconds of one turn of the advance loop. */
  function Exposure(start: real, end: real, active: nat): real {
    (end - start) * active as real
  }

  /** A span inside tick `k` charges that tick alone, and in full. */
  lemma TurnCharges(last: real, start: real, end: real, active: nat, k: int, j: int)
    requires last <= start <= end && Edge(k) <= start && end <= Edge(k + 1)
    ensures EntrySeconds(Exposed(last, end, active), j, j)
         == EntrySeconds(Exposed(last, start, active), j, j) + (if j == k then Exposure(start, end, active) else 0.0)
  {
    EntryJoins(last, start, end, active, j, j);
    var x := Meet(start, end, Edge(j), Edge(j + 1));
    assert x == if j == k then end - start else 0.0;
    assert active as real * x == x * active as real;
  }

  /** Writing tick `k`'s slot changes what the ring holds for `k` and for no other tick of the window. */
  lemma PutHolds(r: seq<Bucket>, last: int, k: int, tokens: nat, seconds: real)
    requires Filed(r, last) && 0 <= k && last - 120 <= k <= last
    ensures var r' := r[k % BUCKETS := Bucket(k, tokens, seconds)];
      Filed(r', last) &&
      (forall j :: 0 <= j && last - 120 <= j <= last ==>
        Held(r', j) == if j == k then Bucket(k, tokens, seconds) else Held(r, j))
  {
    var r' := r[k % BUCKETS := Bucket(k, tokens, seconds)];
    forall j | 0 <= j && last - 120 <= j <= last && j != k
      ensures Held(r', j) == Held(r, j)
    {
      assert j % BUCKETS != k % BUCKETS;
    }
  }

  lemma TurnBounds(start: real, now: real)
    requires 0.0 <= start < now
    ensures var k, end := Tick(start), Min(Edge(Tick(start) + 1), now);
      0 <= k <= Tick(now) && Edge(k) <= start < end <= now && end <= Edge(k + 1) &&
      (end < now ==> Tick(end) == k + 1)
  {
    TickBrackets(start);
    TickMonotone(0.0, start);
    TickMonotone(start, now);
  }

  /** One turn of the advance loop charges the part of [start, now] inside start's own tick. */
  lemma AdvanceTurns(r: seq<Bucket>, log: Log, last: real, start: real, end: real, active: nat, now: real)
    requires Accruing(r, log, last, start, active, now)
    requires 0.0 <= last <= start < now && Tick(start) >= Tick(now) - 120
    requires end == Min(Edge(Tick(start) + 1), now)
    ensures var k := Tick(start);
      var was := Held(r, k);
      0 <= k && Accruing(r[k % BUCKETS := was.(seconds := was.seconds + Exposure(start, end, active))],
                         log, last, end, active, now)
  {
    TurnBounds(start, now);
    var k := Tick(start);
    var was := Held(r, k);
    var charge := Exposure(start, end, active);
    PutHolds(r, Tick(now), k, was.tokens, was.seconds + charge);
    forall j | 0 <= j && Tick(now) - 120 <= j <= Tick(now)
      ensures EntrySeconds(Exposed(last, end, active), j, j)
           == EntrySeconds(Exposed(last, start, active), j, j) + (if j == k then charge else 0.0)
    {
      TurnCharges(last, start, end, active, k, j);
    }
  }

  lemma AdvanceEnds(r: seq<Bucket>, log: Log, last: real, active: nat, now: real)
    requires Accruing(r, log, last, now, active, now) && Until(log, last) && 0.0 <= last <= now
    ensures Mirrors(r, Expose(log, last, now, active), now)
  {
    forall k | 0 <= k && Tick(now) - 120 <= k <= Tick(now)
      ensures Held(r, k) == Bucket(k, Tokens(Expose(log, last, now, active), k, k),
                                      Seconds(Expose(log, last, now, active), k, k))
    {
      ExposeAdds(log, last, now, active, k, k);
    }
  }

  /** Time that passes without exposure only moves the window. */
  lemma QuietAdvance(r: seq<Bucket>, log: Log, last: real, now: real)
    requires Mirrors(r, log, last) && Until(log, last) && 0.0 <= last <= now
    ensures Mirrors(r, log, now) && Until(log, now)
  {
    TickMonotone(last, now);
    UntilLater(log, last, now);
    forall k | 0 <= k && Tick(now) - 120 <= k <= Tick(now)
      ensures Held(r, k) == Bucket(k, Tokens(log, k, k), Seconds(log, k, k))
    {
      HeldTick(r, log, last, k);
    }
  }
}
