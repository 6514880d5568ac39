/** The unbounded account that the controller's rings stand for: every token
    sample and every maximal span of clean time since the epoch began. Window
    evidence is read off it directly, as a sum and as an integral. */
module Ledger {
  import opened Ticks

  datatype Entry =
    | Sample(tick: int, tokens: nat, seconds: real)
    | Exposed(from: real, to: real, active: nat)

  /** A log grows at its right end. */
  datatype Log = Blank | Then(before: Log, entry: Entry)

  function EntryTokens(e: Entry, first: int, last: int): nat {
    if e.Sample? && first <= e.tick <= last then e.tokens else 0
  }

  function EntrySeconds(e: Entry, first: int, last: int): real {
    match e
    case Sample(k, _, s) => if first <= k <= last then s else 0.0
    case Exposed(a, b, n) => n as real * Meet(a, b, Edge(first), Edge(last + 1))
  }

  /** Tokens sampled in ticks `first..last`. */
  function Tokens(log: Log, first: int, last: int): nat {
    match log
    case Blank => 0
    case Then(before, e) => Tokens(before, first, last) + EntryTokens(e, first, last)
  }

  /** Sequence-seconds in ticks `first..last`: lump samples, plus the integral of
      the active count over the clean time inside those ticks. */
  function Seconds(log: Log, first: int, last: int): real {
    match log
    case Blank => 0.0
    case Then(before, e) => Seconds(before, first, last) + EntrySeconds(e, first, last)
  }

  /** Record that `active` sequences ran over [from, to], joining the new span to
      the last one when nothing separates them. */
  function Expose(log: Log, from: real, to: real, active: nat): Log {
    if active == 0 || to <= from then log
    else if log.Then? && log.entry.Exposed? && log.entry.to == from && log.entry.active == active then
      Then(log.before, Exposed(log.entry.from, to, active))
    else Then(log, Exposed(from, to, active))
  }

  /** Every entry lies at or before time `t`. */
  ghost predicate Until(log: Log, t: real) {
    match log
    case Blank => true
    case Then(before, e) =>
      Until(before, t) &&
      (match e
       case Sample(k, _, s) => 0 <= k <= Tick(t) && 0.0 <= s
       case Exposed(a, b, _) => 0.0 <= a <= b <= t)
  }

  // ---------- Basic laws ----------

  lemma {:induction false} UntilLater(log: Log, t: real, u: real)
    requires Until(log, t) && t <= u
    ensures Until(log, u)
  {
    match log
    case Blank =>
    case Then(before, _) => UntilLater(before, t, u); TickMonotone(t, u);
  }

  lemma {:induction false} SecondsNonnegative(log: Log, t: real, first: int, last: int)
    requires Until(log, t)
    ensures Seconds(log, first, last) >= 0.0
  {
    match log
    case Blank =>
    case Then(before, e) =>
      SecondsNonnegative(before, t, first, last);
      if e.Exposed? {
        ScaleNonnegative(e.active, Meet(e.from, e.to, Edge(first), Edge(last + 1)));
      }
  }

  lemma ScaleNonnegative(n: nat, x: real)
    requires x >= 0.0
    ensures n as real * x >= 0.0
  {
  }

  lemma MeetSplits(a: real, b: real, lo: real, mid: real, hi: real)
    requires a <= b && lo <= mid <= hi
    ensures Meet(a, b, lo, mid) + Meet(a, b, mid, hi) == Meet(a, b, lo, hi)
  {
  }

  lemma ScaleSplits(n: nat, x: real, y: real)
    ensures n as real * x + n as real * y == n as real * (x + y)
  {
  }

  lemma EntrySplits(e: Entry, first: int, mid: int, last: int)
    requires e.Exposed? ==> e.from <= e.to
    requires first <= mid + 1 && mid <= last
    ensures EntrySeconds(e, first, mid) + EntrySeconds(e, mid + 1, last) == EntrySeconds(e, first, last)
  {
    if e.Exposed? {
      var x := Meet(e.from, e.to, Edge(first), Edge(mid + 1));
      var y := Meet(e.from, e.to, Edge(mid + 1), Edge(last + 1));
      MeetSplits(e.from, e.to, Edge(first), Edge(mid + 1), Edge(last + 1));
      ScaleSplits(e.active, x, y);
    }
  }

  /** Windows add up: both readings are additive over adjacent tick ranges. */
  lemma {:induction false} WindowSplits(log: Log, t: real, first: int, mid: int, last: int)
    requires Until(log, t) && first <= mid + 1 && mid <= last
    ensures Tokens(log, first, mid) + Tokens(log, mid + 1, last) == Tokens(log, first, last)
    ensures Seconds(log, first, mid) + Seconds(log, mid + 1, last) == Seconds(log, first, last)
  {
    match log
    case Blank =>
    case Then(before, e) =>
      WindowSplits(before, t, first, mid, last);
      EntrySplits(e, first, mid, last);
  }

  /** Nothing is recorded before time zero or after the log's end. */
  lemma {:induction false} NothingOutside(log: Log, t: real, first: int, last: int)
    requires Until(log, t) && (last < 0 || first > Tick(t)) && first <= last + 1
    ensures Tokens(log, first, last) == 0 && Seconds(log, first, last) == 0.0
  {
    match log
    case Blank =>
    case Then(before, e) =>
      NothingOutside(before, t, first, last);
      if e.Exposed? {
        TickBrackets(t);
        assert Meet(e.from, e.to, Edge(first), Edge(last + 1)) == 0.0;
      }
  }

  /** A wider window never shows less. */
  lemma WiderWindow(log: Log, t: real, first: int, last: int, first': int, last': int)
    requires Until(log, t) && first' <= first && last <= last' && first <= last + 1
    ensures Tokens(log, first, last) <= Tokens(log, first', last')
    ensures Seconds(log, first, last) <= Seconds(log, first', last')
  {
    WindowSplits(log, t, first', last, last');
    WindowSplits(log, t, first', first - 1, last);
    SecondsNonnegative(log, t, first', first - 1);
    SecondsNonnegative(log, t, last + 1, last');
  }

  /** Moving a window's end past the log's end changes nothing. */
  lemma LaterWindow(log: Log, t: real, first: int, last: int)
    requires Until(log, t) && Tick(t) <= last && first <= Tick(t) + 1
    ensures Tokens(log, first, last) == Tokens(log, first, Tick(t))
    ensures Seconds(log, first, last) == Seconds(log, first, Tick(t))
  {
    WindowSplits(log, t, first, Tick(t), last);
    NothingOutside(log, t, Tick(t) + 1, last);
  }

  lemma MeetJoins(a: real, m: real, b: real, lo: real, hi: real)
    requires a <= m <= b && lo <= hi
    ensures Meet(a, m, lo, hi) + Meet(m, b, lo, hi) == Meet(a, b, lo, hi)
  {
  }

  lemma EntryJoins(from: real, mid: real, to: real, active: nat, first: int, last: int)
    requires from <= mid <= to && first <= last + 1
    ensures EntrySeconds(Exposed(from, mid, active), first, last)
          + EntrySeconds(Exposed(mid, to, active), first, last)
         == EntrySeconds(Exposed(from, to, active), first, last)
  {
    var x := Meet(from, mid, Edge(first), Edge(last + 1));
    var y := Meet(mid, to, Edge(first), Edge(last + 1));
    MeetJoins(from, mid, to, Edge(first), Edge(last + 1));
    ScaleSplits(active, x, y);
  }

  /** What recording a span adds to every window. */
  lemma ExposeAdds(log: Log, from: real, to: real, active: nat, first: int, last: int)
    requires Until(log, from) && 0.0 <= from <= to && first <= last + 1
    ensures Until(Expose(log, from, to, active), to)
    ensures Tokens(Expose(log, from, to, active), first, last) == Tokens(log, first, last)
    ensures Seconds(Expose(log, from, to, active), first, last)
         == Seconds(log, first, last) + EntrySeconds(Exposed(from, to, active), first, last)
  {
    UntilLater(log, from, to);
    if active != 0 && from < to && log.Then? && log.entry.Exposed?
       && log.entry.to == from && log.entry.active == active {
      UntilLater(log.before, from, to);
      EntryJoins(log.entry.from, from, to, active, first, last);
    } else if active != 0 && from == to {
      assert Meet(from, to, Edge(first), Edge(last + 1)) == 0.0;
    }
  }

  /** Splitting a span at an intermediate time leaves the very same log. */
  lemma ExposeTwice(log: Log, from: real, mid: real, to: real, active: nat)
    requires from <= mid <= to
    ensures Expose(Expose(log, from, mid, active), mid, to, active) == Expose(log, from, to, active)
  {
  }
}
