/** Response-surface profiles: coverage, the canonical document, and the round trip
    from a controller's export back into a fresh controller. */
module Profile {
  import opened Wrappers
  import opened Ticks
  import opened Ledger
  import opened CoreSpec
  import opened CoreRuns
  import opened Forecasts

  // ---------- Coverage ----------

  predicate Covers(cells: seq<ProfileCell>, want: Key) {
    exists cell :: cell in cells && Dominates(cell.key, want)
  }

  /** The keys among the first n that no cell covers, in key order. */
  function MissingFirst(cells: seq<ProfileCell>, n: nat): seq<Key> {
    if n == 0 then []
    else MissingFirst(cells, n - 1) + (if Covers(cells, KeyAt(n - 1)) then [] else [KeyAt(n - 1)])
  }

  function Coverage(cells: seq<ProfileCell>, maxRunning: nat): (seq<Key>, int) {
    var missing := MissingFirst(cells, PRESSURE_CLASSES * maxRunning);
    (missing, PRESSURE_CLASSES * maxRunning - |missing|)
  }

  lemma {:induction false} MissingMeaning(cells: seq<ProfileCell>, n: nat, key: Key)
    ensures key in MissingFirst(cells, n) <==> (exists i: nat :: i < n && KeyAt(i) == key) && !Covers(cells, key)
  {
    if n > 0 {
      MissingMeaning(cells, n - 1, key);
      if exists i: nat :: i < n && KeyAt(i) == key {
        var i: nat :| i < n && KeyAt(i) == key;
        if i < n - 1 { assert exists j: nat :: j < n - 1 && KeyAt(j) == key; }
      }
    }
  }

  lemma MissingExactly(cells: seq<ProfileCell>, maxRunning: nat, key: Key)
    ensures key in Coverage(cells, maxRunning).0 <==> InSurface(key, maxRunning) && !Covers(cells, key)
  {
    var n := PRESSURE_CLASSES * maxRunning;
    MissingMeaning(cells, n, key);
    if InSurface(key, maxRunning) {
      PlaceOf(key, maxRunning);
    }
  }

  /** The places of the covered keys among the first n. */
  ghost function CoveredPlaces(cells: seq<ProfileCell>, n: nat): set<nat> {
    set i: nat | i < n && Covers(cells, KeyAt(i))
  }

  lemma {:induction false} MissingCount(cells: seq<ProfileCell>, n: nat)
    ensures |MissingFirst(cells, n)| + |CoveredPlaces(cells, n)| == n
  {
    hide KeyAt, Covers;
    if n == 0 {
      assert CoveredPlaces(cells, 0) == {};
    } else {
      MissingCount(cells, n - 1);
      assert CoveredPlaces(cells, n)
          == CoveredPlaces(cells, n - 1) + (if Covers(cells, KeyAt(n - 1)) then {n - 1} else {});
    }
  }

  lemma {:induction false} MissingAscends(cells: seq<ProfileCell>, n: nat)
    ensures forall i, j :: 0 <= i < j < |MissingFirst(cells, n)| ==>
      Before(MissingFirst(cells, n)[i], MissingFirst(cells, n)[j])
  {
    hide KeyAt, Covers, Before;
    if n > 0 {
      MissingAscends(cells, n - 1);
      var before := MissingFirst(cells, n - 1);
      forall i | 0 <= i < |before| ensures Before(before[i], KeyAt(n - 1)) {
        MissingMeaning(cells, n - 1, before[i]);
        var k: nat :| k < n - 1 && KeyAt(k) == before[i];
        KeysAscend(k, n - 1);
      }
    }
  }

  /** The count is the number of covered keys, and the missing keys ascend. */
  lemma CoverageCounts(cells: seq<ProfileCell>, maxRunning: nat)
    ensures var (missing, covered) := Coverage(cells, maxRunning);
      covered == |CoveredPlaces(cells, PRESSURE_CLASSES * maxRunning)| &&
      forall i, j :: 0 <= i < j < |missing| ==> Before(missing[i], missing[j])
  {
    MissingCount(cells, PRESSURE_CLASSES * maxRunning);
    MissingAscends(cells, PRESSURE_CLASSES * maxRunning);
  }

  /** Whatever is missing stays missing for every heavier request. */
  lemma MissingClosedUpward(cells: seq<ProfileCell>, maxRunning: nat, key: Key, heavier: Key)
    requires key in Coverage(cells, maxRunning).0
    requires Dominates(heavier, key) && InSurface(heavier, maxRunning)
    ensures heavier in Coverage(cells, maxRunning).0
  {
    MissingExactly(cells, maxRunning, key);
    MissingExactly(cells, maxRunning, heavier);
    if Covers(cells, heavier) {
      var cell :| cell in cells && Dominates(cell.key, heavier);
      assert Dominates(cell.key, key);
    }
  }

  // ---------- What an export holds ----------

  lemma {:induction false} TokensNeedSeconds(log: Log, t: real, first: int, last: int)
    requires Until(log, t) && Charged(log) && Tokens(log, first, last) > 0
    ensures Seconds(log, first, last) > 0.0
  {
    var e := log.entry;
    if e.Exposed? {
      TokensNeedSeconds(log.before, t, first, last);
      ScaleNonnegative(e.active, Meet(e.from, e.to, Edge(first), Edge(last + 1)));
    } else if EntryTokens(e, first, last) > 0 {
      SecondsNonnegative(log.before, t, first, last);
    } else {
      TokensNeedSeconds(log.before, t, first, last);
    }
  }

  /** An exported cell is valid, fits u64, and states exactly its derived lower rate. */
  lemma ExportCellValid(c: Core, now: real, key: Key)
    requires Sound(c) && c.lastTime == Some(now) && LiveEvidence(c, now, key)
    ensures var cell := ExportCell(c, now, key);
      ValidProfileCell(cell, c.maxRunning) && cell.approved == DerivedLower(cell) && cell.longTokens < U64
  {
    var log := c.surface[key].log;
    var cell := ExportCell(c, now, key);
    CellReadable(c.surface[key], now, now);
    WindowTicks(now);
    TickMonotone(now - WINDOW_SECONDS, now - SHORT_WINDOW_SECONDS);
    var first, short, last := Tick(now - WINDOW_SECONDS), Tick(now - SHORT_WINDOW_SECONDS), Tick(now);
    WiderWindow(log, now, short, last, first, last);
    SecondsNonnegative(log, now, short, last);
    if cell.shortTokens > 0 {
      TokensNeedSeconds(log, now, short, last);
    }
    RateNonnegative(cell.longTokens, cell.longSeconds);
    if cell.shortSeconds > 0.0 {
      RateNonnegative(cell.shortTokens, cell.shortSeconds);
    }
  }

  ghost predicate Ascending(cells: seq<ProfileCell>) {
    forall i, j :: 0 <= i < j < |cells| ==> Before(cells[i].key, cells[j].key)
  }

  /** An export lists every key with live evidence once, in key order. */
  lemma {:induction false} ExportFirstMeaning(c: Core, now: real, n: nat)
    ensures var cells := ExportFirst(c, now, n);
      Ascending(cells) &&
      (forall cell :: cell in cells ==>
        (exists i: nat :: i < n && KeyAt(i) == cell.key) &&
        LiveEvidence(c, now, cell.key) && cell == ExportCell(c, now, cell.key)) &&
      (forall i: nat :: i < n && LiveEvidence(c, now, KeyAt(i)) ==> ExportCell(c, now, KeyAt(i)) in cells)
  {
    if n > 0 {
      ExportFirstMeaning(c, now, n - 1);
      var before, cells := ExportFirst(c, now, n - 1), ExportFirst(c, now, n);
      forall cell | cell in before ensures Before(cell.key, KeyAt(n - 1)) {
        var i: nat :| i < n - 1 && KeyAt(i) == cell.key;
        KeysAscend(i, n - 1);
      }
    }
  }

  lemma ExportMeaning(c: Core, now: real, key: Key)
    requires Sound(c)
    ensures Ascending(ExportAll(c, now)) && |ExportAll(c, now)| <= PRESSURE_CLASSES * c.maxRunning
    ensures LiveEvidence(c, now, key) <==> exists cell :: cell in ExportAll(c, now) && cell.key == key
    ensures forall cell :: cell in ExportAll(c, now) ==>
      LiveEvidence(c, now, cell.key) && cell == ExportCell(c, now, cell.key)
  {
    var n := PRESSURE_CLASSES * c.maxRunning;
    ExportFirstMeaning(c, now, n);
    ExportCount(c, now, n);
    if LiveEvidence(c, now, key) {
      PlaceOf(key, c.maxRunning);
      assert ExportCell(c, now, KeyAt(Place(key))) in ExportAll(c, now);
    }
  }

  /** Without an active prior, a key has a bound exactly when it is exported. */
  lemma BoundedWhenExported(c: Core, now: real, key: Key)
    requires Sound(c) && c.lastTime == Some(now) && !PriorActive(c, now)
    ensures BoundFor(c, now, key).Some? <==> LiveEvidence(c, now, key)
  {
  }

  lemma BoundedExactlyByCells(c: Core, now: real, key: Key)
    requires Sound(c) && c.lastTime == Some(now) && !PriorActive(c, now)
    ensures BoundFor(c, now, key).Some? <==> exists cell :: cell in ExportAll(c, now) && cell.key == key
  {
    BoundedWhenExported(c, now, key);
    ExportMeaning(c, now, key);
  }

  /** A forecast is UNKNOWN exactly when no dominating key has a bound. */
  lemma UnknownExactly(c: Core, now: real, want: Key)
    requires Sound(c) && c.reference > 0.0
    ensures Decide(c, now, want).reason == Unknown <==>
            forall key :: Dominates(key, want) ==> BoundFor(c, now, key).None?
  {
    SelectMeaning(c, now, want);
  }

  /** Live evidence alone: the forecast is UNKNOWN exactly on the export's missing keys. */
  lemma CoverageMatchesCore(c: Core, now: real, want: Key)
    requires Sound(c) && c.lastTime == Some(now) && c.reference > 0.0 && !PriorActive(c, now)
    requires InSurface(want, c.maxRunning)
    ensures Decide(c, now, want).reason == Unknown <==> want in Coverage(ExportAll(c, now), c.maxRunning).0
  {
    UnknownExactly(c, now, want);
    MissingExactly(ExportAll(c, now), c.maxRunning, want);
    forall key ensures BoundFor(c, now, key).Some? <==> exists cell :: cell in ExportAll(c, now) && cell.key == key {
      BoundedExactlyByCells(c, now, key);
    }
  }

  /** An export states the raw lower rate, never above what the same evidence admits by. */
  lemma ExportNeverAboveForecast(c: Core, now: real, cell: ProfileCell)
    requires Sound(c) && c.lastTime == Some(now) && cell in ExportAll(c, now)
    ensures LiveBound(c, now, cell.key).Some? && cell.approved <= LiveBound(c, now, cell.key).value
  {
    ExportMeaning(c, now, cell.key);
    var log := c.surface[cell.key].log;
    CellReadable(c.surface[cell.key], now, now);
    WindowTicks(now);
    WiderWindow(log, now, Tick(now) - 4, Tick(now), Tick(now) - 120, Tick(now));
  }

  // ---------- The document ----------

  /** A document cell: the stated lower rate, and the rate approved for use. */
  datatype DocumentCell = DocumentCell(evidence: ProfileCell, stated: real)

  predicate ValidDocumentCell(doc: DocumentCell, maxRunning: nat) {
    var cell := doc.evidence;
    ValidProfileCell(cell, maxRunning) && cell.longTokens < U64 && doc.stated == DerivedLower(cell)
  }

  /** Sorted without repeats, and every cell valid. */
  ghost predicate CanonicalCells(docs: seq<DocumentCell>, maxRunning: nat) {
    |docs| <= maxRunning * PRESSURE_CLASSES &&
    (forall i :: 0 <= i < |docs| ==> ValidDocumentCell(docs[i], maxRunning)) &&
    forall i, j :: 0 <= i < j < |docs| ==> Before(docs[i].evidence.key, docs[j].evidence.key)
  }

  /** The cell loop of profile validation: one pass that remembers the previous key. */
  method ValidateCells(docs: seq<DocumentCell>, maxRunning: nat) returns (r: Result<seq<ProfileCell>>)
    ensures r.Ok? <==> CanonicalCells(docs, maxRunning)
    ensures r.Ok? ==> |r.value| == |docs| && forall i :: 0 <= i < |docs| ==> r.value[i] == docs[i].evidence
  {
    if |docs| > maxRunning * PRESSURE_CLASSES {
      return Err(Invalid);
    }
    var cells: seq<ProfileCell> := [];
    var previous: Option<Key> := None;
    for i := 0 to |docs|
      invariant |cells| == i && forall j :: 0 <= j < i ==> cells[j] == docs[j].evidence
      invariant previous == if i == 0 then None else Some(docs[i - 1].evidence.key)
      invariant forall j :: 0 <= j < i ==> ValidDocumentCell(docs[j], maxRunning)
      invariant forall j, k :: 0 <= j < k < i ==> Before(docs[j].evidence.key, docs[k].evidence.key)
    {
      var cell := docs[i].evidence;
      if previous.Some? && !Before(previous.value, cell.key) {
        return Err(Invalid);
      }
      if !ValidDocumentCell(docs[i], maxRunning) {
        return Err(Invalid);
      }
      previous := Some(cell.key);
      cells := cells + [cell];
    }
    return Ok(cells);
  }

  function Insert(doc: DocumentCell, docs: seq<DocumentCell>): seq<DocumentCell> {
    if docs == [] || !Before(doc.evidence.key, docs[|docs| - 1].evidence.key) then docs + [doc]
    else Insert(doc, docs[..|docs| - 1]) + [docs[|docs| - 1]]
  }

  /** Flat cells as document cells, each approved at its stated lower rate. */
  function Documents(flat: seq<ProfileCell>): seq<DocumentCell> {
    if flat == [] then []
    else
      var n := |flat| - 1;
      Documents(flat[..n]) + [DocumentCell(flat[n], flat[n].approved)]
  }

  /** The stable sort by key of flat cells, each approved at its stated lower rate. */
  function SortedDocuments(flat: seq<ProfileCell>): seq<DocumentCell> {
    if flat == [] then []
    else
      var n := |flat| - 1;
      Insert(DocumentCell(flat[n], flat[n].approved), SortedDocuments(flat[..n]))
  }

  method BuildCells(flat: seq<ProfileCell>, maxRunning: nat) returns (r: Result<seq<ProfileCell>>)
    ensures r.Ok? <==> CanonicalCells(SortedDocuments(flat), maxRunning)
    ensures r.Ok? ==>
      (|r.value| == |SortedDocuments(flat)| &&
       forall i :: 0 <= i < |r.value| ==> r.value[i] == SortedDocuments(flat)[i].evidence)
  {
    r := ValidateCells(SortedDocuments(flat), maxRunning);
  }

  ghost predicate InOrder(docs: seq<DocumentCell>) {
    forall i, j :: 0 <= i < j < |docs| ==> !Before(docs[j].evidence.key, docs[i].evidence.key)
  }

  lemma {:induction false} InsertInOrder(doc: DocumentCell, docs: seq<DocumentCell>)
    requires InOrder(docs)
    ensures InOrder(Insert(doc, docs))
    ensures multiset(Insert(doc, docs)) == multiset(docs) + multiset{doc}
  {
    if docs == [] || !Before(doc.evidence.key, docs[|docs| - 1].evidence.key) {
      AppendInOrder(docs, doc);
    } else {
      var n := |docs| - 1;
      InsertInOrder(doc, docs[..n]);
      var inner := Insert(doc, docs[..n]);
      assert docs == docs[..n] + [docs[n]];
      forall d | d in inner ensures !Before(docs[n].evidence.key, d.evidence.key) {
        assert d in multiset(inner);
      }
      LastInOrder(inner, docs[n]);
    }
  }

  lemma AppendInOrder(docs: seq<DocumentCell>, doc: DocumentCell)
    requires InOrder(docs) && (docs == [] || !Before(doc.evidence.key, docs[|docs| - 1].evidence.key))
    ensures InOrder(docs + [doc])
  {
    forall d | d in docs ensures !Before(doc.evidence.key, d.evidence.key) {
      var i :| 0 <= i < |docs| && docs[i] == d;
      assert i < |docs| - 1 ==> !Before(docs[|docs| - 1].evidence.key, docs[i].evidence.key);
    }
    LastInOrder(docs, doc);
  }

  lemma LastInOrder(docs: seq<DocumentCell>, doc: DocumentCell)
    requires InOrder(docs) && forall d :: d in docs ==> !Before(doc.evidence.key, d.evidence.key)
    ensures InOrder(docs + [doc])
  {
    hide Before;
    var all := docs + [doc];
    forall i, j | 0 <= i < j < |all| ensures !Before(all[j].evidence.key, all[i].evidence.key) {
      assert all[i] in docs;
    }
  }

  /** The sort keeps every cell and puts them in key order. */
  lemma {:induction false} SortedInOrder(flat: seq<ProfileCell>)
    ensures InOrder(SortedDocuments(flat)) && multiset(SortedDocuments(flat)) == multiset(Documents(flat))
  {
    if flat != [] {
      var n := |flat| - 1;
      SortedInOrder(flat[..n]);
      InsertInOrder(DocumentCell(flat[n], flat[n].approved), SortedDocuments(flat[..n]));
    }
  }

  /** Sorting an ascending list leaves it as it was. */
  lemma {:induction false} SortedStays(flat: seq<ProfileCell>)
    requires Ascending(flat)
    ensures |SortedDocuments(flat)| == |flat|
    ensures forall i :: 0 <= i < |flat| ==> SortedDocuments(flat)[i] == DocumentCell(flat[i], flat[i].approved)
  {
    if flat != [] {
      SortedStays(flat[..|flat| - 1]);
    }
  }

  lemma {:induction false} ImportAscending(cells: seq<ProfileCell>, maxRunning: nat)
    requires Ascending(cells) && forall i :: 0 <= i < |cells| ==> ValidProfileCell(cells[i], maxRunning)
    ensures ImportCells(cells, maxRunning).Ok?
    ensures var prior := ImportCells(cells, maxRunning).value;
      (forall i :: 0 <= i < |cells| ==> cells[i].key in prior && prior[cells[i].key] == cells[i]) &&
      (forall key :: key in prior ==> exists i :: 0 <= i < |cells| && cells[i].key == key)
  {
    if cells != [] {
      ImportAscending(cells[..|cells| - 1], maxRunning);
    }
  }

  lemma ExportCellsValid(c: Core, now: real)
    requires Sound(c) && c.lastTime == Some(now)
    ensures var cells := ExportAll(c, now);
      Ascending(cells) && |cells| <= PRESSURE_CLASSES * c.maxRunning && c.maxRunning > 0 &&
      forall i :: 0 <= i < |cells| ==>
        ValidProfileCell(cells[i], c.maxRunning) && cells[i].approved == DerivedLower(cells[i]) &&
        cells[i].longTokens < U64
  {
    hide SoundClock, RunWithin, NoTokensAfter, ExportAll, LiveEvidence, DerivedLower, InSurface, Ascending;
    var cells := ExportAll(c, now);
    ExportMeaning(c, now, Key(1, 0));
    forall i | 0 <= i < |cells|
      ensures ValidProfileCell(cells[i], c.maxRunning) && cells[i].approved == DerivedLower(cells[i]) &&
              cells[i].longTokens < U64
    {
      assert cells[i] in cells;
      ExportCellValid(c, now, cells[i].key);
    }
  }

  lemma SortedCanonical(flat: seq<ProfileCell>, maxRunning: nat)
    requires Ascending(flat) && |flat| <= maxRunning * PRESSURE_CLASSES
    requires forall i :: 0 <= i < |flat| ==>
      ValidProfileCell(flat[i], maxRunning) && flat[i].approved == DerivedLower(flat[i]) && flat[i].longTokens < U64
    ensures CanonicalCells(SortedDocuments(flat), maxRunning)
  {
    SortedStays(flat);
  }

  lemma ImportedAll(cells: seq<ProfileCell>, maxRunning: nat)
    requires Ascending(cells) && forall i :: 0 <= i < |cells| ==> ValidProfileCell(cells[i], maxRunning)
    ensures ImportCells(cells, maxRunning).Ok?
    ensures var prior := ImportCells(cells, maxRunning).value;
      (forall key :: key in prior <==> exists cell :: cell in cells && cell.key == key) &&
      (forall cell :: cell in cells ==> prior[cell.key] == cell)
  {
    hide ValidProfileCell, ImportCells;
    ImportAscending(cells, maxRunning);
    var prior := ImportCells(cells, maxRunning).value;
    forall cell | cell in cells ensures cell.key in prior && prior[cell.key] == cell {
      var i :| 0 <= i < |cells| && cells[i] == cell;
    }
  }

  /** What an export says of itself: canonical, and importable by a fresh controller. */
  lemma ExportImports(c: Core, now: real, reference: real, at: real, ttl: real)
    requires Sound(c) && c.lastTime == Some(now)
    requires reference >= 0.0 && at >= 0.0 && ttl > 0.0 && at + ttl < MAX_CLOCK
    ensures var cells := ExportAll(c, now);
      var r := NewWithProfile(reference, c.maxRunning, at, ttl, cells);
      CanonicalCells(SortedDocuments(cells), c.maxRunning) && r.Ok? && Sound(r.value) &&
      (forall key :: key in r.value.prior <==> exists cell :: cell in cells && cell.key == key) &&
      (forall cell :: cell in cells ==> r.value.prior[cell.key] == cell)
  {
    hide Sound, ExportAll, DerivedLower, Ascending;
    var cells := ExportAll(c, now);
    ExportCellsValid(c, now);
    SortedCanonical(cells, c.maxRunning);
    ImportedAll(cells, c.maxRunning);
    NewWithProfileSound(reference, c.maxRunning, at, ttl, cells);
  }

  /** A fresh controller seeded with an export forecasts each exported rate, exactly, until the deadline. */
  lemma ExportRoundTrip(c: Core, now: real, reference: real, at: real, ttl: real, later: real, cell: ProfileCell)
    requires Sound(c) && c.lastTime == Some(now) && cell in ExportAll(c, now)
    requires reference > 0.0 && 0.0 <= at <= later < at + ttl < MAX_CLOCK
    ensures var r := NewWithProfile(reference, c.maxRunning, at, ttl, ExportAll(c, now));
      r.Ok? &&
      var s := Admit(r.value, later, cell.key);
      s.Ok? && s.value.1.tps == cell.approved && s.value.1.evidence == Some(cell.key) &&
      (s.value.1.allowed <==> cell.approved >= reference) && !s.value.1.observed
  {
    ExportImports(c, now, reference, at, ttl);
    ExportMeaning(c, now, cell.key);
    BoundsInSurfaceOfLive(c, now, cell.key);
  }

  lemma BoundsInSurfaceOfLive(c: Core, now: real, key: Key)
    requires Sound(c) && LiveEvidence(c, now, key)
    ensures InSurface(key, c.maxRunning)
  {
  }

  /** The seeded controller is UNKNOWN exactly on the same missing keys. */
  lemma SeededCoverageMatches(c: Core, now: real, reference: real, at: real, ttl: real, later: real, want: Key)
    requires Sound(c) && c.lastTime == Some(now) && InSurface(want, c.maxRunning)
    requires reference > 0.0 && 0.0 <= at <= later < at + ttl < MAX_CLOCK
    ensures var r := NewWithProfile(reference, c.maxRunning, at, ttl, ExportAll(c, now));
      r.Ok? && Admit(r.value, later, want).Ok? &&
      (Admit(r.value, later, want).value.1.reason == Unknown <==>
       want in Coverage(ExportAll(c, now), c.maxRunning).0)
  {
    hide SoundClock, RunWithin, NoTokensAfter, ExportAll, Coverage, Decide, CanonicalCells, Select;
    var cells := ExportAll(c, now);
    ExportImports(c, now, reference, at, ttl);
    var s := Advance(NewWithProfile(reference, c.maxRunning, at, ttl, cells).value, later).value;
    ReadSound(NewWithProfile(reference, c.maxRunning, at, ttl, cells).value, later);
    UnknownExactly(s, later, want);
    MissingExactly(cells, c.maxRunning, want);
    forall key ensures BoundFor(s, later, key).Some? <==> exists cell :: cell in cells && cell.key == key {
      assert s.surface == map[];
    }
  }
}
