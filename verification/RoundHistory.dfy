/**
 * Frontend/src/chain/rounds-page.js over the queries of Frontend/src/chain/rounds-index.js: at most five
 * rounds read directly from chain, laid over a paged index of everything older.
 */
module RoundHistory {
  import opened Common

  datatype Row = Row(
    roundId: nat,
    resolved: bool,
    totalWager: nat,
    jackpotHit: bool,
    singleMinerRound: bool,
    projectionComplete: bool,
    singleMinerWinner: Option<nat>,
    details: nat,                 // the remaining facts of the round
    indexOnly: Option<nat>)       // what only indexed rows carry

  datatype Filter = All | Mined | Motherlode | Solo | Split

  // ----- the two spellings of a filter -----

  datatype Mode = Unsettled | Empty | MotherlodeMode | SoloMode | SplitMode

  /** The mode `decorate` gives a row. */
  function ModeOf(r: Row): Mode {
    if !r.resolved then Unsettled
    else if r.totalWager == 0 then Empty
    else if r.jackpotHit then MotherlodeMode
    else if r.singleMinerRound then SoloMode
    else SplitMode
  }

  predicate MatchesFilter(r: Row, f: Filter) {
    match f
    case All => true
    case Mined => r.resolved && r.totalWager > 0
    case Motherlode => ModeOf(r) == MotherlodeMode
    case Solo => ModeOf(r) == SoloMode
    case Split => ModeOf(r) == SplitMode
  }

  /** `applyFilter`: the same as column predicates. */
  predicate SqlFilter(r: Row, f: Filter) {
    match f
    case All => true
    case Mined => r.resolved && r.totalWager > 0
    case Motherlode => r.resolved && r.totalWager > 0 && r.jackpotHit
    case Solo => r.resolved && r.totalWager > 0 && !r.jackpotHit && r.singleMinerRound
    case Split => r.resolved && r.totalWager > 0 && !r.jackpotHit && !r.singleMinerRound
  }

  // ----- newest-first listings -----

  /** Rows filed under their own id. */
  ghost predicate Keyed(m: map<nat, Row>) { forall id :: id in m ==> m[id].roundId == id }

  ghost predicate NewestFirst(rows: seq<Row>) {
    forall i, j :: 0 <= i < j < |rows| ==> rows[i].roundId > rows[j].roundId
  }

  /** The rows of `m`, each once, newest first. */
  ghost predicate Lists(rows: seq<Row>, m: map<nat, Row>) {
    && NewestFirst(rows)
    && (forall r :: r in rows ==> r.roundId in m && m[r.roundId] == r)
    && (forall id :: id in m ==> m[id] in rows)
  }

  /** A listing is determined by what it lists. */
  lemma {:induction false} ListingUnique(a: seq<Row>, b: seq<Row>)
    requires NewestFirst(a) && NewestFirst(b)
    requires forall r :: r in a <==> r in b
    ensures a == b
  {
    assert a != [] ==> a[0] in b;
    assert b != [] ==> b[0] in a;
    if a != [] && b != [] {
      var i :| 0 <= i < |b| && b[i] == a[0];
      var j :| 0 <= j < |a| && a[j] == b[0];
      assert a[0] == b[0];
      forall r ensures r in a[1..] <==> r in b[1..] {
        assert r in a[1..] ==> r in a && r != a[0];
        assert r in b[1..] ==> r in b && r != b[0];
      }
      ListingUnique(a[1..], b[1..]);
    }
  }

  lemma ListsUnique(a: seq<Row>, b: seq<Row>, m: map<nat, Row>)
    requires Lists(a, m) && Lists(b, m)
    ensures a == b
  {
    ListingUnique(a, b);
  }

  /** `.sort` by id, newest first. */
  method SortNewestFirst(m: map<nat, Row>) returns (rows: seq<Row>)
    requires Keyed(m)
    ensures Lists(rows, m)
  {
    rows := [];
    var rest := m.Keys;
    while rest != {}
      invariant rest <= m.Keys
      invariant NewestFirst(rows)
      invariant forall r :: r in rows ==> r.roundId in m.Keys - rest && m[r.roundId] == r
      invariant forall id :: id in m.Keys - rest ==> m[id] in rows
      invariant forall r, id :: r in rows && id in rest ==> r.roundId > id
      decreases rest
    {
      var top := MaxOf(rest);
      rows := rows + [m[top]];
      rest := rest - {top};
    }
  }

  method MaxOf(s: set<nat>) returns (top: nat)
    requires s != {}
    ensures top in s && forall id :: id in s ==> id <= top
  {
    top :| top in s;
    var rest := s - {top};
    while rest != {}
      invariant rest <= s && top in s && forall id :: id in s && id !in rest ==> id <= top
      decreases rest
    {
      var id :| id in rest;
      if id > top { top := id; }
      rest := rest - {id};
    }
  }

  // ----- the index -----

  /** `applyBounds(applyFilter(...))`. */
  function Selected(table: map<nat, Row>, f: Filter, current: nat, excluded: set<nat>): map<nat, Row> {
    map id | id in table && id <= current && id !in excluded && SqlFilter(table[id], f) :: table[id]
  }

  /** `.range(from, from + size - 1)`. */
  function Range(rows: seq<Row>, from: nat, size: nat): seq<Row> {
    if from >= |rows| then [] else if from + size >= |rows| then rows[from..] else rows[from..from + size]
  }

  /** `loadIndexedRounds`: one slice of the bounded, filtered list, and the list's length. */
  method LoadIndexedRounds(table: map<nat, Row>, f: Filter, current: nat, excluded: set<nat>, offset: nat, size: nat)
    returns (rows: seq<Row>, filteredTotal: nat)
    requires Keyed(table)
    ensures exists list ::
      && Lists(list, Selected(table, f, current, excluded))
      && rows == Range(list, offset, size) && filteredTotal == |list|
  {
    var all := SortNewestFirst(Selected(table, f, current, excluded));
    rows, filteredTotal := Range(all, offset, size), |all|;
  }

  // ----- the overlay -----

  /** A direct row laid over its indexed version: `{ ...indexed, ...row }`, with the two fields that need
      the index's proof. */
  function Combine(direct: Row, indexed: Option<Row>): Row {
    var complete := indexed.Some? && indexed.value.projectionComplete && (!direct.resolved || indexed.value.resolved);
    direct.(projectionComplete := complete,
            singleMinerWinner := if complete then indexed.value.singleMinerWinner else direct.singleMinerWinner,
            indexOnly := if direct.indexOnly.None? && indexed.Some? then indexed.value.indexOnly else direct.indexOnly)
  }

  /** Round facts stay the chain's own, and a settled row is never called complete on the word of an
      index that has not seen its settlement. */
  predicate Trusts(r: Row, direct: Row, indexed: Option<Row>) {
    && r.(projectionComplete := direct.projectionComplete, singleMinerWinner := direct.singleMinerWinner,
          indexOnly := direct.indexOnly) == direct
    && (r.projectionComplete <==>
          indexed.Some? && indexed.value.projectionComplete && (direct.resolved ==> indexed.value.resolved))
    && (r.projectionComplete ==> r.singleMinerWinner == indexed.value.singleMinerWinner)
    && (!r.projectionComplete ==> r.singleMinerWinner == direct.singleMinerWinner)
    && (direct.indexOnly.Some? || indexed.None? ==> r.indexOnly == direct.indexOnly)
    && (direct.indexOnly.None? && indexed.Some? ==> r.indexOnly == indexed.value.indexOnly)
  }

  function Lookup(m: map<nat, Row>, id: nat): Option<Row> { if id in m then Some(m[id]) else None }

  /** The direct rows that pass the filter, as they are shown. */
  function DirectShown(direct: map<nat, Row>, indexed: map<nat, Row>, f: Filter): map<nat, Row> {
    map id | id in direct && MatchesFilter(Combine(direct[id], Lookup(indexed, id)), f) ::
      Combine(direct[id], Lookup(indexed, id))
  }

  /** Later entries of a list replace earlier ones with the same id. */
  function ById(rows: seq<Row>): map<nat, Row> {
    if rows == [] then map[] else ById(rows[..|rows| - 1])[rows[|rows| - 1].roundId := rows[|rows| - 1]]
  }

  /** Indexed rows that no direct row replaces and that pass the filter. */
  function IndexShown(rows: seq<Row>, direct: map<nat, Row>, f: Filter): map<nat, Row> {
    if rows == [] then map[]
    else
      var last, rest := rows[|rows| - 1], IndexShown(rows[..|rows| - 1], direct, f);
      if last.roundId !in direct && MatchesFilter(last, f) then rest[last.roundId := last] else rest
  }

  lemma {:induction false} ByIdKeyed(rows: seq<Row>)
    ensures Keyed(ById(rows)) && forall id :: id in ById(rows) <==> exists r :: r in rows && r.roundId == id
  {
    if rows != [] {
      ByIdKeyed(rows[..|rows| - 1]);
      assert forall r :: r in rows <==> r in rows[..|rows| - 1] || r == rows[|rows| - 1];
    }
  }

  lemma {:induction false} IndexShownKeyed(rows: seq<Row>, direct: map<nat, Row>, f: Filter)
    ensures Keyed(IndexShown(rows, direct, f))
    ensures forall id :: id in IndexShown(rows, direct, f) ==> id !in direct && IndexShown(rows, direct, f)[id] in rows
  {
    if rows != [] { IndexShownKeyed(rows[..|rows| - 1], direct, f); }
  }

  /** Everything the merge shows. */
  function Merged(indexedRows: seq<Row>, recentRows: seq<Row>, f: Filter): map<nat, Row> {
    IndexShown(indexedRows, ById(recentRows), f) + DirectShown(ById(recentRows), ById(indexedRows), f)
  }

  /** `mergeAuthoritativeRecentRounds`: direct rows win by id, stale indexed versions go, the result is
      newest first and at most a page long. */
  method MergeAuthoritative(indexedRows: seq<Row>, recentRows: seq<Row>, f: Filter, pageSize: nat)
    returns (rows: seq<Row>)
    ensures exists list :: Lists(list, Merged(indexedRows, recentRows, f)) && rows == Range(list, 0, pageSize)
    ensures forall r :: r in rows && r.roundId in ById(recentRows) ==>
      Trusts(r, ById(recentRows)[r.roundId], Lookup(ById(indexedRows), r.roundId))
  {
    var indexedById := IndexById(indexedRows);
    var authoritative := IndexById(recentRows);
    var shown: map<nat, Row> := map[];
    for i := 0 to |indexedRows|
      invariant shown == IndexShown(indexedRows[..i], authoritative, f)
    {
      var row := indexedRows[i];
      assert indexedRows[..i + 1][..i] == indexedRows[..i];
      if row.roundId !in authoritative && MatchesFilter(row, f) { shown := shown[row.roundId := row]; }
    }
    assert indexedRows[..|indexedRows|] == indexedRows;
    MergedKeyed(indexedRows, recentRows, f);
    var sorted := SortNewestFirst(shown + DirectShown(authoritative, indexedById, f));
    rows := Range(sorted, 0, pageSize);
    MergedTrusts(indexedRows, recentRows, f, sorted);
  }

  lemma MergedTrusts(indexedRows: seq<Row>, recentRows: seq<Row>, f: Filter, list: seq<Row>)
    requires Lists(list, Merged(indexedRows, recentRows, f))
    ensures forall r :: r in list && r.roundId in ById(recentRows) ==>
      Trusts(r, ById(recentRows)[r.roundId], Lookup(ById(indexedRows), r.roundId))
  {
    var direct, indexed := ById(recentRows), ById(indexedRows);
    IndexShownKeyed(indexedRows, direct, f);
    ByIdKeyed(recentRows);
    forall r | r in list && r.roundId in direct ensures Trusts(r, direct[r.roundId], Lookup(indexed, r.roundId)) {
      assert r == Combine(direct[r.roundId], Lookup(indexed, r.roundId));
    }
  }

  lemma MergedKeyed(indexedRows: seq<Row>, recentRows: seq<Row>, f: Filter)
    ensures Keyed(Merged(indexedRows, recentRows, f))
  {
    IndexShownKeyed(indexedRows, ById(recentRows), f);
    ByIdKeyed(recentRows);
  }

  method IndexById(rows: seq<Row>) returns (m: map<nat, Row>)
    ensures m == ById(rows)
  {
    m := map[];
    for i := 0 to |rows|
      invariant m == ById(rows[..i])
    {
      assert rows[..i + 1][..i] == rows[..i];
      m := m[rows[i].roundId := rows[i]];
    }
    assert rows[..|rows|] == rows;
  }

  // ----- pages -----

  datatype Window = Window(offset: nat, pageSize: nat)

  /** `roundHistoryPageWindow`. */
  function PageWindow(page: int, pageSize: nat, prefix: nat): Window {
    var start := page * pageSize;
    var end := start + pageSize;
    var onPage := (if prefix < end then prefix else end) - start;
    Window(if start - prefix > 0 then start - prefix else 0, pageSize - if onPage > 0 then onPage else 0)
  }

  /** Direct rows come out of page zero's window and push every later window back. */
  lemma WindowShifts(page: nat, pageSize: nat, prefix: nat)
    requires prefix <= pageSize
    ensures page == 0 ==> PageWindow(page, pageSize, prefix) == Window(0, pageSize - prefix)
    ensures page > 0 ==>
      page * pageSize >= pageSize && PageWindow(page, pageSize, prefix) == Window(page * pageSize - prefix, pageSize)
  {
    if page > 0 {
      assert page * pageSize == (page - 1) * pageSize + pageSize;
      assert (page - 1) * pageSize >= 0;
    }
  }

  /** The direct window: active round plus the four before it. */
  ghost predicate DirectWindow(direct: map<nat, Row>, current: nat) {
    Keyed(direct) && forall id :: id in direct ==> id <= current <= id + 4
  }

  /** What the history consists of: the filtered index, minus the current round and everything read
      directly, plus the direct rows that pass the filter. `known` is what the index could tell about the
      direct rows, if it answered. */
  function Dataset(table: map<nat, Row>, known: map<nat, Row>, direct: map<nat, Row>, f: Filter, current: nat)
    : map<nat, Row>
  {
    Selected(table, f, current, {current} + direct.Keys) + DirectShown(direct, known, f)
  }

  function Page(full: seq<Row>, pageSize: nat, page: nat): seq<Row> { Range(full, page * pageSize, pageSize) }

  /** `Math.max(1, Math.ceil(total / pageSize))`. */
  function PageCount(total: nat, pageSize: nat): nat
    requires pageSize > 0
  {
    var n := (total + pageSize - 1) / pageSize;
    if n < 1 then 1 else n
  }

  // ----- why shifted offsets line up -----

  function Ids(rows: seq<Row>): set<nat> { set r | r in rows :: r.roundId }

  lemma {:induction false} IdsCount(rows: seq<Row>)
    requires NewestFirst(rows)
    ensures |Ids(rows)| == |rows|
  {
    if rows != [] {
      var rest, last := rows[..|rows| - 1], rows[|rows| - 1];
      IdsCount(rest);
      assert Ids(rows) == Ids(rest) + {last.roundId} by {
        assert forall r :: r in rows <==> r in rest || r == last;
      }
      assert last.roundId !in Ids(rest);
    }
  }

  lemma ListLength(rows: seq<Row>, m: map<nat, Row>)
    requires Lists(rows, m) && Keyed(m)
    ensures |rows| == |m|
  {
    IdsCount(rows);
    forall id | id in m.Keys ensures id in Ids(rows) { assert m[id] in rows; }
    assert Ids(rows) == m.Keys;
  }

  /** Where a newest-first list drops below a given id. */
  lemma {:induction false} SplitPoint(rows: seq<Row>, bound: int) returns (k: nat)
    requires NewestFirst(rows)
    ensures k <= |rows|
    ensures forall i :: 0 <= i < k ==> rows[i].roundId >= bound
    ensures forall i :: k <= i < |rows| ==> rows[i].roundId < bound
  {
    if rows == [] || rows[|rows| - 1].roundId >= bound {
      k := |rows|;
    } else {
      k := SplitPoint(rows[..|rows| - 1], bound);
    }
  }

  predicate Filed(r: Row, m: map<nat, Row>) { r.roundId in m && m[r.roundId] == r }

  /** The overlay `full` joins the index list `idx` with the direct rows shown, no id twice. */
  ghost predicate Joined(full: seq<Row>, idx: seq<Row>, shown: map<nat, Row>) {
    && NewestFirst(full) && NewestFirst(idx)
    && |full| == |idx| + |shown|
    && (forall r :: r in full <==> r in idx || Filed(r, shown))
    && (forall r :: r in idx ==> r.roundId !in shown)
  }

  /** Every direct row shown ranks among the first `n` of the overlay. */
  ghost predicate ShownWithin(full: seq<Row>, shown: map<nat, Row>, n: nat) {
    forall i :: n <= i < |full| ==> !Filed(full[i], shown)
  }

  /** Past the direct rows, the overlay is the index list shifted by their number. */
  lemma Shifted(full: seq<Row>, idx: seq<Row>, shown: map<nat, Row>, n: nat)
    requires Joined(full, idx, shown) && n <= |full| && ShownWithin(full, shown, n)
    ensures |shown| <= n && full[n..] == idx[n - |shown|..]
    ensures forall r :: r in full[..n] <==> r in idx[..n - |shown|] || Filed(r, shown)
  {
    var bound := if n < |full| then full[n].roundId + 1 else 0;
    var k := SplitPoint(idx, bound);
    forall r ensures r in full[n..] <==> r in idx[k..] {
      SplitMembers(full, bound, n, r);
      SplitMembers(idx, bound, k, r);
      if r in full[n..] { assert !Filed(r, shown); }
    }
    ListingUnique(full[n..], idx[k..]);
    forall r ensures r in full[..n] <==> r in idx[..k] || Filed(r, shown) {
      SplitMembers(full, bound, n, r);
      SplitMembers(idx, bound, k, r);
      if Filed(r, shown) && r in full[n..] { assert false; }
    }
  }

  lemma SplitMembers(rows: seq<Row>, bound: int, k: nat, r: Row)
    requires k <= |rows|
    requires forall i :: 0 <= i < k ==> rows[i].roundId >= bound
    requires forall i :: k <= i < |rows| ==> rows[i].roundId < bound
    ensures r in rows[k..] <==> r in rows && r.roundId < bound
    ensures r in rows[..k] <==> r in rows && r.roundId >= bound
  {
  }

  /** Newest-first ids drop by at least one a row. */
  lemma {:induction false} RankBound(rows: seq<Row>, i: nat)
    requires NewestFirst(rows) && i < |rows|
    ensures rows[0].roundId >= rows[i].roundId + i
  {
    if i > 0 { RankBound(rows, i - 1); }
  }

  /** Direct rows are confined to the five newest ids, so they all fall on a first page of five or more. */
  lemma FiveNewestFit(full: seq<Row>, shown: map<nat, Row>, current: nat, pageSize: nat)
    requires NewestFirst(full) && pageSize >= 5
    requires forall r :: r in full ==> r.roundId <= current
    requires forall id :: id in shown ==> current <= id + 4
    ensures ShownWithin(full, shown, pageSize)
  {
    forall i | pageSize <= i < |full| ensures !Filed(full[i], shown) {
      RankBound(full, i);
      assert full[0] in full;
    }
  }

  /** The direct rows fill page zero together with the index rows its window asks for. */
  lemma FirstPage(full: seq<Row>, idx: seq<Row>, shown: map<nat, Row>, pageSize: nat)
    requires Joined(full, idx, shown) && ShownWithin(full, shown, pageSize)
    ensures |shown| <= pageSize
    ensures forall r :: r in Range(full, 0, pageSize) <==> r in Range(idx, 0, pageSize - |shown|) || Filed(r, shown)
    ensures |Range(full, 0, pageSize)| <= pageSize && NewestFirst(Range(full, 0, pageSize))
  {
    var n := if pageSize < |full| then pageSize else |full|;
    Shifted(full, idx, shown, n);
    assert Range(full, 0, pageSize) == full[..n];
    assert Range(idx, 0, pageSize - |shown|) == idx[..n - |shown|];
  }

  /** Every later page is the index slice at the shifted offset. */
  lemma LaterPage(full: seq<Row>, idx: seq<Row>, shown: map<nat, Row>, pageSize: nat, from: nat)
    requires Joined(full, idx, shown) && ShownWithin(full, shown, pageSize) && from >= pageSize
    ensures |shown| <= pageSize
    ensures Range(full, from, pageSize) == Range(idx, from - |shown|, pageSize)
  {
    var n := if pageSize < |full| then pageSize else |full|;
    Shifted(full, idx, shown, n);
    ShiftedRange(full, idx, |shown|, n - |shown|, from, pageSize);
  }

  lemma ShiftedRange(full: seq<Row>, idx: seq<Row>, prefix: nat, k: nat, from: nat, size: nat)
    requires k <= |idx| && prefix + k <= |full| && full[prefix + k..] == idx[k..] && from >= prefix + k
    ensures Range(full, from, size) == Range(idx, from - prefix, size)
  {
    assert |full| == |idx| + prefix;
    var a, b := Range(full, from, size), Range(idx, from - prefix, size);
    assert |a| == |b|;
    forall i | 0 <= i < |a| ensures a[i] == b[i] {
      assert full[from + i] == full[prefix + k..][from + i - prefix - k];
      assert idx[from - prefix + i] == idx[k..][from - prefix + i - k];
    }
  }

  // ----- loadFromIndex -----

  lemma FiltersAgree(r: Row, f: Filter)
    ensures SqlFilter(r, f) <==> MatchesFilter(r, f)
  {
  }

  lemma UnionMembers(full: seq<Row>, idx: seq<Row>, s: map<nat, Row>, d: map<nat, Row>)
    requires Keyed(s) && Keyed(d) && s.Keys !! d.Keys && Lists(full, s + d) && Lists(idx, s)
    ensures forall r :: r in full <==> r in idx || Filed(r, d)
    ensures |full| == |idx| + |d|
    ensures forall r :: r in idx ==> r.roundId !in d
  {
    forall r ensures r in full <==> r in idx || Filed(r, d) {
      if r in idx || Filed(r, d) { assert (s + d)[r.roundId] in full; }
    }
    ListLength(full, s + d);
    ListLength(idx, s);
    assert (s + d).Keys == s.Keys + d.Keys;
  }

  lemma DatasetParts(table: map<nat, Row>, known: map<nat, Row>, direct: map<nat, Row>, f: Filter, current: nat)
    requires Keyed(table) && Keyed(direct)
    ensures var s, d := Selected(table, f, current, {current} + direct.Keys), DirectShown(direct, known, f);
      Keyed(s) && Keyed(d) && s.Keys !! d.Keys && Keyed(s + d) && forall id :: id in s ==> id <= current
  {
  }

  lemma DatasetJoined(table: map<nat, Row>, known: map<nat, Row>, direct: map<nat, Row>, f: Filter, current: nat,
                      full: seq<Row>, idx: seq<Row>)
    requires Keyed(table) && Keyed(direct)
    requires Lists(full, Dataset(table, known, direct, f, current))
    requires Lists(idx, Selected(table, f, current, {current} + direct.Keys))
    ensures Joined(full, idx, DirectShown(direct, known, f))
  {
    DatasetParts(table, known, direct, f, current);
    UnionMembers(full, idx, Selected(table, f, current, {current} + direct.Keys), DirectShown(direct, known, f));
  }

  /** With direct rows confined to the five newest ids, all of them rank on a first page of five or more. */
  lemma DatasetFits(table: map<nat, Row>, known: map<nat, Row>, direct: map<nat, Row>, f: Filter, current: nat,
                    full: seq<Row>, pageSize: nat)
    requires Keyed(table) && DirectWindow(direct, current) && pageSize >= 5
    requires Lists(full, Dataset(table, known, direct, f, current))
    ensures ShownWithin(full, DirectShown(direct, known, f), pageSize)
  {
    var s, d := Selected(table, f, current, {current} + direct.Keys), DirectShown(direct, known, f);
    DatasetParts(table, known, direct, f, current);
    forall r | r in full ensures r.roundId <= current {
      assert r.roundId in s || r.roundId in d;
    }
    FiveNewestFit(full, d, current, pageSize);
  }

  lemma SameLookupSameShown(direct: map<nat, Row>, a: map<nat, Row>, b: map<nat, Row>, f: Filter)
    requires forall id :: id in direct ==> Lookup(a, id) == Lookup(b, id)
    ensures DirectShown(direct, a, f) == DirectShown(direct, b, f)
  {
  }

  /** A merge of page zero's index rows with the direct rows shows exactly those. */
  lemma MergedFirstPage(rowsRaw: seq<Row>, projection: seq<Row>, recent: seq<Row>, known: map<nat, Row>, f: Filter,
                        r: Row)
    requires forall x :: x in rowsRaw ==> x.roundId !in ById(recent) && MatchesFilter(x, f)
    requires forall x :: x in projection ==> x.roundId in ById(recent)
    requires NewestFirst(rowsRaw)
    requires forall id :: id in ById(recent) ==> Lookup(ById(rowsRaw + projection), id) == Lookup(known, id)
    ensures Filed(r, Merged(rowsRaw + projection, recent, f))
      <==> r in rowsRaw || Filed(r, DirectShown(ById(recent), known, f))
  {
    var direct := ById(recent);
    IndexShownAppend(rowsRaw, projection, direct, f);
    IndexShownAll(rowsRaw, direct, f);
    SameLookupSameShown(direct, ById(rowsRaw + projection), known, f);
    MergedKeyed(rowsRaw + projection, recent, f);
    ByIdKeyed(recent);
  }

  lemma {:induction false} IndexShownAppend(a: seq<Row>, b: seq<Row>, direct: map<nat, Row>, f: Filter)
    requires forall x :: x in b ==> x.roundId in direct
    ensures IndexShown(a + b, direct, f) == IndexShown(a, direct, f)
  {
    if b == [] {
      assert a + b == a;
    } else {
      assert (a + b)[..|a + b| - 1] == a + b[..|b| - 1];
      IndexShownAppend(a, b[..|b| - 1], direct, f);
    }
  }

  lemma FiledUpdate(m: map<nat, Row>, last: Row, r: Row)
    ensures Filed(r, m[last.roundId := last]) <==> r == last || (r.roundId != last.roundId && Filed(r, m))
  {
  }

  lemma {:induction false} IndexShownAll(rows: seq<Row>, direct: map<nat, Row>, f: Filter)
    requires NewestFirst(rows) && forall x :: x in rows ==> x.roundId !in direct && MatchesFilter(x, f)
    ensures forall r :: Filed(r, IndexShown(rows, direct, f)) <==> r in rows
  {
    if rows != [] {
      var rest, last := rows[..|rows| - 1], rows[|rows| - 1];
      IndexShownAll(rest, direct, f);
      var before := IndexShown(rest, direct, f);
      assert last in rows;
      assert IndexShown(rows, direct, f) == before[last.roundId := last];
      forall r ensures Filed(r, before[last.roundId := last]) <==> r in rows {
        FiledUpdate(before, last, r);
        assert r in rows <==> r in rest || r == last;
        assert r in rest ==> r.roundId > last.roundId;
      }
    }
  }

  lemma {:induction false} ByIdAppend(a: seq<Row>, b: seq<Row>, id: nat)
    ensures Lookup(ById(a + b), id) == if id in ById(b) then Some(ById(b)[id]) else Lookup(ById(a), id)
  {
    if b == [] {
      assert a + b == a;
    } else {
      assert (a + b)[..|a + b| - 1] == a + b[..|b| - 1];
      ByIdAppend(a, b[..|b| - 1], id);
    }
  }

  lemma ByIdOfListing(rows: seq<Row>, m: map<nat, Row>)
    requires Lists(rows, m) && Keyed(m)
    ensures ById(rows) == m
  {
    ByIdKeyed(rows);
    ByIdMembers(rows);
    forall id | id in m ensures id in ById(rows) { assert m[id] in rows; }
    forall id | id in ById(rows) ensures id in m && m[id] == ById(rows)[id] { assert ById(rows)[id] in rows; }
  }

  lemma {:induction false} ByIdMembers(rows: seq<Row>)
    ensures forall id :: id in ById(rows) ==> ById(rows)[id] in rows
  {
    if rows != [] { ByIdMembers(rows[..|rows| - 1]); }
  }

  datatype Result = Result(slice: seq<Row>, page: nat, pages: nat, filteredTotal: nat)

  /** The rows read directly: the recent scan, and the active round when everything is shown. */
  function DirectRows(recent: seq<Row>, live: Option<Row>, f: Filter): seq<Row> {
    if f == All && live.Some? then recent + [live.value] else recent
  }

  function Clamp(page: int, pages: nat): nat
    requires pages > 0
  {
    if page < 0 then 0 else if page > pages - 1 then pages - 1 else page
  }

  lemma MaxExists(s: set<nat>) returns (top: nat)
    requires s != {}
    ensures top in s && forall id :: id in s ==> id <= top
  {
    var x :| x in s;
    if s == {x} {
      top := x;
    } else {
      assert s == (s - {x}) + {x};
      var rest := MaxExists(s - {x});
      top := if rest > x then rest else x;
    }
  }

  lemma ListingExists(m: map<nat, Row>) returns (rows: seq<Row>)
    requires Keyed(m)
    ensures Lists(rows, m)
    decreases m.Keys
  {
    if m == map[] {
      rows := [];
    } else {
      var top := MaxExists(m.Keys);
      var rest := ListingExists(m - {top});
      rows := [m[top]] + rest;
      forall id | id in m ensures m[id] in rows {
        assert id != top ==> (m - {top})[id] in rest;
      }
    }
  }

  /** Ids of the direct rows that pass the filter. */
  function Passing(direct: map<nat, Row>, f: Filter): set<nat> {
    set id | id in direct && MatchesFilter(direct[id], f)
  }

  /** Which rows pass the filter does not depend on what the index adds to them. */
  lemma ShownCount(direct: map<nat, Row>, known: map<nat, Row>, f: Filter)
    ensures |Passing(direct, f)| == |DirectShown(direct, known, f)|
  {
    assert DirectShown(direct, known, f).Keys == Passing(direct, f);
  }

  function Restricted(known: map<nat, Row>, direct: map<nat, Row>): map<nat, Row> {
    map id | id in known && id in direct :: known[id]
  }

  /** `loadIndexedRoundProjectionRows`: what the index knows about the direct rows. */
  method LoadProjection(known: map<nat, Row>, direct: map<nat, Row>) returns (projection: seq<Row>)
    requires Keyed(known)
    ensures Lists(projection, Restricted(known, direct))
  {
    projection := SortNewestFirst(Restricted(known, direct));
  }

  /** Page zero: the newest of its window's index rows and the direct rows, as the index knows them. */
  method FirstSlice(rowsRaw: seq<Row>, recent: seq<Row>, known: map<nat, Row>, f: Filter, pageSize: nat)
    returns (slice: seq<Row>)
    requires Keyed(known) && NewestFirst(rowsRaw)
    requires forall x :: x in rowsRaw ==> x.roundId !in ById(recent) && MatchesFilter(x, f)
    ensures exists list ::
      && NewestFirst(list) && slice == Range(list, 0, pageSize)
      && forall r :: r in list <==> r in rowsRaw || Filed(r, DirectShown(ById(recent), known, f))
  {
    var direct := IndexById(recent);
    var projection := LoadProjection(known, direct);
    slice := MergeAuthoritative(rowsRaw + projection, recent, f, pageSize);
    ghost var list :| Lists(list, Merged(rowsRaw + projection, recent, f)) && slice == Range(list, 0, pageSize);
    ProjectionKnown(rowsRaw, projection, direct, known);
    MergedMembers(rowsRaw, projection, recent, known, f, list);
  }

  lemma MergedMembers(rowsRaw: seq<Row>, projection: seq<Row>, recent: seq<Row>, known: map<nat, Row>, f: Filter,
                      list: seq<Row>)
    requires forall x :: x in rowsRaw ==> x.roundId !in ById(recent) && MatchesFilter(x, f)
    requires forall x :: x in projection ==> x.roundId in ById(recent)
    requires NewestFirst(rowsRaw) && Lists(list, Merged(rowsRaw + projection, recent, f))
    requires forall id :: id in ById(recent) ==> Lookup(ById(rowsRaw + projection), id) == Lookup(known, id)
    ensures NewestFirst(list)
    ensures forall r :: r in list <==> r in rowsRaw || Filed(r, DirectShown(ById(recent), known, f))
  {
    forall r ensures r in list <==> r in rowsRaw || Filed(r, DirectShown(ById(recent), known, f)) {
      MergedFirstPage(rowsRaw, projection, recent, known, f, r);
      ListedIffFiled(list, Merged(rowsRaw + projection, recent, f), r);
    }
  }

  lemma ListedIffFiled(list: seq<Row>, m: map<nat, Row>, r: Row)
    requires Lists(list, m)
    ensures r in list <==> Filed(r, m)
  {
    if Filed(r, m) { assert m[r.roundId] in list; }
  }

  lemma ProjectionKnown(rowsRaw: seq<Row>, projection: seq<Row>, direct: map<nat, Row>, known: map<nat, Row>)
    requires Lists(projection, Restricted(known, direct)) && Keyed(known)
    requires forall x :: x in rowsRaw ==> x.roundId !in direct
    ensures forall x :: x in projection ==> x.roundId in direct
    ensures forall id :: id in direct ==> Lookup(ById(rowsRaw + projection), id) == Lookup(known, id)
  {
    ByIdOfListing(projection, Restricted(known, direct));
    ByIdKeyed(rowsRaw);
    forall id | id in direct ensures Lookup(ById(rowsRaw + projection), id) == Lookup(known, id) {
      ByIdAppend(rowsRaw, projection, id);
    }
  }

  lemma SelectedFacts(table: map<nat, Row>, f: Filter, current: nat, excluded: set<nat>, idx: seq<Row>)
    requires Lists(idx, Selected(table, f, current, excluded))
    ensures forall x :: x in idx ==> x.roundId !in excluded && MatchesFilter(x, f)
  {
    forall x | x in idx ensures x.roundId !in excluded && MatchesFilter(x, f) {
      FiltersAgree(x, f);
    }
  }

  /** The two queries: at the requested page, and again at the clamped one if that page is gone. */
  method QueryPage(table: map<nat, Row>, f: Filter, current: nat, excluded: set<nat>, prefix: nat, page: int,
                   pageSize: nat)
    returns (rowsRaw: seq<Row>, filteredTotal: nat, safePage: nat, pages: nat, ghost idx: seq<Row>)
    requires Keyed(table) && pageSize > 0
    ensures Lists(idx, Selected(table, f, current, excluded)) && filteredTotal == |idx| + prefix
    ensures pages == PageCount(filteredTotal, pageSize) && safePage == Clamp(page, pages)
    ensures var window := PageWindow(safePage, pageSize, prefix); rowsRaw == Range(idx, window.offset, window.pageSize)
  {
    var window := PageWindow(page, pageSize, prefix);
    var total;
    rowsRaw, total := LoadIndexedRounds(table, f, current, excluded, window.offset, window.pageSize);
    ghost var list :| Lists(list, Selected(table, f, current, excluded))
      && rowsRaw == Range(list, window.offset, window.pageSize) && total == |list|;
    idx := list;
    filteredTotal := total + prefix;
    pages := PageCount(filteredTotal, pageSize);
    safePage := Clamp(page, pages);
    if safePage != page {
      window := PageWindow(safePage, pageSize, prefix);
      rowsRaw, total := LoadIndexedRounds(table, f, current, excluded, window.offset, window.pageSize);
      ghost var again :| Lists(again, Selected(table, f, current, excluded))
        && rowsRaw == Range(again, window.offset, window.pageSize) && total == |again|;
      ListsUnique(idx, again, Selected(table, f, current, excluded));
    }
  }

  /** The direct rows the page reads: the active round and up to four elapsed ones before it. */
  ghost predicate Confined(recent: seq<Row>, live: Option<Row>, current: nat) {
    && (forall r :: r in recent ==> r.roundId < current <= r.roundId + 4)
    && (live.Some? ==> live.value.roundId == current)
  }

  /** The parts one page load works with: the whole overlay, the index list, and the direct rows shown. */
  ghost predicate Overlay(table: map<nat, Row>, current: nat, recent: seq<Row>, live: Option<Row>, f: Filter,
                          projected: bool, full: seq<Row>, idx: seq<Row>, shown: map<nat, Row>) {
    var direct, known := ById(DirectRows(recent, live, f)), if projected then table else map[];
    && Lists(full, Dataset(table, known, direct, f, current))
    && Lists(idx, Selected(table, f, current, {current} + direct.Keys))
    && shown == DirectShown(direct, known, f)
    && Joined(full, idx, shown)
  }

  /** What a page load shows, whatever the page size. */
  ghost predicate PageShown(slice: seq<Row>, idx: seq<Row>, shown: map<nat, Row>, pageSize: nat, page: nat) {
    if page == 0 then FirstPageShown(slice, idx, shown, pageSize)
    else slice == LaterPageShown(idx, shown, pageSize, page)
  }

  /** The merge on page zero, the bare index rows on later pages. */
  method ShowPage(rowsRaw: seq<Row>, authoritative: seq<Row>, known: map<nat, Row>, f: Filter, pageSize: nat,
                  page: nat, ghost idx: seq<Row>) returns (slice: seq<Row>)
    requires Keyed(known) && NewestFirst(idx)
    requires forall x :: x in idx ==> x.roundId !in ById(authoritative) && MatchesFilter(x, f)
    requires rowsRaw == LaterPageShown(idx, DirectShown(ById(authoritative), known, f), pageSize, page)
    ensures PageShown(slice, idx, DirectShown(ById(authoritative), known, f), pageSize, page)
  {
    if page != 0 { return rowsRaw; }
    RangeFacts(idx, PageWindow(0, pageSize, |DirectShown(ById(authoritative), known, f)|));
    slice := FirstSlice(rowsRaw, authoritative, known, f, pageSize);
  }

  lemma RangeFacts(idx: seq<Row>, window: Window)
    requires NewestFirst(idx)
    ensures NewestFirst(Range(idx, window.offset, window.pageSize))
    ensures forall x :: x in Range(idx, window.offset, window.pageSize) ==> x in idx
  {
  }

  /** Just enough pages for all rows, at least one; a requested page beyond either end becomes that end. */
  predicate Paged(requested: int, total: nat, pageSize: nat, page: nat, pages: nat) {
    && pages >= 1 && total <= pages * pageSize && (pages > 1 ==> (pages - 1) * pageSize < total)
    && (requested <= 0 ==> page == 0) && (requested >= pages ==> page == pages - 1)
    && (0 <= requested < pages ==> page == requested)
  }

  lemma {:induction false} PagedRight(requested: int, total: nat, pageSize: nat)
    requires pageSize > 0
    ensures var pages := PageCount(total, pageSize); Paged(requested, total, pageSize, Clamp(requested, pages), pages)
  {
    PageCountCovers(total, pageSize);
  }

  method LoadSlice(table: map<nat, Row>, current: nat, authoritative: seq<Row>, known: map<nat, Row>, f: Filter,
                   page: int, pageSize: nat)
    returns (out: Result, ghost idx: seq<Row>)
    requires Keyed(table) && Keyed(known) && pageSize > 0
    ensures Lists(idx, Selected(table, f, current, {current} + ById(authoritative).Keys))
    ensures out.filteredTotal == |idx| + |DirectShown(ById(authoritative), known, f)|
    ensures out.pages == PageCount(out.filteredTotal, pageSize) && out.page == Clamp(page, out.pages)
    ensures PageShown(out.slice, idx, DirectShown(ById(authoritative), known, f), pageSize, out.page)
  {
    var direct := IndexById(authoritative);
    var prefix := |Passing(direct, f)|;
    var rowsRaw, filteredTotal, safePage, pages, list :=
      QueryPage(table, f, current, {current} + direct.Keys, prefix, page, pageSize);
    ShownCount(direct, known, f);
    SelectedFacts(table, f, current, {current} + direct.Keys, list);
    var slice := ShowPage(rowsRaw, authoritative, known, f, pageSize, safePage, list);
    out, idx := Result(slice, safePage, pages, filteredTotal), list;
  }

  /** `loadFromIndex`, for an index that answers. `projected` says whether the second query, for the
      index's own view of the direct rows, answered too. */
  method LoadFromIndex(table: map<nat, Row>, current: nat, recent: seq<Row>, live: Option<Row>, f: Filter,
                       page: int, pageSize: nat, projected: bool)
    returns (out: Result, ghost full: seq<Row>, ghost idx: seq<Row>, ghost shown: map<nat, Row>)
    requires Keyed(table) && pageSize > 0
    ensures Overlay(table, current, recent, live, f, projected, full, idx, shown)
    ensures out.filteredTotal == |full| && out.pages == PageCount(|full|, pageSize)
    ensures Paged(page, |full|, pageSize, out.page, out.pages)
    ensures PageShown(out.slice, idx, shown, pageSize, out.page)
    ensures ShownWithin(full, shown, pageSize) ==> out.slice == Page(full, pageSize, out.page)
    ensures ShownWithin(full, shown, pageSize) && full != [] ==> out.slice != []
    ensures Confined(recent, live, current) && pageSize >= 5 ==> out.slice == Page(full, pageSize, out.page)
  {
    var authoritative := DirectRows(recent, live, f);
    var known := if projected then table else map[];
    out, idx := LoadSlice(table, current, authoritative, known, f, page, pageSize);
    shown := DirectShown(ById(authoritative), known, f);
    full := OverlayPage(table, current, recent, live, f, projected, idx, pageSize, out.page, out.slice);
    if full != [] { NoEmptyPage(full, pageSize, out.page); }
    PagedRight(page, |full|, pageSize);
  }

  lemma OverlayPage(table: map<nat, Row>, current: nat, recent: seq<Row>, live: Option<Row>, f: Filter,
                    projected: bool, idx: seq<Row>, pageSize: nat, page: nat, slice: seq<Row>)
    returns (full: seq<Row>)
    requires Keyed(table)
    requires Lists(idx, Selected(table, f, current, {current} + ById(DirectRows(recent, live, f)).Keys))
    requires PageShown(
      slice, idx, DirectShown(ById(DirectRows(recent, live, f)), if projected then table else map[], f), pageSize, page)
    ensures var shown := DirectShown(ById(DirectRows(recent, live, f)), if projected then table else map[], f);
      && Overlay(table, current, recent, live, f, projected, full, idx, shown) && |full| == |idx| + |shown|
      && (ShownWithin(full, shown, pageSize) ==> slice == Page(full, pageSize, page))
      && (Confined(recent, live, current) && pageSize >= 5 ==> slice == Page(full, pageSize, page))
  {
    var shown := DirectShown(ById(DirectRows(recent, live, f)), if projected then table else map[], f);
    full := OverlayExists(table, current, recent, live, f, projected, idx);
    ConfinedFits(table, current, recent, live, f, projected, full, idx, shown, pageSize);
    if ShownWithin(full, shown, pageSize) { ShownIsPage(full, idx, shown, pageSize, page, slice); }
  }

  lemma OverlayExists(table: map<nat, Row>, current: nat, recent: seq<Row>, live: Option<Row>, f: Filter,
                      projected: bool, idx: seq<Row>) returns (full: seq<Row>)
    requires Keyed(table)
    requires Lists(idx, Selected(table, f, current, {current} + ById(DirectRows(recent, live, f)).Keys))
    ensures var shown := DirectShown(ById(DirectRows(recent, live, f)), if projected then table else map[], f);
      Overlay(table, current, recent, live, f, projected, full, idx, shown)
  {
    var direct, known := ById(DirectRows(recent, live, f)), if projected then table else map[];
    ByIdKeyed(DirectRows(recent, live, f));
    DatasetParts(table, known, direct, f, current);
    full := ListingExists(Dataset(table, known, direct, f, current));
    DatasetJoined(table, known, direct, f, current, full, idx);
  }

  /** With all direct rows on the first page, what a load shows is its page of the overlay. */
  lemma ShownIsPage(full: seq<Row>, idx: seq<Row>, shown: map<nat, Row>, pageSize: nat, page: nat, slice: seq<Row>)
    requires Joined(full, idx, shown) && ShownWithin(full, shown, pageSize)
    requires PageShown(slice, idx, shown, pageSize, page)
    ensures slice == Page(full, pageSize, page)
  {
    if page == 0 {
      FirstPage(full, idx, shown, pageSize);
      WindowShifts(0, pageSize, |shown|);
      assert 0 * pageSize == 0;
      var window := PageWindow(0, pageSize, |shown|);
      var list :|
        && NewestFirst(list) && slice == Range(list, 0, pageSize)
        && forall r :: r in list <==> r in Range(idx, window.offset, window.pageSize) || Filed(r, shown);
      ListingUnique(list, Range(full, 0, pageSize));
    } else {
      LaterSlice(full, idx, shown, pageSize, page);
    }
  }

  lemma LaterSlice(full: seq<Row>, idx: seq<Row>, shown: map<nat, Row>, pageSize: nat, page: nat)
    requires Joined(full, idx, shown) && ShownWithin(full, shown, pageSize) && page > 0
    ensures var window := PageWindow(page, pageSize, |shown|);
      Range(idx, window.offset, window.pageSize) == Page(full, pageSize, page)
  {
    FirstPage(full, idx, shown, pageSize);
    WindowShifts(page, pageSize, |shown|);
    LaterPage(full, idx, shown, pageSize, page * pageSize);
  }

  lemma DirectRowsInWindow(recent: seq<Row>, live: Option<Row>, f: Filter, current: nat)
    requires Confined(recent, live, current)
    ensures DirectWindow(ById(DirectRows(recent, live, f)), current)
  {
    var rows := DirectRows(recent, live, f);
    ByIdKeyed(rows);
    assert forall r :: r in rows ==> r in recent || (live.Some? && r == live.value);
  }

  // ----- all pages together -----

  function Pages(full: seq<Row>, pageSize: nat, count: nat): seq<Row> {
    if count == 0 then [] else Pages(full, pageSize, count - 1) + Page(full, pageSize, count - 1)
  }

  lemma {:induction false} PagesPrefix(full: seq<Row>, pageSize: nat, count: nat)
    ensures Pages(full, pageSize, count) == full[..if count * pageSize < |full| then count * pageSize else |full|]
  {
    if count > 0 {
      PagesPrefix(full, pageSize, count - 1);
      var from := (count - 1) * pageSize;
      assert count * pageSize == from + pageSize;
    }
  }

  lemma PageCountCovers(total: nat, pageSize: nat)
    requires pageSize > 0
    ensures PageCount(total, pageSize) * pageSize >= total
    ensures total > 0 ==> (PageCount(total, pageSize) - 1) * pageSize < total
  {
    var n := (total + pageSize - 1) / pageSize;
    var rest := (total + pageSize - 1) % pageSize;
    assert total + pageSize - 1 == n * pageSize + rest;
    if n < 1 { assert n == 0 && n * pageSize == 0; }
    assert (n - 1) * pageSize == n * pageSize - pageSize;
  }

  lemma AllPages(full: seq<Row>, pageSize: nat)
    requires pageSize > 0
    ensures Pages(full, pageSize, PageCount(|full|, pageSize)) == full
  {
    PageCountCovers(|full|, pageSize);
    PagesPrefix(full, pageSize, PageCount(|full|, pageSize));
    assert full[..|full|] == full;
  }

  lemma NoEmptyPage(full: seq<Row>, pageSize: nat, page: nat)
    requires pageSize > 0 && full != [] && page < PageCount(|full|, pageSize)
    ensures Page(full, pageSize, page) != []
  {
    PageStartsInside(|full|, pageSize, page);
  }

  lemma PageStartsInside(total: nat, pageSize: nat, page: nat)
    requires pageSize > 0 && total > 0 && page < PageCount(total, pageSize)
    ensures page * pageSize < total
  {
    PageCountCovers(total, pageSize);
    MulMonotone(page, PageCount(total, pageSize) - 1, pageSize);
  }

  lemma MulMonotone(a: nat, b: nat, c: nat)
    requires a <= b
    ensures a * c <= b * c
  {
  }

  /** What page zero shows: the newest page-full of its window's index rows and all direct rows. */
  ghost predicate FirstPageShown(rows: seq<Row>, idx: seq<Row>, shown: map<nat, Row>, pageSize: nat) {
    var window := PageWindow(0, pageSize, |shown|);
    exists list ::
      && NewestFirst(list) && rows == Range(list, 0, pageSize)
      && forall r :: r in list <==> r in Range(idx, window.offset, window.pageSize) || Filed(r, shown)
  }

  /** What a later page shows: the index rows of its window. */
  function LaterPageShown(idx: seq<Row>, shown: map<nat, Row>, pageSize: nat, page: nat): seq<Row> {
    var window := PageWindow(page, pageSize, |shown|);
    Range(idx, window.offset, window.pageSize)
  }

  lemma LostDirectRow(full: seq<Row>, idx: seq<Row>, shown: map<nat, Row>, pageSize: nat, i: nat)
    requires Joined(full, idx, shown) && 0 < pageSize <= i < |full| && Filed(full[i], shown)
    ensures var page := i / pageSize;
      0 < page < PageCount(|full|, pageSize) && LaterPageShown(idx, shown, pageSize, page) != Page(full, pageSize, page)
  {
    var page, at := i / pageSize, i % pageSize;
    assert i == page * pageSize + at;
    PageCountCovers(|full|, pageSize);
    PageOfRank(|full|, pageSize, i);
    assert Page(full, pageSize, page)[at] == full[i];
    var rows := LaterPageShown(idx, shown, pageSize, page);
    assert forall r :: r in rows ==> r in idx;
  }

  lemma PageOfRank(total: nat, pageSize: nat, i: nat)
    requires 0 < pageSize <= i < total
    ensures 0 < i / pageSize < PageCount(total, pageSize)
  {
    var page := i / pageSize;
    PageCountCovers(total, pageSize);
    assert page * pageSize <= i < page * pageSize + pageSize;
    if page >= PageCount(total, pageSize) {
      MulMonotone(PageCount(total, pageSize), page, pageSize);
      assert false;
    }
  }

  /** The shifted paging is right exactly when every direct row shown ranks on the first page. */
  lemma PagingCorrectIff(full: seq<Row>, idx: seq<Row>, shown: map<nat, Row>, pageSize: nat, first: seq<Row>)
    requires Joined(full, idx, shown) && pageSize > 0 && FirstPageShown(first, idx, shown, pageSize)
    ensures ShownWithin(full, shown, pageSize) <==>
      && first == Page(full, pageSize, 0)
      && forall p :: 0 < p < PageCount(|full|, pageSize) ==>
           LaterPageShown(idx, shown, pageSize, p) == Page(full, pageSize, p)
  {
    if ShownWithin(full, shown, pageSize) {
      ShownIsPage(full, idx, shown, pageSize, 0, first);
      forall p | 0 < p < PageCount(|full|, pageSize)
        ensures LaterPageShown(idx, shown, pageSize, p) == Page(full, pageSize, p)
      {
        ShownIsPage(full, idx, shown, pageSize, p, LaterPageShown(idx, shown, pageSize, p));
      }
    } else {
      var i :| pageSize <= i < |full| && Filed(full[i], shown);
      LostDirectRow(full, idx, shown, pageSize, i);
    }
  }

  // ----- reading the whole history -----

  /** The pages after the first, up to `count`, glued together. */
  function LaterPages(idx: seq<Row>, shown: map<nat, Row>, pageSize: nat, count: nat): seq<Row> {
    if count <= 1 then []
    else LaterPages(idx, shown, pageSize, count - 1) + LaterPageShown(idx, shown, pageSize, count - 1)
  }

  lemma {:induction false} LaterPagesIndexed(idx: seq<Row>, shown: map<nat, Row>, pageSize: nat, count: nat)
    ensures forall r :: r in LaterPages(idx, shown, pageSize, count) ==> r in idx
  {
    if count > 1 { LaterPagesIndexed(idx, shown, pageSize, count - 1); }
  }

  lemma GlueOne(first: seq<Row>, later: seq<Row>, next: seq<Row>, pages: seq<Row>)
    requires first + later == pages
    ensures first + (later + next) == pages + next
  {
    assert first + (later + next) == (first + later) + next;
  }

  lemma {:induction false} GluedPages(full: seq<Row>, idx: seq<Row>, shown: map<nat, Row>, pageSize: nat, count: nat)
    requires count > 0
    requires forall p :: 0 < p < count ==> LaterPageShown(idx, shown, pageSize, p) == Page(full, pageSize, p)
    ensures Page(full, pageSize, 0) + LaterPages(idx, shown, pageSize, count) == Pages(full, pageSize, count)
  {
    var first := Page(full, pageSize, 0);
    if count == 1 {
      assert Pages(full, pageSize, 0) == [] && Pages(full, pageSize, 1) == [] + first;
    } else {
      GluedPages(full, idx, shown, pageSize, count - 1);
      var next := LaterPageShown(idx, shown, pageSize, count - 1);
      GlueOne(first, LaterPages(idx, shown, pageSize, count - 1), next, Pages(full, pageSize, count - 1));
    }
  }

  /** All pages glued together are the overlay exactly when every direct row shown ranks on the first. */
  lemma GluedIff(full: seq<Row>, idx: seq<Row>, shown: map<nat, Row>, pageSize: nat, first: seq<Row>)
    requires Joined(full, idx, shown) && pageSize > 0 && FirstPageShown(first, idx, shown, pageSize)
    ensures first + LaterPages(idx, shown, pageSize, PageCount(|full|, pageSize)) == full
      <==> ShownWithin(full, shown, pageSize)
  {
    var count := PageCount(|full|, pageSize);
    if ShownWithin(full, shown, pageSize) {
      PagingCorrectIff(full, idx, shown, pageSize, first);
      GluedPages(full, idx, shown, pageSize, count);
      AllPages(full, pageSize);
    } else {
      var i :| pageSize <= i < |full| && Filed(full[i], shown);
      LaterPagesIndexed(idx, shown, pageSize, count);
      var later := LaterPages(idx, shown, pageSize, count);
      if first + later == full { assert false; }
    }
  }

  // ----- what the history shows, row by row -----

  /** The filters, read off a row. */
  predicate Passes(r: Row, f: Filter) {
    f == All ||
    (&& r.resolved && r.totalWager > 0
     && (f == Motherlode ==> r.jackpotHit)
     && (f == Solo ==> !r.jackpotHit && r.singleMinerRound)
     && (f == Split ==> !r.jackpotHit && !r.singleMinerRound))
  }

  /** The same round with the same facts. */
  predicate SameFacts(r: Row, d: Row) {
    && r.roundId == d.roundId && r.resolved == d.resolved && r.totalWager == d.totalWager
    && r.jackpotHit == d.jackpotHit && r.singleMinerRound == d.singleMinerRound && r.details == d.details
  }

  ghost predicate ListsId(all: seq<Row>, id: nat) { exists r :: r in all && r.roundId == id }

  ghost predicate ReadDirectly(recent: seq<Row>, id: nat) { exists d :: d in recent && d.roundId == id }

  /**
   * The history of the page: newest first and no round twice; on the unfiltered page the active round, if it
   * was read, comes first with the chain's facts, and on no other page does the active round appear; a round
   * read directly appears exactly when its own facts pass the filter, and with them; every other round
   * exactly when it is indexed, older than the active one and passes the filter, and as indexed.
   */
  ghost predicate History(all: seq<Row>, table: map<nat, Row>, current: nat, recent: seq<Row>, live: Option<Row>,
                          f: Filter) {
    && (forall i, j :: 0 <= i < j < |all| ==> all[i].roundId > all[j].roundId)
    && (f == All && live.Some? ==> all != [] && SameFacts(all[0], live.value))
    && (f != All || live.None? ==> !ListsId(all, current))
    && (forall d :: d in recent ==> (ListsId(all, d.roundId) <==> Passes(d, f)))
    && (forall d, r :: d in recent && r in all && r.roundId == d.roundId ==> SameFacts(r, d))
    && (forall id: nat :: id != current && !ReadDirectly(recent, id) ==>
          (ListsId(all, id) <==> id in table && id < current && Passes(table[id], f)))
    && (forall r :: r in all && r.roundId != current && !ReadDirectly(recent, r.roundId) ==>
          r.roundId in table && r == table[r.roundId])
  }

  predicate DistinctIds(rows: seq<Row>) {
    forall i, j :: 0 <= i < j < |rows| ==> rows[i].roundId != rows[j].roundId
  }

  /** What is filed under a directly read id, when ids are distinct. */
  lemma {:induction false} ByIdDistinct(rows: seq<Row>, r: Row)
    requires DistinctIds(rows) && r in rows
    ensures r.roundId in ById(rows) && ById(rows)[r.roundId] == r
  {
    if r != rows[|rows| - 1] {
      var i :| 0 <= i < |rows| && rows[i] == r;
      assert r in rows[..|rows| - 1];
      ByIdDistinct(rows[..|rows| - 1], r);
    }
  }

  lemma {:induction false} PassesIff(r: Row, f: Filter)
    ensures Passes(r, f) <==> MatchesFilter(r, f)
    ensures Passes(r, f) <==> SqlFilter(r, f)
  {
  }

  lemma {:induction false} DatasetAt(table: map<nat, Row>, known: map<nat, Row>, direct: map<nat, Row>, f: Filter,
                                     current: nat, id: nat)
    requires Keyed(table) && Keyed(direct)
    ensures var m := Dataset(table, known, direct, f, current);
      && (id in direct ==> (id in m <==> Passes(direct[id], f)))
      && (id in direct && id in m ==> SameFacts(m[id], direct[id]))
      && (id !in direct ==> (id in m <==> id in table && id < current && Passes(table[id], f)))
      && (id !in direct && id in m ==> m[id] == table[id])
  {
    if id in direct {
      var shown := Combine(direct[id], Lookup(known, id));
      PassesIff(shown, f);
    } else if id in table {
      PassesIff(table[id], f);
    }
  }

  lemma {:induction false} DirectOf(recent: seq<Row>, live: Option<Row>, f: Filter, current: nat, id: nat)
    requires Confined(recent, live, current) && DistinctIds(recent)
    ensures var direct := ById(DirectRows(recent, live, f));
      && (id != current ==> (id in direct <==> ReadDirectly(recent, id)))
      && (id == current ==> (id in direct <==> f == All && live.Some?))
      && (id == current && id in direct ==> direct[id] == live.value)
      && (forall d :: d in recent ==> d.roundId in direct && direct[d.roundId] == d)
  {
    var rows := DirectRows(recent, live, f);
    ByIdKeyed(rows);
    assert forall r :: r in rows <==> r in recent || (f == All && live.Some? && r == live.value);
    forall i, j | 0 <= i < j < |rows| ensures rows[i].roundId != rows[j].roundId {
      assert rows[i] in recent;
      if j < |recent| { assert rows[j] == recent[j] && rows[i] == recent[i]; }
    }
    forall d | d in recent ensures d.roundId in ById(rows) && ById(rows)[d.roundId] == d { ByIdDistinct(rows, d); }
    if f == All && live.Some? {
      assert live.value in rows;
      ByIdDistinct(rows, live.value);
    }
  }

  lemma {:induction false} ListedId(all: seq<Row>, m: map<nat, Row>, id: nat)
    requires Lists(all, m) && Keyed(m)
    ensures ListsId(all, id) <==> id in m
  {
    if id in m { assert m[id] in all; }
  }

  /** Where a dataset takes each round from. */
  ghost predicate Sourced(m: map<nat, Row>, table: map<nat, Row>, direct: map<nat, Row>, f: Filter, current: nat) {
    && (forall id :: id in m ==> m[id].roundId == id)
    && (forall id :: id in direct ==> (id in m <==> Passes(direct[id], f)))
    && (forall id :: id in direct && id in m ==> SameFacts(m[id], direct[id]))
    && (forall id :: id in table && id !in direct ==> (id in m <==> id < current && Passes(table[id], f)))
    && (forall id :: id in m && id !in direct ==> id in table && m[id] == table[id])
  }

  /** Which rows were read directly, and what they say. */
  ghost predicate Direct(direct: map<nat, Row>, recent: seq<Row>, live: Option<Row>, f: Filter, current: nat) {
    && (forall id: nat :: id != current ==> (id in direct <==> ReadDirectly(recent, id)))
    && (current in direct <==> f == All && live.Some?)
    && (current in direct ==> direct[current] == live.value)
    && (forall d :: d in recent ==> d.roundId in direct && direct[d.roundId] == d)
  }

  lemma {:induction false} HistoryOf(all: seq<Row>, m: map<nat, Row>, direct: map<nat, Row>, table: map<nat, Row>,
                                     current: nat, recent: seq<Row>, live: Option<Row>, f: Filter)
    requires Lists(all, m) && Sourced(m, table, direct, f, current) && Direct(direct, recent, live, f, current)
    requires Confined(recent, live, current)
    ensures History(all, table, current, recent, live, f)
  {
    forall id: nat ensures ListsId(all, id) <==> id in m { ListedId(all, m, id); }
    if f == All && live.Some? {
      forall id | id in m ensures id <= current {
        if id != current && id in direct { assert ReadDirectly(recent, id); }
      }
      NewestIsFirst(all, m, current, live.value);
    }
  }

  lemma {:induction false} HistoryContents(all: seq<Row>, table: map<nat, Row>, known: map<nat, Row>, current: nat,
                                           recent: seq<Row>, live: Option<Row>, f: Filter)
    requires Keyed(table) && Confined(recent, live, current) && DistinctIds(recent)
    requires Lists(all, Dataset(table, known, ById(DirectRows(recent, live, f)), f, current))
    ensures History(all, table, current, recent, live, f)
  {
    var direct := ById(DirectRows(recent, live, f));
    var m := Dataset(table, known, direct, f, current);
    ByIdKeyed(DirectRows(recent, live, f));
    DatasetSourced(table, known, direct, f, current);
    forall id: nat | id != current ensures id in direct <==> ReadDirectly(recent, id) {
      DirectOf(recent, live, f, current, id);
    }
    DirectOf(recent, live, f, current, current);
    HistoryOf(all, m, direct, table, current, recent, live, f);
  }

  lemma {:induction false} DatasetSourced(table: map<nat, Row>, known: map<nat, Row>, direct: map<nat, Row>, f: Filter,
                                          current: nat)
    requires Keyed(table) && Keyed(direct)
    ensures Sourced(Dataset(table, known, direct, f, current), table, direct, f, current)
  {
    DatasetParts(table, known, direct, f, current);
    var m := Dataset(table, known, direct, f, current);
    forall id: nat
      ensures id in direct ==> (id in m <==> Passes(direct[id], f))
      ensures id in direct && id in m ==> SameFacts(m[id], direct[id])
      ensures id !in direct ==> (id in m <==> id in table && id < current && Passes(table[id], f))
      ensures id !in direct && id in m ==> m[id] == table[id]
    {
      DatasetAt(table, known, direct, f, current, id);
    }
  }

  lemma {:induction false} NewestIsFirst(all: seq<Row>, m: map<nat, Row>, current: nat, d: Row)
    requires Lists(all, m) && current in m && d.roundId == current && SameFacts(m[current], d)
    requires forall id :: id in m ==> id <= current
    ensures all != [] && SameFacts(all[0], d)
  {
    assert m[current] in all;
    var i :| 0 <= i < |all| && all[i] == m[current];
    assert all[0] in all;
  }

  /**
   * Loads every page in turn. Together they list every row of the filtered overlay exactly once, newest
   * first, if and only if every direct row shown ranks on the first page, which a page size of five or
   * more guarantees for the rows the page reads directly.
   */
  method LoadAllPages(table: map<nat, Row>, current: nat, recent: seq<Row>, live: Option<Row>, f: Filter,
                      pageSize: nat, projected: bool)
    returns (all: seq<Row>, ghost full: seq<Row>, ghost idx: seq<Row>, ghost shown: map<nat, Row>)
    requires Keyed(table) && pageSize > 0
    ensures Overlay(table, current, recent, live, f, projected, full, idx, shown)
    ensures var direct, known := ById(DirectRows(recent, live, f)), if projected then table else map[];
      Lists(all, Dataset(table, known, direct, f, current)) <==> ShownWithin(full, shown, pageSize)
    ensures Confined(recent, live, current) && pageSize >= 5 ==>
      var direct, known := ById(DirectRows(recent, live, f)), if projected then table else map[];
      Lists(all, Dataset(table, known, direct, f, current))
    ensures Confined(recent, live, current) && DistinctIds(recent) && pageSize >= 5 ==>
      History(all, table, current, recent, live, f)
  {
    var out;
    out, full, idx, shown := LoadFromIndex(table, current, recent, live, f, 0, pageSize, projected);
    var rest := LoadLaterPages(table, current, recent, live, f, out.pages, pageSize, projected, full, idx, shown);
    all := out.slice + rest;
    AllPagesListed(table, current, recent, live, f, projected, full, idx, shown, pageSize, out.slice);
    if Confined(recent, live, current) && DistinctIds(recent) && pageSize >= 5 {
      HistoryContents(all, table, if projected then table else map[], current, recent, live, f);
    }
  }

  lemma AllPagesListed(table: map<nat, Row>, current: nat, recent: seq<Row>, live: Option<Row>, f: Filter,
                       projected: bool, full: seq<Row>, idx: seq<Row>, shown: map<nat, Row>, pageSize: nat,
                       first: seq<Row>)
    requires Keyed(table) && pageSize > 0 && FirstPageShown(first, idx, shown, pageSize)
    requires Overlay(table, current, recent, live, f, projected, full, idx, shown)
    ensures var direct, known := ById(DirectRows(recent, live, f)), if projected then table else map[];
      var all := first + LaterPages(idx, shown, pageSize, PageCount(|full|, pageSize));
      && (Lists(all, Dataset(table, known, direct, f, current)) <==> ShownWithin(full, shown, pageSize))
      && (Confined(recent, live, current) && pageSize >= 5 ==>
            Lists(all, Dataset(table, known, direct, f, current)))
  {
    var all := first + LaterPages(idx, shown, pageSize, PageCount(|full|, pageSize));
    GluedIff(full, idx, shown, pageSize, first);
    OverlayListed(table, current, recent, live, f, projected, full, idx, shown, all);
    ConfinedFits(table, current, recent, live, f, projected, full, idx, shown, pageSize);
  }

  method LoadLaterPages(table: map<nat, Row>, current: nat, recent: seq<Row>, live: Option<Row>, f: Filter, pages: nat,
                        pageSize: nat, projected: bool, ghost full: seq<Row>, ghost idx: seq<Row>,
                        ghost shown: map<nat, Row>)
    returns (rest: seq<Row>)
    requires Keyed(table) && pageSize > 0 && pages == PageCount(|full|, pageSize)
    requires Overlay(table, current, recent, live, f, projected, full, idx, shown)
    ensures rest == LaterPages(idx, shown, pageSize, pages)
  {
    rest := [];
    for p := 1 to pages
      invariant rest == LaterPages(idx, shown, pageSize, p)
    {
      var slice := LoadLaterPage(table, current, recent, live, f, p, pageSize, projected, full, idx, shown);
      rest := rest + slice;
    }
  }

  method LoadLaterPage(table: map<nat, Row>, current: nat, recent: seq<Row>, live: Option<Row>, f: Filter, page: nat,
                       pageSize: nat, projected: bool, ghost full: seq<Row>, ghost idx: seq<Row>,
                       ghost shown: map<nat, Row>)
    returns (slice: seq<Row>)
    requires Keyed(table) && pageSize > 0 && 0 < page < PageCount(|full|, pageSize)
    requires Overlay(table, current, recent, live, f, projected, full, idx, shown)
    ensures slice == LaterPageShown(idx, shown, pageSize, page)
  {
    var out, full', idx', shown' := LoadFromIndex(table, current, recent, live, f, page, pageSize, projected);
    SameOverlay(table, current, recent, live, f, projected, full, idx, shown, full', idx', shown');
    slice := out.slice;
  }

  lemma ConfinedFits(table: map<nat, Row>, current: nat, recent: seq<Row>, live: Option<Row>, f: Filter,
                     projected: bool, full: seq<Row>, idx: seq<Row>, shown: map<nat, Row>, pageSize: nat)
    requires Keyed(table) && Overlay(table, current, recent, live, f, projected, full, idx, shown)
    ensures Confined(recent, live, current) && pageSize >= 5 ==> ShownWithin(full, shown, pageSize)
  {
    if Confined(recent, live, current) && pageSize >= 5 {
      DirectRowsInWindow(recent, live, f, current);
      var known := if projected then table else map[];
      DatasetFits(table, known, ById(DirectRows(recent, live, f)), f, current, full, pageSize);
    }
  }

  lemma SameOverlay(table: map<nat, Row>, current: nat, recent: seq<Row>, live: Option<Row>, f: Filter, projected: bool,
                    full: seq<Row>, idx: seq<Row>, shown: map<nat, Row>,
                    full': seq<Row>, idx': seq<Row>, shown': map<nat, Row>)
    requires Overlay(table, current, recent, live, f, projected, full, idx, shown)
    requires Overlay(table, current, recent, live, f, projected, full', idx', shown')
    ensures full == full' && idx == idx' && shown == shown'
  {
    ListingUnique(full, full');
    ListingUnique(idx, idx');
  }

  lemma OverlayListed(table: map<nat, Row>, current: nat, recent: seq<Row>, live: Option<Row>, f: Filter,
                      projected: bool, full: seq<Row>, idx: seq<Row>, shown: map<nat, Row>, all: seq<Row>)
    requires Overlay(table, current, recent, live, f, projected, full, idx, shown)
    ensures var direct, known := ById(DirectRows(recent, live, f)), if projected then table else map[];
      Lists(all, Dataset(table, known, direct, f, current)) <==> all == full
  {
    var direct, known := ById(DirectRows(recent, live, f)), if projected then table else map[];
    if Lists(all, Dataset(table, known, direct, f, current)) {
      ListsUnique(all, full, Dataset(table, known, direct, f, current));
    }
  }

  /** An empty index that knows nothing leaves exactly the direct rows. */
  lemma DirectOnly(direct: map<nat, Row>, current: nat)
    requires forall id :: id in direct ==> !direct[id].projectionComplete
    ensures Dataset(map[], map[], direct, All, current) == direct
  {
    assert DirectShown(direct, map[], All) == direct;
  }

  lemma TwoRows(a: Row, b: Row)
    requires a.roundId < b.roundId
    ensures var m := map[a.roundId := a, b.roundId := b];
      Lists([b, a], m) && |m| == 2 && forall r :: r in [b, a] <==> Filed(r, m)
  {
    var m := map[a.roundId := a, b.roundId := b];
    assert [b, a][0] == b && [b, a][1] == a;
    assert m.Keys == {a.roundId, b.roundId};
  }

  lemma TwoPages(a: Row, b: Row)
    requires a.roundId < b.roundId
    ensures var m := map[a.roundId := a, b.roundId := b];
      && Joined([b, a], [], m) && FirstPageShown([b], [], m, 1)
      && LaterPageShown([], m, 1, 1) == [] && Page([b, a], 1, 1) == [a]
  {
    var m, full := map[a.roundId := a, b.roundId := b], [b, a];
    TwoRows(a, b);
    var window := PageWindow(0, 1, |m|);
    assert NewestFirst(full) && [b] == Range(full, 0, 1);
    assert forall r :: r in full <==> r in Range([], window.offset, window.pageSize) || Filed(r, m);
  }

  /** With one row a page, the active round and one elapsed round read directly and an empty index, page
      one shows nothing: the elapsed round is on no page. */
  lemma SmallPageLosesRow(elapsed: Row, active: Row)
    requires elapsed.roundId < active.roundId && !elapsed.projectionComplete && !active.projectionComplete
    ensures
      var shown := map[elapsed.roundId := elapsed, active.roundId := active];
      && Lists([active, elapsed], Dataset(map[], map[], shown, All, active.roundId))
      && FirstPageShown([active], [], shown, 1) && LaterPageShown([], shown, 1, 1) == []
  {
    TwoRows(elapsed, active);
    TwoPages(elapsed, active);
    DirectOnly(map[elapsed.roundId := elapsed, active.roundId := active], active.roundId);
  }
}
