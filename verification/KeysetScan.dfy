/** The keyset scan over enabled channels: fetch the next batch in id order above
    the last id seen, stop on an empty or short batch. */
module KeysetScan {

  datatype Row = Row(id: int, enabled: bool)

  predicate Ascending(rows: seq<Row>) {
    forall i, j :: 0 <= i < j < |rows| ==> rows[i].id < rows[j].id
  }

  predicate DistinctIds(rows: seq<Row>) {
    forall i, j :: 0 <= i < j < |rows| ==> rows[i].id != rows[j].id
  }

  /** WHERE status = enabled, and id > lastID unless lastID is zero or less. */
  predicate Wanted(row: Row, lastID: int) {
    row.enabled && (lastID > 0 ==> row.id > lastID)
  }

  function Insert(rows: seq<Row>, row: Row): seq<Row> {
    if rows == [] then [row]
    else if row.id < rows[0].id then [row] + rows
    else [rows[0]] + Insert(rows[1..], row)
  }

  /** The wanted rows in ascending id order. */
  function Select(table: seq<Row>, lastID: int): seq<Row> {
    if table == [] then []
    else
      var rest := Select(table[1..], lastID);
      if Wanted(table[0], lastID) then Insert(rest, table[0]) else rest
  }

  /** findEnabledChannelsAfterID. */
  function Query(table: seq<Row>, lastID: int, batch: nat): seq<Row> {
    var all := Select(table, lastID);
    if |all| <= batch then all else all[..batch]
  }

  lemma {:induction false} InsertIs(rows: seq<Row>, row: Row)
    requires Ascending(rows) && forall r :: r in rows ==> r.id != row.id
    ensures Ascending(Insert(rows, row))
    ensures forall r :: r in Insert(rows, row) <==> r in rows || r == row
  {
    if rows != [] && row.id >= rows[0].id {
      InsertIs(rows[1..], row);
      var rest := Insert(rows[1..], row);
      forall j | 0 <= j < |rest| ensures rows[0].id < rest[j].id {
        assert rest[j] in rest;
      }
    }
  }

  lemma {:induction false} SelectIs(table: seq<Row>, lastID: int)
    requires DistinctIds(table)
    ensures Ascending(Select(table, lastID))
    ensures forall r :: r in Select(table, lastID) <==> r in table && Wanted(r, lastID)
  {
    if table != [] {
      SelectIs(table[1..], lastID);
      if Wanted(table[0], lastID) { InsertIs(Select(table[1..], lastID), table[0]); }
    }
  }

  lemma HasMember(rows: seq<Row>)
    ensures rows != [] ==> exists r :: r in rows
  {
    if rows != [] { assert rows[0] in rows; }
  }

  /** Ascending lists with the same rows are the same list. */
  lemma {:induction false} AscendingIsUnique(a: seq<Row>, b: seq<Row>)
    requires Ascending(a) && Ascending(b) && forall r :: r in a <==> r in b
    ensures a == b
  {
    if a == [] {
      HasMember(b);
    } else {
      assert a[0] in b;
      assert b[0] in a;
      assert a[0] == b[0];
      forall r ensures r in a[1..] <==> r in b[1..] {
        if r in a[1..] { assert r in b && r != b[0]; }
        if r in b[1..] { assert r in a && r != a[0]; }
      }
      AscendingIsUnique(a[1..], b[1..]);
    }
  }

  /** What a query above the k-th row sees is the rest of the list. */
  lemma SelectAfter(table: seq<Row>, k: nat)
    requires DistinctIds(table) && forall r :: r in table ==> r.id > 0
    requires 0 < k <= |Select(table, 0)|
    ensures Select(table, Select(table, 0)[k - 1].id) == Select(table, 0)[k..]
  {
    var all := Select(table, 0);
    var last := all[k - 1].id;
    SelectIs(table, 0);
    SelectIs(table, last);
    assert all[k - 1] in all;
    forall r ensures r in Select(table, last) <==> r in all[k..] {
      if r in all && r.id > last {
        var i :| 0 <= i < |all| && all[i] == r;
        assert i >= k && all[k..][i - k] == r;
      }
      if r in all[k..] {
        var i :| 0 <= i < |all[k..]| && all[k..][i] == r;
        assert all[k + i] == r && all[k + i] in all;
      }
    }
    AscendingIsUnique(Select(table, last), all[k..]);
  }

  function Min(a: nat, b: nat): nat { if a < b then a else b }

  function Enabled(table: seq<Row>): seq<Row> {
    if table == [] then [] else if table[0].enabled then [table[0]] + Enabled(table[1..]) else Enabled(table[1..])
  }

  /** The first n enabled channels in id order. */
  ghost predicate FirstEnabled(table: seq<Row>, visited: seq<Row>, n: nat) {
    && |visited| == n && Ascending(visited)
    && (forall r :: r in visited ==> r in table && r.enabled)
    && (forall r, v :: r in table && r.enabled && v in visited && r.id < v.id ==> r in visited)
    && (n < |Enabled(table)| || forall r :: r in table && r.enabled ==> r in visited)
  }

  lemma PrefixIsFirst(table: seq<Row>, n: nat)
    requires DistinctIds(table) && n <= |Select(table, 0)|
    ensures FirstEnabled(table, Select(table, 0)[..n], n)
  {
    var all := Select(table, 0);
    SelectIs(table, 0);
    SelectCounts(table);
    forall r, v | r in table && r.enabled && v in all[..n] && r.id < v.id ensures r in all[..n] {
      PrefixTakesSmaller(all, n, r, v);
    }
    forall r | r in all[..n] ensures r in table && r.enabled { assert r in all; }
    if n == |all| { assert all[..n] == all; }
  }

  lemma PrefixTakesSmaller(all: seq<Row>, n: nat, r: Row, v: Row)
    requires Ascending(all) && n <= |all| && r in all && v in all[..n] && r.id < v.id
    ensures r in all[..n]
  {
    var i :| 0 <= i < |all| && all[i] == r;
    var j :| 0 <= j < n && all[j] == v;
    assert i < n;
    assert all[..n][i] == r;
  }

  /** How many enabled channels there are. */
  lemma {:induction false} SelectCounts(table: seq<Row>)
    ensures |Select(table, 0)| == |Enabled(table)|
  {
    if table != [] {
      SelectCounts(table[1..]);
      InsertGrows(Select(table[1..], 0), table[0]);
    }
  }

  lemma {:induction false} InsertGrows(rows: seq<Row>, row: Row)
    ensures |Insert(rows, row)| == |rows| + 1
  {
    if rows != [] { InsertGrows(rows[1..], row); }
  }

  /** One batch, cut short when the budget is used up. */
  method VisitBatch(channels: seq<Row>, before: seq<Row>, budget: nat) returns (visited: seq<Row>)
    requires |before| <= budget
    ensures visited == before + channels[..Min(|channels|, budget - |before|)]
  {
    visited := before;
    var i := 0;
    while i < |channels| && |visited| < budget
      invariant 0 <= i <= |channels| && |visited| == |before| + i <= budget
      invariant visited == before + channels[..i]
    {
      visited := visited + [channels[i]];
      i := i + 1;
    }
  }

  /** The rows that so many full batches hold. */
  function Batches(queries: nat, batch: nat): nat {
    if queries == 0 then 0 else Batches(queries - 1, batch) + batch
  }

  lemma {:induction false} BatchesGrow(n: nat, m: nat, batch: nat)
    requires n <= m
    ensures Batches(n, batch) <= Batches(m, batch)
  {
    if n < m { BatchesGrow(n, m - 1, batch); }
  }

  /** How far a scan gets: to the end, to its cancellation, or to the first query that fails. */
  function Reached(table: seq<Row>, batch: nat, budget: nat, queries: nat): nat {
    Min(Min(budget, |Enabled(table)|), Batches(queries, batch))
  }

  /** The channels visited so far, and what the next query will find. */
  ghost predicate Halfway(table: seq<Row>, lastID: int, visited: seq<Row>) {
    var all := Select(table, 0);
    |visited| <= |all| && visited == all[..|visited|] && Select(table, lastID) == all[|visited|..]
  }

  /** A batch extends what was visited by the next rows in order. */
  lemma BatchIsNext(table: seq<Row>, lastID: int, visited: seq<Row>, batch: nat)
    requires Halfway(table, lastID, visited)
    ensures var all, channels := Select(table, 0), Query(table, lastID, batch);
            && |channels| == Min(batch, |all| - |visited|)
            && forall n :: 0 <= n <= |channels| ==> visited + channels[..n] == all[..|visited| + n]
  {
    var all, channels := Select(table, 0), Query(table, lastID, batch);
    var k := |visited|;
    assert channels == all[k..k + |channels|];
    forall n | 0 <= n <= |channels| ensures visited + channels[..n] == all[..k + n] { }
  }

  lemma HalfwayNext(table: seq<Row>, lastID: int, visited: seq<Row>, batch: nat)
    requires DistinctIds(table) && (forall r :: r in table ==> r.id > 0)
    requires Halfway(table, lastID, visited) && Query(table, lastID, batch) != []
    ensures var channels := Query(table, lastID, batch);
            Halfway(table, channels[|channels| - 1].id, visited + channels)
  {
    var all, channels := Select(table, 0), Query(table, lastID, batch);
    BatchIsNext(table, lastID, visited, batch);
    assert channels[..|channels|] == channels;
    assert visited + channels == all[..|visited| + |channels|];
    assert (visited + channels)[|visited| + |channels| - 1] == channels[|channels| - 1];
    SelectAfter(table, |visited| + |channels|);
  }

  /** One turn of the scan: query, visit the batch, and see whether to go on. */
  method ScanBatch(table: seq<Row>, lastID: int, visited: seq<Row>, batch: nat, budget: nat)
    returns (nextID: int, now: seq<Row>, more: bool)
    requires batch > 0 && DistinctIds(table) && (forall r :: r in table ==> r.id > 0)
    requires Halfway(table, lastID, visited) && |visited| < budget
    ensures |visited| <= |now| <= budget && |now| <= |visited| + batch
    ensures more <==> |now| == |visited| + batch
    ensures more ==> Halfway(table, nextID, now)
    ensures !more ==> now == Select(table, 0)[..Min(budget, |Select(table, 0)|)]
  {
    var channels := Query(table, lastID, batch);
    BatchIsNext(table, lastID, visited, batch);
    if |channels| == 0 { return lastID, visited, false; }
    HalfwayNext(table, lastID, visited, batch);
    now := VisitBatch(channels, visited, budget);
    assert channels[..|channels|] == channels;
    nextID := channels[|channels| - 1].id;
    more := |now| == |visited| + |channels| && |channels| == batch;
  }

  /** The scan loop. `budget` is the number of channels after which the context is cancelled,
      `queries` the number of queries that succeed before one fails. Every enabled channel is
      visited once, in ascending id order, whatever the batch size; cancellation and a failed
      query cut the list short. */
  method Scan(table: seq<Row>, batch: nat, budget: nat, queries: nat) returns (visited: seq<Row>)
    requires batch > 0 && DistinctIds(table) && forall r :: r in table ==> r.id > 0
    ensures FirstEnabled(table, visited, Reached(table, batch, budget, queries))
  {
    ghost var all := Select(table, 0);
    var lastID, asked, more := 0, 0, true;
    visited := [];
    while more && |visited| < budget && asked < queries
      invariant asked <= queries && |visited| <= budget && |visited| <= |all| && visited == all[..|visited|]
      invariant more ==> Halfway(table, lastID, visited) && |visited| == Batches(asked, batch)
      invariant !more ==> |visited| == Min(budget, |all|) <= Batches(asked, batch)
      decreases |all| - |visited|, more
    {
      lastID, visited, more := ScanBatch(table, lastID, visited, batch, budget);
      asked := asked + 1;
    }
    BatchesGrow(asked, queries, batch);
    SelectCounts(table);
    PrefixIsFirst(table, |visited|);
  }
}
