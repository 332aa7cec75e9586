/** The catalogue tables the reconciliation engine reads and writes: stored
    detections (serial ids, unique on a compound key), instances, and product
    rows keyed by detection id. The pure functions below say what each store
    operation does; the class `Catalog` performs them in place and is proved
    against them. */
module Store {
  import opened Wrappers
  import opened Records
  import opened Products
  import opened Proximity

  /** What an insert that collides with a stored detection updates:
      right ascension and the unresolved flag (sofiax/db.py), or right
      ascension only (src/utils/sql.py). */
  datatype Conflict = RaAndUnresolved | RaOnly

  /** The unique key of a stored detection: name, position, bounding box,
      pixel statistics, integrated flux, instance and run. */
  datatype Key = Key(name: string, x: real, y: real, z: real, shape: Shape, fSum: real,
                     instanceId: nat, runId: int)

  function KeyOf(runId: int, instanceId: nat, d: Detection): Key
  {
    Key(d.name, d.x, d.y, d.z, d.shape, d.fSum, instanceId, runId)
  }

  function RowKey(r: Row): Key
  {
    KeyOf(r.runId, r.instanceId, r.detection)
  }

  /** An instance: the run it belongs to, its output file name and its region
      boundary, unique on all three. Its id is its position. */
  datatype InstanceRow = InstanceRow(runId: int, filename: string, boundary: seq<int>)

  datatype Tables = Tables(rows: seq<Row>, nextId: nat, instances: seq<InstanceRow>,
                           products: map<nat, Product>)

  predicate Ascending(rows: seq<Row>)
  {
    forall i, j :: 0 <= i < j < |rows| ==> rows[i].id < rows[j].id
  }

  predicate UniqueKeys(rows: seq<Row>)
  {
    forall a, b :: a in rows && b in rows && RowKey(a) == RowKey(b) ==> a == b
  }

  /** Rows are kept in ascending id order (ids are serial and new rows are
      appended), every id is below the next serial value, no two rows share a
      key, and no two instances share one. */
  predicate WellFormed(t: Tables)
  {
    && Ascending(t.rows)
    && (forall r :: r in t.rows ==> r.id < t.nextId)
    && UniqueKeys(t.rows)
    && (forall i, j :: 0 <= i < j < |t.instances| ==> t.instances[i] != t.instances[j])
  }

  /** The position of the first row with the given key. */
  function IndexOfKey(rows: seq<Row>, k: Key): (r: Option<nat>)
    ensures r.Some? ==> r.value < |rows| && RowKey(rows[r.value]) == k
    ensures r.Some? ==> forall i :: 0 <= i < r.value ==> RowKey(rows[i]) != k
    ensures r.None? ==> forall i :: 0 <= i < |rows| ==> RowKey(rows[i]) != k
  {
    if |rows| == 0 then None
    else if RowKey(rows[0]) == k then Some(0)
    else match IndexOfKey(rows[1..], k)
      case None => None
      case Some(i) => Some(i + 1)
  }

  /** With no row of key `k` the lookup finds nothing. */
  lemma {:induction false} IndexOfKeyAbsent(rows: seq<Row>, k: Key)
    requires forall i :: 0 <= i < |rows| ==> RowKey(rows[i]) != k
    ensures IndexOfKey(rows, k) == None
    decreases |rows|
  {
    if |rows| > 0 {
      assert forall i :: 0 <= i < |rows| - 1 ==> rows[1..][i] == rows[i + 1];
      IndexOfKeyAbsent(rows[1..], k);
    }
  }

  /** The lookup finds the first row of key `k`. */
  lemma {:induction false} IndexOfKeyFirst(rows: seq<Row>, k: Key, i: nat)
    requires i < |rows| && RowKey(rows[i]) == k
    requires forall j :: 0 <= j < i ==> RowKey(rows[j]) != k
    ensures IndexOfKey(rows, k) == Some(i)
    decreases i
  {
    if i > 0 {
      assert rows[1..][i - 1] == rows[i];
      assert forall j :: 0 <= j < i - 1 ==> rows[1..][j] == rows[j + 1];
      IndexOfKeyFirst(rows[1..], k, i - 1);
    }
  }

  /** The stored row after a colliding insert. */
  function Updated(existing: Row, d: Detection, unresolved: bool, conflict: Conflict): Row
  {
    existing.(detection := existing.detection.(ra := d.ra),
              unresolved := if conflict == RaAndUnresolved then unresolved else existing.unresolved)
  }

  /** INSERT ... ON CONFLICT (key) DO UPDATE ... RETURNING id: a new row with
      the next serial id, or the update of the row with the same key. The
      serial value is drawn before the conflict is found (the access URL
      reads it with currval), so a conflicting insert uses it up too. */
  function Upsert(t: Tables, runId: int, instanceId: nat, d: Detection, unresolved: bool,
                  conflict: Conflict): (Tables, nat)
  {
    match IndexOfKey(t.rows, KeyOf(runId, instanceId, d))
    case None =>
      (t.(rows := t.rows + [Row(t.nextId, runId, instanceId, unresolved, d)], nextId := t.nextId + 1), t.nextId)
    case Some(i) =>
      (t.(rows := t.rows[i := Updated(t.rows[i], d, unresolved, conflict)], nextId := t.nextId + 1), t.rows[i].id)
  }

  /** The product insert: ON CONFLICT (detection_id) rewrites only the
      detection id, so stored blobs stay; None writes nothing. */
  function UpsertProduct(products: map<nat, Product>, id: nat, p: Option<Product>): map<nat, Product>
  {
    if p.None? || id in products then products else products[id := p.value]
  }

  /** db_detection_insert: the detection upsert followed by the product upsert
      for the id it returns. */
  function Insert(t: Tables, runId: int, instanceId: nat, d: Detection, unresolved: bool,
                  conflict: Conflict, p: Option<Product>): (Tables, nat)
  {
    var (t1, id) := Upsert(t, runId, instanceId, d, unresolved, conflict);
    (t1.(products := UpsertProduct(t1.products, id, p)), id)
  }

  function RemoveId(rows: seq<Row>, id: nat): (r: seq<Row>)
    ensures forall x :: x in r <==> x in rows && x.id != id
  {
    if |rows| == 0 then []
    else if rows[0].id == id then RemoveId(rows[1..], id)
    else [rows[0]] + RemoveId(rows[1..], id)
  }

  /** db_delete_detection. */
  function Delete(t: Tables, id: nat): Tables
  {
    t.(rows := RemoveId(t.rows, id))
  }

  /** db_update_detection_unresolved. */
  function SetUnresolved(t: Tables, value: bool, ids: seq<nat>): Tables
  {
    t.(rows := seq(|t.rows|, i requires 0 <= i < |t.rows| =>
                     if t.rows[i].id in ids then t.rows[i].(unresolved := value) else t.rows[i]))
  }

  /** The instance a row belongs to exists and is part of the run. */
  predicate InRun(t: Tables, r: Row, runId: int)
  {
    r.instanceId < |t.instances| && t.instances[r.instanceId].runId == runId
  }

  /** The neighbour query over `rows`, in their order. */
  function Neighbours(t: Tables, rows: seq<Row>, runId: int, c: Detection, sigma: int): seq<Row>
  {
    if |rows| == 0 then []
    else
      var last := rows[|rows| - 1];
      Neighbours(t, rows[..|rows| - 1], runId, c, sigma) +
        (if InRun(t, last, runId) && IsNeighbour(sigma, c, last.detection) then [last] else [])
  }

  /** db_source_match: the stored neighbours of the candidate in the run, by
      ascending id, less the first one at the candidate's exact position. */
  function Matches(t: Tables, runId: int, c: Detection, sigma: int): seq<Row>
  {
    WithoutFirstExact(Neighbours(t, t.rows, runId, c, sigma), c)
  }

  /** The instance upsert: the id of the equal instance, or a new one. */
  function IndexOfInstance(instances: seq<InstanceRow>, row: InstanceRow): (r: Option<nat>)
    ensures r.Some? ==> r.value < |instances| && instances[r.value] == row
    ensures r.Some? ==> forall i :: 0 <= i < r.value ==> instances[i] != row
    ensures r.None? ==> row !in instances
  {
    if |instances| == 0 then None
    else if instances[0] == row then Some(0)
    else match IndexOfInstance(instances[1..], row)
      case None => None
      case Some(i) => Some(i + 1)
  }

  function UpsertInstance(t: Tables, row: InstanceRow): (Tables, nat)
  {
    match IndexOfInstance(t.instances, row)
    case Some(i) => (t, i)
    case None => (t.(instances := t.instances + [row]), |t.instances|)
  }

  // ---------------------------------------------------------------------
  // What the operations do

  /** Without a stored row of the same key the insert appends one row with
      the next serial id; with one, no row is added, the returned id is that
      row's, and only its right ascension (and, for RaAndUnresolved, its
      unresolved flag) changes. Either way one serial value is used up. */
  lemma {:induction false} UpsertOutcome(t: Tables, runId: int, instanceId: nat, d: Detection,
                                         unresolved: bool, conflict: Conflict)
    requires WellFormed(t)
    ensures var (t1, id) := Upsert(t, runId, instanceId, d, unresolved, conflict);
      && t1.instances == t.instances && t1.products == t.products && t1.nextId == t.nextId + 1
      && ((forall r :: r in t.rows ==> RowKey(r) != KeyOf(runId, instanceId, d)) ==>
            && t1.rows == t.rows + [Row(t.nextId, runId, instanceId, unresolved, d)]
            && id == t.nextId)
      && (forall i :: 0 <= i < |t.rows| && RowKey(t.rows[i]) == KeyOf(runId, instanceId, d) ==>
            && |t1.rows| == |t.rows| && id == t.rows[i].id
            && t1.rows[i].id == t.rows[i].id && RowKey(t1.rows[i]) == RowKey(t.rows[i])
            && t1.rows[i].detection.ra == d.ra
            && t1.rows[i].detection.(ra := t.rows[i].detection.ra) == t.rows[i].detection
            && t1.rows[i].unresolved == (if conflict == RaAndUnresolved then unresolved else t.rows[i].unresolved)
            && forall j :: 0 <= j < |t.rows| && j != i ==> t1.rows[j] == t.rows[j])
  {
    var k := KeyOf(runId, instanceId, d);
    match IndexOfKey(t.rows, k)
    case None =>
    case Some(i) =>
      forall j | 0 <= j < |t.rows| && RowKey(t.rows[j]) == k
        ensures j == i
      {
        KeyPinsIndex(t.rows, i, j);
      }
  }

  /** In well-formed tables a key identifies one position. */
  lemma KeyPinsIndex(rows: seq<Row>, i: nat, j: nat)
    requires Ascending(rows) && UniqueKeys(rows)
    requires i < |rows| && j < |rows| && RowKey(rows[i]) == RowKey(rows[j])
    ensures i == j
  {
    assert rows[i] in rows && rows[j] in rows;
    assert rows[i] == rows[j];
    assert rows[i].id == rows[j].id;
  }

  lemma AppendKeepsWellFormed(t: Tables, r: Row)
    requires WellFormed(t) && r.id == t.nextId
    requires forall x :: x in t.rows ==> RowKey(x) != RowKey(r)
    ensures WellFormed(t.(rows := t.rows + [r], nextId := t.nextId + 1))
  {
    var rows := t.rows + [r];
    forall a | a in rows
      ensures a == r || a in t.rows
    {
      var j :| 0 <= j < |rows| && rows[j] == a;
      if j < |t.rows| {
        assert a == t.rows[j];
      }
    }
  }

  lemma ReplaceKeepsWellFormed(t: Tables, i: nat, u: Row)
    requires WellFormed(t) && i < |t.rows|
    requires u.id == t.rows[i].id && RowKey(u) == RowKey(t.rows[i])
    ensures WellFormed(t.(rows := t.rows[i := u]))
  {
    var rows := t.rows[i := u];
    forall a | a in rows
      ensures a == u || exists j :: 0 <= j < |t.rows| && j != i && a == t.rows[j]
    {
      var j :| 0 <= j < |rows| && rows[j] == a;
    }
    forall a, b | a in rows && b in rows && RowKey(a) == RowKey(b)
      ensures a == b
    {
      if a != u && b != u {
        assert a in t.rows && b in t.rows;
      } else if a != u || b != u {
        assert false;
      }
    }
  }

  /** The insert keeps the tables well formed. */
  lemma {:induction false} UpsertKeepsWellFormed(t: Tables, runId: int, instanceId: nat, d: Detection,
                                                 unresolved: bool, conflict: Conflict)
    requires WellFormed(t)
    ensures WellFormed(Upsert(t, runId, instanceId, d, unresolved, conflict).0)
  {
    var k := KeyOf(runId, instanceId, d);
    match IndexOfKey(t.rows, k)
    case None =>
      AppendKeepsWellFormed(t, Row(t.nextId, runId, instanceId, unresolved, d));
    case Some(i) =>
      ReplaceKeepsWellFormed(t, i, Updated(t.rows[i], d, unresolved, conflict));
  }

  /** Inserting the same detection twice leaves the rows as one insert
      does, and returns the same id: a replayed candidate adds no row, and
      only uses up one more serial value. */
  lemma {:induction false} UpsertIsIdempotent(t: Tables, runId: int, instanceId: nat, d: Detection,
                                              unresolved: bool, conflict: Conflict)
    ensures var once := Upsert(t, runId, instanceId, d, unresolved, conflict);
      var twice := Upsert(once.0, runId, instanceId, d, unresolved, conflict);
      twice.0 == once.0.(nextId := once.0.nextId + 1) && twice.1 == once.1
  {
    var k := KeyOf(runId, instanceId, d);
    var once := Upsert(t, runId, instanceId, d, unresolved, conflict);
    match IndexOfKey(t.rows, k)
    case None =>
      var added := Row(t.nextId, runId, instanceId, unresolved, d);
      var n := |t.rows|;
      assert once.0.rows == t.rows + [added];
      assert once.0.rows[n] == added;
      assert IndexOfKey(once.0.rows, k) == Some(n) by {
        var found := IndexOfKey(once.0.rows, k);
        assert RowKey(once.0.rows[n]) == k;
        assert found.Some?;
      }
      assert Updated(added, d, unresolved, conflict) == added;
      assert once.0.rows[n := added] == once.0.rows;
    case Some(i) =>
      var u := Updated(t.rows[i], d, unresolved, conflict);
      assert IndexOfKey(once.0.rows, k) == Some(i) by {
        var found := IndexOfKey(once.0.rows, k);
        assert RowKey(once.0.rows[i]) == k;
        assert found.Some?;
      }
      assert Updated(u, d, unresolved, conflict) == u;
      assert once.0.rows[i := u] == once.0.rows;
  }

  /** The product insert never replaces stored blobs: a detection that has a
      product keeps it, and nothing but the given id is added. */
  lemma UpsertProductKeepsStored(products: map<nat, Product>, id: nat, p: Option<Product>)
    ensures var m := UpsertProduct(products, id, p);
      && (forall k :: k in products ==> k in m && m[k] == products[k])
      && m.Keys <= products.Keys + {id}
      && (id !in products && p.Some? ==> id in m && m[id] == p.value)
      && (p.None? ==> m == products)
  {
  }

  /** Deleting removes exactly the rows with the given id and touches no other table. */
  lemma {:induction false} DeleteRemovesOnlyThatId(t: Tables, id: nat)
    requires WellFormed(t)
    ensures var t1 := Delete(t, id);
      && (forall r :: r in t1.rows <==> r in t.rows && r.id != id)
      && t1.nextId == t.nextId && t1.instances == t.instances && t1.products == t.products
      && WellFormed(t1)
  {
    RemoveIdAscending(t.rows, id);
  }

  lemma {:induction false} RemoveIdAscending(rows: seq<Row>, id: nat)
    requires Ascending(rows)
    ensures Ascending(RemoveId(rows, id))
  {
    if |rows| > 0 {
      var tail := RemoveId(rows[1..], id);
      RemoveIdAscending(rows[1..], id);
      if rows[0].id != id {
        forall x | x in tail
          ensures rows[0].id < x.id
        {
          var j :| 0 <= j < |rows[1..]| && rows[1..][j] == x;
          assert rows[j + 1] == x;
        }
        ConsAscending(rows[0], tail);
      }
    }
  }

  lemma ConsAscending(head: Row, tail: seq<Row>)
    requires Ascending(tail) && forall x :: x in tail ==> head.id < x.id
    ensures Ascending([head] + tail)
  {
    var r := [head] + tail;
    forall i, j | 0 <= i < j < |r|
      ensures r[i].id < r[j].id
    {
      assert r[j] == tail[j - 1];
      if i > 0 {
        assert r[i] == tail[i - 1];
      }
    }
  }

  /** The unresolved update sets the flag to the given value on exactly the
      listed ids; every row keeps its place, id, key and columns. */
  lemma SetUnresolvedTouchesOnlyListed(t: Tables, value: bool, ids: seq<nat>)
    ensures var t1 := SetUnresolved(t, value, ids);
      && |t1.rows| == |t.rows|
      && (forall i :: 0 <= i < |t.rows| ==>
            && t1.rows[i].id == t.rows[i].id && t1.rows[i].detection == t.rows[i].detection
            && RowKey(t1.rows[i]) == RowKey(t.rows[i])
            && t1.rows[i].unresolved == (if t.rows[i].id in ids then value else t.rows[i].unresolved))
      && t1.nextId == t.nextId && t1.instances == t.instances && t1.products == t.products
  {
  }

  lemma {:induction false} SetUnresolvedKeepsWellFormed(t: Tables, value: bool, ids: seq<nat>)
    requires WellFormed(t)
    ensures WellFormed(SetUnresolved(t, value, ids))
  {
    var t1 := SetUnresolved(t, value, ids);
    SetUnresolvedTouchesOnlyListed(t, value, ids);
    assert Ascending(t1.rows);
    forall a | a in t1.rows
      ensures a.id < t1.nextId
    {
      var i :| 0 <= i < |t1.rows| && t1.rows[i] == a;
      assert t.rows[i] in t.rows;
    }
    forall a, b | a in t1.rows && b in t1.rows && RowKey(a) == RowKey(b)
      ensures a == b
    {
      var i :| 0 <= i < |t1.rows| && t1.rows[i] == a;
      var j :| 0 <= j < |t1.rows| && t1.rows[j] == b;
      KeyPinsIndex(t.rows, i, j);
    }
  }

  /** The neighbour query returns exactly the rows of the run that pass the
      neighbour test. */
  lemma {:induction false} NeighboursAreNearbyRowsOfTheRun(t: Tables, rows: seq<Row>, runId: int, c: Detection, sigma: int)
    ensures forall r :: r in Neighbours(t, rows, runId, c, sigma) <==>
      r in rows && InRun(t, r, runId) && IsNeighbour(sigma, c, r.detection)
    decreases |rows|
  {
    if |rows| > 0 {
      var init, last := rows[..|rows| - 1], rows[|rows| - 1];
      NeighboursAreNearbyRowsOfTheRun(t, init, runId, c, sigma);
      assert rows == init + [last];
    }
  }

  /** ... and keeps the table's ascending id order. */
  lemma {:induction false} NeighboursAscending(t: Tables, rows: seq<Row>, runId: int, c: Detection, sigma: int)
    requires Ascending(rows)
    ensures Ascending(Neighbours(t, rows, runId, c, sigma))
    decreases |rows|
  {
    if |rows| > 0 {
      var init, last := rows[..|rows| - 1], rows[|rows| - 1];
      assert Ascending(init);
      NeighboursAscending(t, init, runId, c, sigma);
      NeighboursAreNearbyRowsOfTheRun(t, init, runId, c, sigma);
      var front := Neighbours(t, init, runId, c, sigma);
      forall x | x in front
        ensures x.id < last.id
      {
        var j :| 0 <= j < |init| && init[j] == x;
      }
    }
  }

  /** The instance upsert returns the id of an equal instance when there is one
      and appends otherwise; it keeps instances unique and leaves detections alone. */
  lemma {:induction false} UpsertInstanceOutcome(t: Tables, row: InstanceRow)
    requires WellFormed(t)
    ensures var (t1, id) := UpsertInstance(t, row);
      && id < |t1.instances| && t1.instances[id] == row
      && t1.instances[..|t.instances|] == t.instances
      && (row in t.instances ==> t1 == t)
      && t1.rows == t.rows && t1.products == t.products && t1.nextId == t.nextId
      && WellFormed(t1)
  {
    var (t1, id) := UpsertInstance(t, row);
    if row !in t.instances {
      assert t1.instances == t.instances + [row];
      forall i, j | 0 <= i < j < |t1.instances|
        ensures t1.instances[i] != t1.instances[j]
      {
        if j == |t.instances| {
          assert t1.instances[i] == t.instances[i];
        }
      }
    }
  }

  function IdSet(rows: seq<Row>): set<nat>
  {
    set r | r in rows :: r.id
  }

  /** The ids of the rows, in order (the list the unresolved update receives). */
  function Ids(rows: seq<Row>): seq<nat>
  {
    seq(|rows|, i requires 0 <= i < |rows| => rows[i].id)
  }

  /** Every stored row whose key differs from the inserted one is still
      there, unchanged, and no id disappears. */
  lemma {:induction false} UpsertKeepsOtherRows(t: Tables, runId: int, instanceId: nat, d: Detection,
                                                unresolved: bool, conflict: Conflict)
    ensures var t1 := Upsert(t, runId, instanceId, d, unresolved, conflict).0;
      && (forall r :: r in t.rows && RowKey(r) != KeyOf(runId, instanceId, d) ==> r in t1.rows)
      && IdSet(t.rows) <= IdSet(t1.rows)
  {
    var k := KeyOf(runId, instanceId, d);
    var t1 := Upsert(t, runId, instanceId, d, unresolved, conflict).0;
    match IndexOfKey(t.rows, k)
    case None =>
      assert t1.rows == t.rows + [Row(t.nextId, runId, instanceId, unresolved, d)];
      forall id | id in IdSet(t.rows)
        ensures id in IdSet(t1.rows)
      {
        var r :| r in t.rows && r.id == id;
        assert r in t1.rows;
      }
    case Some(i) =>
      forall r | r in t.rows
        ensures RowKey(r) != k ==> r in t1.rows
        ensures r.id in IdSet(t1.rows)
      {
        var j :| 0 <= j < |t.rows| && t.rows[j] == r;
        if j == i {
          assert t1.rows[i].id == r.id;
        } else {
          assert t1.rows[j] == r;
        }
      }
  }

  lemma DeleteKeepsOtherRows(t: Tables, id: nat)
    ensures forall r :: r in t.rows && r.id != id ==> r in Delete(t, id).rows
    ensures IdSet(Delete(t, id).rows) == IdSet(t.rows) - {id}
  {
  }

  lemma SetUnresolvedKeepsOtherRows(t: Tables, value: bool, ids: seq<nat>)
    ensures var t1 := SetUnresolved(t, value, ids);
      && (forall r :: r in t.rows && r.id !in ids ==> r in t1.rows)
      && IdSet(t1.rows) == IdSet(t.rows)
      && (forall r :: r in t1.rows && r.id in ids ==> r.unresolved == value)
  {
    var t1 := SetUnresolved(t, value, ids);
    forall r | r in t.rows
      ensures r.id !in ids ==> r in t1.rows
      ensures r.id in IdSet(t1.rows)
    {
      var j :| 0 <= j < |t.rows| && t.rows[j] == r;
      assert t1.rows[j].id == r.id;
    }
    forall r | r in t1.rows
      ensures r.id in IdSet(t.rows)
      ensures r.id in ids ==> r.unresolved == value
    {
      var j :| 0 <= j < |t1.rows| && t1.rows[j] == r;
      assert t.rows[j].id == r.id;
    }
  }

  // ---------------------------------------------------------------------
  // The tables, updated in place

  class Catalog {
    var rows: seq<Row>
    var nextId: nat
    var instances: seq<InstanceRow>
    var products: map<nat, Product>

    function State(): Tables
      reads this
    {
      Tables(rows, nextId, instances, products)
    }

    predicate Valid()
      reads this
    {
      WellFormed(State())
    }

    /** Empty tables; serial ids start at 1. */
    constructor ()
      ensures State() == Tables([], 1, [], map[])
      ensures Valid()
    {
      rows, nextId, instances, products := [], 1, [], map[];
    }

    /** db_source_match: scan the stored rows in id order, keep the run's
      neighbours, then drop the first exact-position duplicate. */
    method SourceMatch(runId: int, c: Detection, sigma: int) returns (result: seq<Row>)
      ensures result == Matches(State(), runId, c, sigma)
    {
      var found := [];
      var i := 0;
      while i < |rows|
        invariant 0 <= i <= |rows|
        invariant found == Neighbours(State(), rows[..i], runId, c, sigma)
      {
        assert rows[..i + 1][..i] == rows[..i];
        if InRun(State(), rows[i], runId) && IsNeighbour(sigma, c, rows[i].detection) {
          found := found + [rows[i]];
        }
        i := i + 1;
      }
      assert rows[..i] == rows;
      result := DropFirstExact(found, c);
    }

    /** db_detection_insert followed by the product upsert. */
    method InsertDetection(runId: int, instanceId: nat, d: Detection, unresolved: bool,
                           conflict: Conflict, p: Option<Product>) returns (id: nat)
      modifies this
      ensures (State(), id) == Insert(old(State()), runId, instanceId, d, unresolved, conflict, p)
      ensures old(Valid()) ==> Valid()
      ensures nextId >= old(nextId)
    {
      ghost var before := State();
      id := UpsertRow(runId, instanceId, d, unresolved, conflict);
      if WellFormed(before) {
        UpsertKeepsWellFormed(before, runId, instanceId, d, unresolved, conflict);
      }
      if p.Some? && id !in products {
        products := products[id := p.value];
      }
    }

    /** The detection row of the insert: appended, or the stored row of the
        same key updated. */
    method UpsertRow(runId: int, instanceId: nat, d: Detection, unresolved: bool, conflict: Conflict)
      returns (id: nat)
      modifies this
      ensures (State(), id) == Upsert(old(State()), runId, instanceId, d, unresolved, conflict)
    {
      var found := FindKey(KeyOf(runId, instanceId, d));
      if found.None? {
        id := nextId;
        rows := rows + [Row(id, runId, instanceId, unresolved, d)];
      } else {
        var i := found.value;
        id := rows[i].id;
        rows := rows[i := Updated(rows[i], d, unresolved, conflict)];
      }
      nextId := nextId + 1;
    }

    /** The lookup behind ON CONFLICT: the first stored row with key `k`. */
    method FindKey(k: Key) returns (r: Option<nat>)
      ensures r == IndexOfKey(rows, k)
    {
      var i := 0;
      while i < |rows| && RowKey(rows[i]) != k
        invariant 0 <= i <= |rows|
        invariant forall j :: 0 <= j < i ==> RowKey(rows[j]) != k
      {
        i := i + 1;
      }
      if i == |rows| {
        IndexOfKeyAbsent(rows, k);
        r := None;
      } else {
        IndexOfKeyFirst(rows, k, i);
        r := Some(i);
      }
    }

    /** db_delete_detection. */
    method DeleteDetection(id: nat)
      modifies this
      ensures State() == Delete(old(State()), id)
      ensures old(Valid()) ==> Valid()
    {
      if Valid() {
        DeleteRemovesOnlyThatId(State(), id);
      }
      rows := RemoveId(rows, id);
    }

    /** db_update_detection_unresolved. */
    method UpdateUnresolved(value: bool, ids: seq<nat>)
      modifies this
      ensures State() == SetUnresolved(old(State()), value, ids)
      ensures old(Valid()) ==> Valid()
    {
      if Valid() {
        SetUnresolvedKeepsWellFormed(State(), value, ids);
      }
      rows := SetUnresolved(State(), value, ids).rows;
    }

    /** db_instance_upsert, on the instance key. */
    method RegisterInstance(row: InstanceRow) returns (id: nat)
      modifies this
      ensures (State(), id) == UpsertInstance(old(State()), row)
      ensures old(Valid()) ==> Valid()
    {
      if Valid() {
        UpsertInstanceOutcome(State(), row);
      }
      var i := 0;
      while i < |instances| && instances[i] != row
        invariant 0 <= i <= |instances|
        invariant forall j :: 0 <= j < i ==> instances[j] != row
      {
        i := i + 1;
      }
      if i == |instances| {
        assert IndexOfInstance(instances, row) == None;
        instances := instances + [row];
      } else {
        assert instances[i] in instances;
        assert IndexOfInstance(instances, row) == Some(i);
      }
      id := i;
    }
  }
}
