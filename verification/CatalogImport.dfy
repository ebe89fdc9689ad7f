/** The live import: upserts by natural key into a table whose unique index the client cannot
    name, and the removal of rows a bundle no longer has. */
module CatalogImport {
  import opened Sequences
  import opened CatalogRows
  import opened LiveTable

  const BATCH: nat := 500
  const DELETE_BATCH: nat := 200

  datatype Stats = Stats(inserted: nat, updated: nat)

  /** Reads the whole table, a page at a time, until a page comes back short. */
  method FetchAll(t: Table) returns (all: seq<Stored>)
    ensures all == t.rows
  {
    all := [];
    var offset := 0;
    var more := true;
    while more
      invariant more ==> offset <= |t.rows|
      invariant all == if more then t.rows[..offset] else t.rows
      decreases |t.rows| - offset, more
    {
      var page := t.Page(offset, BATCH);
      all := all + page;
      if |page| < BATCH {
        more := false;
      } else {
        offset := offset + BATCH;
      }
    }
  }

  function IdsByKey(spec: KeySpec, rows: seq<Stored>): map<Key, Id> {
    if rows == [] then map[]
    else IdsByKey(spec, rows[..|rows| - 1])[KeyOf(spec, rows[|rows| - 1].row) := rows[|rows| - 1].id]
  }

  lemma {:induction false} IdsByKeyIs(spec: KeySpec, rows: seq<Stored>)
    requires UniqueKeys(spec, rows)
    ensures forall st :: st in rows ==> KeyOf(spec, st.row) in IdsByKey(spec, rows) && IdsByKey(spec, rows)[KeyOf(spec, st.row)] == st.id
    ensures forall k :: k in IdsByKey(spec, rows) ==>
              exists st :: st in rows && KeyOf(spec, st.row) == k && st.id == IdsByKey(spec, rows)[k]
  {
    if rows != [] {
      var init, last := rows[..|rows| - 1], rows[|rows| - 1];
      assert rows == init + [last];
      IdsByKeyIs(spec, init);
    }
  }

  function LiveKeys(spec: KeySpec, rows: seq<Stored>): set<Key> {
    set st | st in rows :: KeyOf(spec, st.row)
  }

  // ----- The plan: which keys are inserted, which rows are updated -----

  /** The keys that the table has, or those it lacks, in order. */
  function Selected(order: seq<Key>, ids: map<Key, Id>, existing: bool): seq<Key> {
    if order == [] then []
    else
      var before, k := Selected(order[..|order| - 1], ids, existing), order[|order| - 1];
      if (k in ids) == existing then before + [k] else before
  }

  lemma {:induction false} SelectedAre(order: seq<Key>, ids: map<Key, Id>, existing: bool)
    requires Distinct(order)
    ensures Distinct(Selected(order, ids, existing))
    ensures forall k :: k in Selected(order, ids, existing) <==> k in order && (k in ids) == existing
  {
    if order != [] {
      SelectedAre(order[..|order| - 1], ids, existing);
      assert order == order[..|order| - 1] + [order[|order| - 1]];
    }
  }

  function Inserts(keys: seq<Key>, last: map<Key, Row>, cols: set<Column>): (rows: seq<Row>)
    requires forall k :: k in keys ==> k in last
    ensures |rows| == |keys|
  {
    seq(|keys|, i requires 0 <= i < |keys| => Project(last[keys[i]], cols))
  }

  function Updates(keys: seq<Key>, last: map<Key, Row>, ids: map<Key, Id>, cols: set<Column>): (updates: seq<Update>)
    requires forall k :: k in keys ==> k in last && k in ids
    ensures |updates| == |keys|
  {
    seq(|keys|, i requires 0 <= i < |keys| => Update(ids[keys[i]], Project(last[keys[i]], cols)))
  }

  /** The keys of the rows in the order of their first row, and the last row of each. */
  method Dedupe(spec: KeySpec, rows: seq<Row>) returns (order: seq<Key>, last: map<Key, Row>)
    ensures last == LastRows(spec, rows)
    ensures Distinct(order) && Elements(order) == KeySet(spec, rows)
  {
    order, last := [], map[];
    for i := 0 to |rows|
      invariant last == LastRows(spec, rows[..i])
      invariant Distinct(order) && Elements(order) == last.Keys
    {
      assert rows[..i + 1][..i] == rows[..i];
      var k := KeyOf(spec, rows[i]);
      if k !in last {
        assert k !in Elements(order);
        assert Elements(order + [k]) == Elements(order) + {k};
        order := order + [k];
      }
      last := last[k := rows[i]];
    }
    assert rows[..|rows|] == rows;
    LastRowsKeys(spec, rows);
  }

  // ----- The inserts -----

  ghost predicate DistinctKeys(spec: KeySpec, rows: seq<Row>) {
    forall i, j :: 0 <= i < j < |rows| ==> KeyOf(spec, rows[i]) != KeyOf(spec, rows[j])
  }

  lemma InsertKeys(spec: KeySpec, keys: seq<Key>, last: map<Key, Row>, cols: set<Column>)
    requires KeyColumnsIn(spec, cols) && Distinct(keys)
    requires forall k :: k in keys ==> k in last && KeyOf(spec, last[k]) == k
    ensures DistinctKeys(spec, Inserts(keys, last, cols))
    ensures forall i :: 0 <= i < |keys| ==> KeyOf(spec, Inserts(keys, last, cols)[i]) == keys[i]
  {
    forall i | 0 <= i < |keys| ensures KeyOf(spec, Inserts(keys, last, cols)[i]) == keys[i] {
      assert keys[i] in keys;
      ProjectKeepsKey(spec, last[keys[i]], cols);
    }
  }

  lemma InsertedUnique(spec: KeySpec, rows: seq<Stored>, next: Id, added: seq<Row>)
    requires Sound(spec, rows, next) && DistinctKeys(spec, added)
    requires forall p :: p in added ==> KeyOf(spec, p) !in LiveKeys(spec, rows)
    ensures Sound(spec, rows + Inserted(next, added), next + |added|)
  {
    var all := rows + Inserted(next, added);
    forall i, j | 0 <= i < j < |all|
      ensures KeyOf(spec, all[i].row) != KeyOf(spec, all[j].row) && all[i].id != all[j].id
    {
      if j < |rows| {
        assert all[i] == rows[i] && all[j] == rows[j];
      } else {
        assert all[j].row == added[j - |rows|] && added[j - |rows|] in added;
        if i < |rows| {
          assert all[i] == rows[i] && KeyOf(spec, rows[i].row) in LiveKeys(spec, rows);
        }
      }
    }
  }

  /** Inserts the added rows, a chunk at a time; the unique index refuses none of them. */
  method InsertAll(t: Table, added: seq<Row>) returns (n: nat)
    requires t.Valid() && DistinctKeys(t.spec, added)
    requires forall p :: p in added ==> KeyOf(t.spec, p) !in LiveKeys(t.spec, t.rows)
    modifies t
    ensures t.Valid() && n == |added|
    ensures t.rows == old(t.rows) + Inserted(old(t.next), added)
  {
    n := 0;
    var i := 0;
    assert old(t.rows) + Inserted(t.next, added[..0]) == t.rows;
    while i < |added|
      invariant i <= |added| && n == i
      invariant t.next == old(t.next) + i && t.rows == old(t.rows) + Inserted(old(t.next), added[..i])
    {
      var end := if i + BATCH < |added| then i + BATCH else |added|;
      var chunk := added[i..end];
      assert added[..end] == added[..i] + chunk;
      InsertedJoin(old(t.next), added[..i], chunk);
      InsertedUnique(t.spec, old(t.rows), old(t.next), added[..end]);
      assert t.rows + Inserted(t.next, chunk) == old(t.rows) + Inserted(old(t.next), added[..end]);
      var ok := t.Insert(chunk);
      n := n + |chunk|;
      i := end;
    }
    assert added[..|added|] == added;
    InsertedUnique(t.spec, old(t.rows), old(t.next), added);
  }

  // ----- The updates -----

  ghost predicate DistinctIds(updates: seq<Update>) {
    forall i, j :: 0 <= i < j < |updates| ==> updates[i].id != updates[j].id
  }

  /** The update writes the projection of a row with the key of the row it names. */
  ghost predicate KeepsKey(spec: KeySpec, cols: set<Column>, rows: seq<Stored>, u: Update) {
    && (exists st :: st in rows && st.id == u.id)
    && exists r: Row :: u.payload == Project(r, cols) && forall st :: st in rows && st.id == u.id ==> KeyOf(spec, st.row) == KeyOf(spec, r)
  }

  /** The rows after some of the updates: each named row has its update's columns, the others are
      as before. */
  ghost predicate Landing(spec: KeySpec, before: seq<Stored>, after: seq<Stored>, updates: seq<Update>) {
    && |after| == |before|
    && forall i :: 0 <= i < |before| ==> RowLanded(spec, before[i], after[i], updates)
  }

  ghost predicate RowLanded(spec: KeySpec, before: Stored, after: Stored, updates: seq<Update>) {
    && after.id == before.id && KeyOf(spec, after.row) == KeyOf(spec, before.row)
    && ((forall u :: u in updates ==> u.id != before.id) ==> after == before)
    && (forall u :: u in updates && u.id == before.id ==> LandedBy(before.row, u.payload, after.row))
  }

  ghost predicate LandedBy(before: Row, payload: Row, after: Row) {
    exists nulled: set<Column> :: after == Landed(before, payload, nulled)
  }

  lemma OneUpdatePerRow(done: seq<Update>, chunk: seq<Update>, u: Update)
    requires DistinctIds(done + chunk) && u in chunk
    ensures forall v :: v in done ==> v.id != u.id
    ensures forall v :: v in done + chunk && v.id == u.id ==> v == u
  {
    var all := done + chunk;
    var j :| 0 <= j < |chunk| && chunk[j] == u;
    assert all[|done| + j] == u;
    forall v | v in done ensures v.id != u.id {
      var i :| 0 <= i < |done| && done[i] == v;
      assert all[i] == v;
    }
    forall v | v in all && v.id == u.id ensures v == u {
      var i :| 0 <= i < |all| && all[i] == v;
    }
  }

  lemma RowUpdated(spec: KeySpec, cols: set<Column>, rows: seq<Stored>, before: Stored, now: Stored,
                   done: seq<Update>, chunk: seq<Update>, nulled: set<Column>)
    requires KeyColumnsIn(spec, cols) && before in rows && RowLanded(spec, before, now, done)
    requires DistinctIds(done + chunk)
    requires forall u :: u in chunk ==> KeepsKey(spec, cols, rows, u)
    ensures RowLanded(spec, before, Updated(now, chunk, nulled), done + chunk)
  {
    UpdatedIs(now, chunk, nulled);
    var after := Updated(now, chunk, nulled);
    if exists u :: u in chunk && u.id == before.id {
      var u :| u in chunk && u.id == now.id && after.row == Landed(now.row, u.payload, nulled);
      OneUpdatePerRow(done, chunk, u);
      assert KeepsKey(spec, cols, rows, u);
      var r :| u.payload == Project(r, cols) && forall st :: st in rows && st.id == u.id ==> KeyOf(spec, st.row) == KeyOf(spec, r);
      LandedKeepsKey(spec, before.row, r, cols, nulled);
      assert LandedBy(before.row, u.payload, after.row);
    } else {
      assert after == now;
      assert forall v :: v in done + chunk ==> v in done || v in chunk;
    }
  }

  lemma ChunkLands(spec: KeySpec, cols: set<Column>, before: seq<Stored>, now: seq<Stored>, next: Id,
                   done: seq<Update>, chunk: seq<Update>, nulled: set<Column>)
    requires KeyColumnsIn(spec, cols) && Sound(spec, before, next) && Landing(spec, before, now, done)
    requires DistinctIds(done + chunk)
    requires forall u :: u in chunk ==> KeepsKey(spec, cols, before, u)
    ensures Landing(spec, before, AllUpdated(now, chunk, nulled), done + chunk)
    ensures Sound(spec, AllUpdated(now, chunk, nulled), next)
    ensures forall i, j :: 0 <= i < j < |chunk| ==> chunk[i].id != chunk[j].id
    ensures forall u :: u in chunk ==> exists st :: st in now && st.id == u.id
  {
    var after := AllUpdated(now, chunk, nulled);
    forall i | 0 <= i < |before| ensures RowLanded(spec, before[i], after[i], done + chunk) {
      RowUpdated(spec, cols, before, before[i], now[i], done, chunk, nulled);
    }
    LandingKeepsSound(spec, before, after, next, done + chunk);
    forall i, j | 0 <= i < j < |chunk| ensures chunk[i].id != chunk[j].id {
      assert (done + chunk)[|done| + i] == chunk[i] && (done + chunk)[|done| + j] == chunk[j];
    }
    forall u | u in chunk ensures exists st :: st in now && st.id == u.id {
      assert KeepsKey(spec, cols, before, u);
      var st :| st in before && st.id == u.id;
      var i :| 0 <= i < |before| && before[i] == st;
      assert now[i] in now && RowLanded(spec, before[i], now[i], done);
    }
  }

  lemma LandingKeepsSound(spec: KeySpec, before: seq<Stored>, after: seq<Stored>, next: Id, updates: seq<Update>)
    requires Sound(spec, before, next) && Landing(spec, before, after, updates)
    ensures Sound(spec, after, next)
  {
    forall i, j | 0 <= i < j < |after|
      ensures KeyOf(spec, after[i].row) != KeyOf(spec, after[j].row) && after[i].id != after[j].id
    {
      assert RowLanded(spec, before[i], after[i], updates) && RowLanded(spec, before[j], after[j], updates);
    }
    forall i | 0 <= i < |after| ensures after[i].id < next {
      assert RowLanded(spec, before[i], after[i], updates);
    }
  }

  /** Updates the existing rows, a chunk at a time; the table refuses none of them. */
  method UpdateAll(t: Table, updates: seq<Update>, ghost cols: set<Column>) returns (n: nat)
    requires t.Valid() && KeyColumnsIn(t.spec, cols) && DistinctIds(updates)
    requires forall u :: u in updates ==> KeepsKey(t.spec, cols, t.rows, u)
    modifies t`rows
    ensures t.Valid() && n == |updates|
    ensures Landing(t.spec, old(t.rows), t.rows, updates)
  {
    n := 0;
    var i := 0;
    ghost var before := t.rows;
    while i < |updates|
      invariant i <= |updates| && n == i
      invariant t.Valid() && Landing(t.spec, before, t.rows, updates[..i])
    {
      var end := if i + BATCH < |updates| then i + BATCH else |updates|;
      var chunk := updates[i..end];
      assert updates[..end] == updates[..i] + chunk;
      ChunkLands(t.spec, cols, before, t.rows, t.next, updates[..i], chunk, t.nulls(Columns(chunk)));
      var ok := t.UpsertById(chunk);
      n := n + |chunk|;
      i := end;
    }
    assert updates[..|updates|] == updates;
  }

  // ----- The upsert -----

  /** What an upsert of the bundle's rows leaves: one row per live or bundle key; the rows of
      other keys untouched; every bundle key with the written columns of its last row, under its
      old id if it had one. */
  ghost predicate Upserted(spec: KeySpec, cols: set<Column>, before: seq<Stored>, after: seq<Stored>, bundle: seq<Row>) {
    var last := LastRows(spec, bundle);
    && UniqueKeys(spec, after)
    && LiveKeys(spec, after) == LiveKeys(spec, before) + KeySet(spec, bundle)
    && (forall st :: st in before && KeyOf(spec, st.row) !in last ==> st in after)
    && (forall st :: st in after ==>
          var k := KeyOf(spec, st.row);
          if k in last then Written(spec, before, st, Project(last[k], cols)) else st in before)
  }

  /** The row is the payload itself, or a row of the same key and id with the payload landed. */
  ghost predicate Written(spec: KeySpec, before: seq<Stored>, st: Stored, payload: Row) {
    if KeyOf(spec, st.row) in LiveKeys(spec, before) then
      exists b :: b in before && b.id == st.id && KeyOf(spec, b.row) == KeyOf(spec, st.row) && LandedBy(b.row, payload, st.row)
    else st.row == payload
  }

  /** Which updates and which rows an upsert plans from a table and a deduplicated bundle. */
  ghost predicate Planned(spec: KeySpec, cols: set<Column>, rows: seq<Stored>, last: map<Key, Row>, added: seq<Row>, upd: seq<Update>) {
    && DistinctKeys(spec, added) && DistinctIds(upd)
    && (forall p :: p in added ==> KeyOf(spec, p) in last && KeyOf(spec, p) !in LiveKeys(spec, rows) && p == Project(last[KeyOf(spec, p)], cols))
    && (forall k :: k in last && k !in LiveKeys(spec, rows) ==> Project(last[k], cols) in added)
    && (forall u :: u in upd ==> UpdateOf(spec, cols, rows, last, u))
    && (forall st :: st in rows && KeyOf(spec, st.row) in last ==> Update(st.id, Project(last[KeyOf(spec, st.row)], cols)) in upd)
  }

  ghost predicate UpdateOf(spec: KeySpec, cols: set<Column>, rows: seq<Stored>, last: map<Key, Row>, u: Update) {
    exists st :: st in rows && st.id == u.id && KeyOf(spec, st.row) in last && u.payload == Project(last[KeyOf(spec, st.row)], cols)
  }

  lemma SameIdSameRow(rows: seq<Stored>, next: Id, a: Stored, b: Stored)
    requires UniqueIds(rows, next) && a in rows && b in rows && a.id == b.id
    ensures a == b
  {
  }

  lemma PlanOf(spec: KeySpec, cols: set<Column>, rows: seq<Stored>, next: Id, order: seq<Key>, last: map<Key, Row>)
    requires KeyColumnsIn(spec, cols) && Sound(spec, rows, next)
    requires Distinct(order) && (forall k :: k in order <==> k in last) && (forall k :: k in last ==> KeyOf(spec, last[k]) == k)
    ensures var ids := IdsByKey(spec, rows);
            var absent, known := Selected(order, ids, false), Selected(order, ids, true);
            && (forall k :: k in absent ==> k in last) && (forall k :: k in known ==> k in last && k in ids)
            && Planned(spec, cols, rows, last, Inserts(absent, last, cols), Updates(known, last, ids, cols))
            && |absent| + |known| == |order|
  {
    var ids := IdsByKey(spec, rows);
    IdsByKeyIs(spec, rows);
    SelectedAre(order, ids, false);
    SelectedAre(order, ids, true);
    SelectedCount(order, ids);
    PlanInserts(spec, cols, rows, last, Selected(order, ids, false));
    PlanUpdates(spec, cols, rows, next, last, Selected(order, ids, true));
  }

  lemma {:induction false} SelectedCount(order: seq<Key>, ids: map<Key, Id>)
    ensures |Selected(order, ids, false)| + |Selected(order, ids, true)| == |order|
  {
    if order != [] {
      SelectedCount(order[..|order| - 1], ids);
    }
  }

  lemma PlanInserts(spec: KeySpec, cols: set<Column>, rows: seq<Stored>, last: map<Key, Row>, keys: seq<Key>)
    requires KeyColumnsIn(spec, cols) && Distinct(keys)
    requires forall k :: k in keys <==> k in last && k !in LiveKeys(spec, rows)
    requires forall k :: k in last ==> KeyOf(spec, last[k]) == k
    ensures var added := Inserts(keys, last, cols);
            && DistinctKeys(spec, added)
            && (forall p :: p in added ==> KeyOf(spec, p) in last && KeyOf(spec, p) !in LiveKeys(spec, rows) && p == Project(last[KeyOf(spec, p)], cols))
            && (forall k :: k in last && k !in LiveKeys(spec, rows) ==> Project(last[k], cols) in added)
  {
    InsertKeys(spec, keys, last, cols);
    var added := Inserts(keys, last, cols);
    forall k | k in last && k !in LiveKeys(spec, rows) ensures Project(last[k], cols) in added {
      var i :| 0 <= i < |keys| && keys[i] == k;
      assert added[i] == Project(last[k], cols);
    }
  }

  lemma PlanUpdates(spec: KeySpec, cols: set<Column>, rows: seq<Stored>, next: Id, last: map<Key, Row>, keys: seq<Key>)
    requires Sound(spec, rows, next) && Distinct(keys)
    requires forall k :: k in keys <==> k in last && k in IdsByKey(spec, rows)
    ensures var upd := Updates(keys, last, IdsByKey(spec, rows), cols);
            && DistinctIds(upd)
            && (forall u :: u in upd ==> UpdateOf(spec, cols, rows, last, u))
            && (forall st :: st in rows && KeyOf(spec, st.row) in last ==> Update(st.id, Project(last[KeyOf(spec, st.row)], cols)) in upd)
  {
    var ids := IdsByKey(spec, rows);
    var upd := Updates(keys, last, ids, cols);
    IdsByKeyIs(spec, rows);
    forall i, j | 0 <= i < j < |upd| ensures upd[i].id != upd[j].id {
      assert keys[i] in keys && keys[j] in keys;
      var a :| a in rows && KeyOf(spec, a.row) == keys[i] && a.id == ids[keys[i]];
      var b :| b in rows && KeyOf(spec, b.row) == keys[j] && b.id == ids[keys[j]];
      if a.id == b.id {
        SameIdSameRow(rows, next, a, b);
      }
    }
    forall u | u in upd ensures UpdateOf(spec, cols, rows, last, u) {
      var i :| 0 <= i < |upd| && upd[i] == u;
      assert keys[i] in keys;
    }
    forall st | st in rows && KeyOf(spec, st.row) in last
      ensures Update(st.id, Project(last[KeyOf(spec, st.row)], cols)) in upd
    {
      var i :| 0 <= i < |keys| && keys[i] == KeyOf(spec, st.row);
      assert upd[i] == Update(st.id, Project(last[KeyOf(spec, st.row)], cols));
    }
  }

  lemma PlanKeepsKeys(spec: KeySpec, cols: set<Column>, rows: seq<Stored>, next: Id, bundle: seq<Row>, added: seq<Row>, upd: seq<Update>)
    requires Sound(spec, rows, next) && Planned(spec, cols, rows, LastRows(spec, bundle), added, upd)
    ensures var mid := rows + Inserted(next, added);
            && Sound(spec, mid, next + |added|)
            && forall u :: u in upd ==> KeepsKey(spec, cols, mid, u)
  {
    var mid := rows + Inserted(next, added);
    var last := LastRows(spec, bundle);
    LastRowsKeys(spec, bundle);
    InsertedUnique(spec, rows, next, added);
    forall u | u in upd ensures KeepsKey(spec, cols, mid, u) {
      assert UpdateOf(spec, cols, rows, last, u);
      var st :| st in rows && st.id == u.id && KeyOf(spec, st.row) in last && u.payload == Project(last[KeyOf(spec, st.row)], cols);
      assert st in mid;
      var r := last[KeyOf(spec, st.row)];
      forall x | x in mid && x.id == u.id ensures KeyOf(spec, x.row) == KeyOf(spec, r) {
        SameIdSameRow(mid, next + |added|, x, st);
      }
    }
  }

  /** Where a row of the table after the inserts comes from. */
  lemma MidRows(spec: KeySpec, rows: seq<Stored>, next: Id, added: seq<Row>, st: Stored)
    requires st in rows + Inserted(next, added)
    ensures st in rows || (st.row in added && st.id >= next)
  {
    var mid := rows + Inserted(next, added);
    var i :| 0 <= i < |mid| && mid[i] == st;
    if i >= |rows| {
      assert added[i - |rows|] == st.row;
    }
  }

  /** One row of the outcome, from the row it was before the updates. */
  lemma RowOutcome(spec: KeySpec, cols: set<Column>, rows: seq<Stored>, next: Id, last: map<Key, Row>, added: seq<Row>,
                   upd: seq<Update>, was: Stored, st: Stored)
    requires Sound(spec, rows, next) && Planned(spec, cols, rows, last, added, upd)
    requires was in rows + Inserted(next, added) && RowLanded(spec, was, st, upd)
    ensures var k := KeyOf(spec, st.row);
            && k == KeyOf(spec, was.row)
            && (if k in last then Written(spec, rows, st, Project(last[k], cols)) else st == was && was in rows)
  {
    var k := KeyOf(spec, was.row);
    MidRows(spec, rows, next, added, was);
    if was in rows && k in last {
      var u := Update(was.id, Project(last[k], cols));
      assert u in upd;
      assert LandedBy(was.row, u.payload, st.row);
    } else {
      forall u | u in upd ensures u.id != was.id {
        assert UpdateOf(spec, cols, rows, last, u);
        var x :| x in rows && x.id == u.id && KeyOf(spec, x.row) in last;
        if x.id == was.id && was in rows {
          SameIdSameRow(rows, next, x, was);
        }
      }
      assert st == was;
    }
  }

  lemma RowsAfter(spec: KeySpec, cols: set<Column>, rows: seq<Stored>, next: Id, last: map<Key, Row>, added: seq<Row>,
                  upd: seq<Update>, after: seq<Stored>, st: Stored)
    requires Sound(spec, rows, next) && Planned(spec, cols, rows, last, added, upd)
    requires Landing(spec, rows + Inserted(next, added), after, upd) && st in after
    ensures var k := KeyOf(spec, st.row);
            && (if k in last then Written(spec, rows, st, Project(last[k], cols)) else st in rows)
            && (k in last || k in LiveKeys(spec, rows))
  {
    var mid := rows + Inserted(next, added);
    var i :| 0 <= i < |after| && after[i] == st;
    assert RowLanded(spec, mid[i], after[i], upd) && mid[i] in mid;
    RowOutcome(spec, cols, rows, next, last, added, upd, mid[i], st);
  }

  lemma RowsBefore(spec: KeySpec, cols: set<Column>, rows: seq<Stored>, next: Id, last: map<Key, Row>, added: seq<Row>,
                   upd: seq<Update>, after: seq<Stored>, st: Stored)
    requires Sound(spec, rows, next) && Planned(spec, cols, rows, last, added, upd)
    requires Landing(spec, rows + Inserted(next, added), after, upd) && st in rows
    ensures KeyOf(spec, st.row) in LiveKeys(spec, after) && (KeyOf(spec, st.row) !in last ==> st in after)
  {
    var mid := rows + Inserted(next, added);
    var i :| 0 <= i < |rows| && rows[i] == st;
    assert mid[i] == st && mid[i] in mid && RowLanded(spec, mid[i], after[i], upd);
    RowOutcome(spec, cols, rows, next, last, added, upd, mid[i], after[i]);
    assert after[i] in after;
  }

  lemma KeysAfter(spec: KeySpec, cols: set<Column>, rows: seq<Stored>, next: Id, last: map<Key, Row>, added: seq<Row>,
                  upd: seq<Update>, after: seq<Stored>, k: Key)
    requires Sound(spec, rows, next) && Planned(spec, cols, rows, last, added, upd)
    requires Landing(spec, rows + Inserted(next, added), after, upd)
    requires KeyColumnsIn(spec, cols) && k in last && KeyOf(spec, last[k]) == k
    ensures k in LiveKeys(spec, after)
  {
    if k in LiveKeys(spec, rows) {
      var st :| st in rows && KeyOf(spec, st.row) == k;
      RowsBefore(spec, cols, rows, next, last, added, upd, after, st);
    } else {
      var j :| 0 <= j < |added| && added[j] == Project(last[k], cols);
      ProjectKeepsKey(spec, last[k], cols);
      NewKeyLives(spec, cols, rows, next, last, added, upd, after, j);
    }
  }

  lemma PlanLands(spec: KeySpec, cols: set<Column>, rows: seq<Stored>, next: Id, bundle: seq<Row>, added: seq<Row>,
                  upd: seq<Update>, after: seq<Stored>)
    requires KeyColumnsIn(spec, cols)
    requires Sound(spec, rows, next) && Planned(spec, cols, rows, LastRows(spec, bundle), added, upd)
    requires Landing(spec, rows + Inserted(next, added), after, upd) && UniqueKeys(spec, after)
    ensures Upserted(spec, cols, rows, after, bundle)
  {
    var last := LastRows(spec, bundle);
    LastRowsKeys(spec, bundle);
    forall st | st in after
      ensures var k := KeyOf(spec, st.row);
              && (if k in last then Written(spec, rows, st, Project(last[k], cols)) else st in rows)
              && (k in last || k in LiveKeys(spec, rows))
    {
      RowsAfter(spec, cols, rows, next, last, added, upd, after, st);
    }
    forall st | st in rows
      ensures KeyOf(spec, st.row) in LiveKeys(spec, after) && (KeyOf(spec, st.row) !in last ==> st in after)
    {
      RowsBefore(spec, cols, rows, next, last, added, upd, after, st);
    }
    forall k | k in last ensures k in LiveKeys(spec, after) {
      KeysAfter(spec, cols, rows, next, last, added, upd, after, k);
    }
    assert LiveKeys(spec, after) == LiveKeys(spec, rows) + KeySet(spec, bundle);
  }

  lemma NewKeyLives(spec: KeySpec, cols: set<Column>, rows: seq<Stored>, next: Id, last: map<Key, Row>, added: seq<Row>,
                    upd: seq<Update>, after: seq<Stored>, j: nat)
    requires Landing(spec, rows + Inserted(next, added), after, upd) && j < |added|
    ensures KeyOf(spec, added[j]) in LiveKeys(spec, after)
  {
    var mid := rows + Inserted(next, added);
    assert RowLanded(spec, mid[|rows| + j], after[|rows| + j], upd);
    assert after[|rows| + j] in after;
  }

  /** Upserts the rows by natural key. Neither the unique index nor the update by id refuses any
      of it, and the counters count the distinct keys. */
  method BatchUpsert(t: Table, bundle: seq<Row>, cols: set<Column>) returns (stats: Stats)
    requires t.Valid() && KeyColumnsIn(t.spec, cols)
    modifies t
    ensures t.Valid()
    ensures Upserted(t.spec, cols, old(t.rows), t.rows, bundle)
    ensures stats.inserted == |KeySet(t.spec, bundle) - LiveKeys(t.spec, old(t.rows))|
    ensures stats.inserted + stats.updated == |KeySet(t.spec, bundle)|
  {
    ghost var rows0, next0 := t.rows, t.next;
    var existing := FetchAll(t);
    var ids := IdsByKey(t.spec, existing);
    var order, last := Dedupe(t.spec, bundle);
    LastRowsKeys(t.spec, bundle);
    OrderIsKeys(order, last);
    PlanOf(t.spec, cols, rows0, next0, order, last);
    var added, upd := Split(order, last, ids, cols);
    CountAdded(t.spec, rows0, bundle, order, last);
    PlanKeepsKeys(t.spec, cols, rows0, next0, bundle, added, upd);
    var n := InsertAll(t, added);
    var m := UpdateAll(t, upd, cols);
    PlanLands(t.spec, cols, rows0, next0, bundle, added, upd, t.rows);
    stats := Stats(n, m);
  }

  lemma OrderIsKeys(order: seq<Key>, last: map<Key, Row>)
    requires Distinct(order) && Elements(order) == last.Keys
    ensures forall k :: k in order <==> k in last
    ensures |order| == |last.Keys|
  {
    DistinctSize(order);
    forall k ensures k in order <==> k in last {
      assert k in order <==> k in Elements(order);
    }
  }

  lemma CountAdded(spec: KeySpec, rows: seq<Stored>, bundle: seq<Row>, order: seq<Key>, last: map<Key, Row>)
    requires UniqueKeys(spec, rows) && Distinct(order) && last.Keys == KeySet(spec, bundle)
    requires forall k :: k in order <==> k in last
    ensures |Selected(order, IdsByKey(spec, rows), false)| == |KeySet(spec, bundle) - LiveKeys(spec, rows)|
  {
    var ids := IdsByKey(spec, rows);
    IdsByKeyIs(spec, rows);
    SelectedAre(order, ids, false);
    var absent := Selected(order, ids, false);
    DistinctSize(absent);
    assert Elements(absent) == KeySet(spec, bundle) - LiveKeys(spec, rows);
  }

  /** Splits the deduplicated rows into inserts and updates. */
  method Split(order: seq<Key>, last: map<Key, Row>, ids: map<Key, Id>, cols: set<Column>) returns (added: seq<Row>, upd: seq<Update>)
    requires Distinct(order) && forall k :: k in order ==> k in last
    ensures var absent, known := Selected(order, ids, false), Selected(order, ids, true);
            && (forall k :: k in absent ==> k in last) && (forall k :: k in known ==> k in last && k in ids)
            && added == Inserts(absent, last, cols) && upd == Updates(known, last, ids, cols)
  {
    added, upd := [], [];
    ghost var absent, known: seq<Key> := [], [];
    for i := 0 to |order|
      invariant absent == Selected(order[..i], ids, false) && known == Selected(order[..i], ids, true)
      invariant (forall k :: k in absent ==> k in last) && (forall k :: k in known ==> k in last && k in ids)
      invariant added == Inserts(absent, last, cols) && upd == Updates(known, last, ids, cols)
    {
      var k := order[i];
      assert order[..i + 1][..i] == order[..i];
      assert k in order;
      var payload := Project(last[k], cols);
      if k in ids {
        upd := upd + [Update(ids[k], payload)];
        known := known + [k];
      } else {
        added := added + [payload];
        absent := absent + [k];
      }
    }
    assert order[..|order|] == order;
  }

  // ----- Rows that the table takes for the same -----

  /** A bundle row that differs in its key columns from a live row only in how it leaves them empty
      is not inserted: the live row is updated, under its id, with the columns of the last such row
      of the bundle, and stays the only one of its kind. */
  lemma SameButNothingIsUpdated(spec: KeySpec, cols: set<Column>, before: seq<Stored>, after: seq<Stored>, bundle: seq<Row>,
                                live: Stored, r: Row) returns (st: Stored, last: Row)
    requires Upserted(spec, cols, before, after, bundle) && UniqueKeys(spec, before)
    requires live in before && r in bundle && SameButNothing(spec, r, live.row)
    ensures KeyOf(spec, r) !in KeySet(spec, bundle) - LiveKeys(spec, before)
    ensures last in bundle && SameButNothing(spec, last, live.row)
    ensures st in after && st.id == live.id && LandedBy(live.row, Project(last, cols), st.row)
    ensures forall x :: x in after && SameButNothing(spec, x.row, live.row) ==> x == st
  {
    var k := KeyOf(spec, live.row);
    SameKey(spec, r, live.row);
    assert k in KeySet(spec, bundle) && k in LiveKeys(spec, before);
    LastRowsKeys(spec, bundle);
    last := LastRows(spec, bundle)[k];
    SameKey(spec, last, live.row);
    assert k in LiveKeys(spec, after);
    st :| st in after && KeyOf(spec, st.row) == k;
    assert Written(spec, before, st, Project(last, cols));
    var b :| b in before && b.id == st.id && KeyOf(spec, b.row) == k && LandedBy(b.row, Project(last, cols), st.row);
    OneOfKey(spec, before, b, live);
    forall x | x in after && SameButNothing(spec, x.row, live.row) ensures x == st {
      SameKey(spec, x.row, live.row);
      OneOfKey(spec, after, x, st);
    }
  }

  lemma OneOfKey(spec: KeySpec, rows: seq<Stored>, a: Stored, b: Stored)
    requires UniqueKeys(spec, rows) && a in rows && b in rows && KeyOf(spec, a.row) == KeyOf(spec, b.row)
    ensures a == b
  {
    var i :| 0 <= i < |rows| && rows[i] == a;
    var j :| 0 <= j < |rows| && rows[j] == b;
    assert i == j;
  }

  lemma EmptyEngineIsNone(r: Row)
    requires Get(r, "engine_code") == Null
    ensures KeyOf(VEHICLE_KEY, r["engine_code" := Str("")]) == KeyOf(VEHICLE_KEY, r)
  {
    SameVehicle(r["engine_code" := Str("")], r);
  }

  lemma VehicleColumns()
    ensures KeyColumnsIn(VEHICLE_KEY, VEHICLE_COLS)
  {
  }

  lemma OneKnownKey(spec: KeySpec, rows: seq<Stored>, r: Row)
    requires KeyOf(spec, r) in LiveKeys(spec, rows)
    ensures |KeySet(spec, [r])| == 1 && |KeySet(spec, [r]) - LiveKeys(spec, rows)| == 0
    ensures LiveKeys(spec, rows) + KeySet(spec, [r]) == LiveKeys(spec, rows)
  {
    assert KeySet(spec, [r]) == {KeyOf(spec, r)};
    assert KeySet(spec, [r]) - LiveKeys(spec, rows) == {};
  }

  /** A vehicle imported without an engine code, and again with an empty one, is one vehicle. */
  method ImportEmptyEngine(t: Table, r: Row) returns (stats: Stats)
    requires t.Valid() && t.spec == VEHICLE_KEY && KeyOf(t.spec, r) in LiveKeys(t.spec, t.rows)
    requires Get(r, "engine_code") == Null
    modifies t
    ensures t.Valid() && stats == Stats(0, 1)
    ensures LiveKeys(t.spec, t.rows) == LiveKeys(t.spec, old(t.rows))
  {
    EmptyEngineIsNone(r);
    OneKnownKey(t.spec, t.rows, r["engine_code" := Str("")]);
    VehicleColumns();
    stats := BatchUpsert(t, [r["engine_code" := Str("")]], VEHICLE_COLS);
  }

  // ----- Importing the same bundle again -----

  lemma LandedTwice(before: Row, payload: Row, first: set<Column>, second: set<Column>)
    ensures Landed(Landed(before, payload, first), payload, second) == Landed(before, payload, first + second)
    ensures Landed(payload, payload, second) == payload
  {
  }

  lemma LandedByTwice(before: Row, payload: Row, mid: Row, after: Row)
    requires LandedBy(mid, payload, after)
    ensures LandedBy(before, payload, mid) ==> LandedBy(before, payload, after)
    ensures mid == payload ==> after == payload
  {
    var second :| after == Landed(mid, payload, second);
    LandedTwice(before, payload, {}, second);
    if LandedBy(before, payload, mid) {
      var first :| mid == Landed(before, payload, first);
      LandedTwice(before, payload, first, second);
    }
  }

  /** A row written before, and written once more with the same payload. */
  lemma WrittenAgain(spec: KeySpec, before: seq<Stored>, m: Stored, st: Stored, payload: Row)
    requires Written(spec, before, m, payload) && LandedBy(m.row, payload, st.row)
    requires m.id == st.id && KeyOf(spec, m.row) == KeyOf(spec, st.row)
    ensures Written(spec, before, st, payload)
  {
    if KeyOf(spec, st.row) in LiveKeys(spec, before) {
      var b :| b in before && b.id == m.id && KeyOf(spec, b.row) == KeyOf(spec, m.row) && LandedBy(b.row, payload, m.row);
      LandedByTwice(b.row, payload, m.row, st.row);
    } else {
      LandedByTwice(payload, payload, m.row, st.row);
    }
  }

  lemma WrittenTwice(spec: KeySpec, cols: set<Column>, before: seq<Stored>, mid: seq<Stored>, after: seq<Stored>, bundle: seq<Row>, st: Stored)
    requires Upserted(spec, cols, before, mid, bundle) && Upserted(spec, cols, mid, after, bundle)
    requires st in after && KeyOf(spec, st.row) in LastRows(spec, bundle)
    ensures Written(spec, before, st, Project(LastRows(spec, bundle)[KeyOf(spec, st.row)], cols))
  {
    var k := KeyOf(spec, st.row);
    var payload := Project(LastRows(spec, bundle)[k], cols);
    LastRowsKeys(spec, bundle);
    assert k in LiveKeys(spec, mid) && Written(spec, mid, st, payload);
    var m :| m in mid && m.id == st.id && KeyOf(spec, m.row) == k && LandedBy(m.row, payload, st.row);
    WrittenAgain(spec, before, m, st, payload);
  }

  /** Two imports of a bundle leave what one could leave. */
  lemma UpsertedTwice(spec: KeySpec, cols: set<Column>, before: seq<Stored>, mid: seq<Stored>, after: seq<Stored>, bundle: seq<Row>)
    requires Upserted(spec, cols, before, mid, bundle) && Upserted(spec, cols, mid, after, bundle)
    ensures Upserted(spec, cols, before, after, bundle)
    ensures KeySet(spec, bundle) - LiveKeys(spec, mid) == {} && LiveKeys(spec, after) == LiveKeys(spec, mid)
  {
    LastRowsKeys(spec, bundle);
    forall st | st in after && KeyOf(spec, st.row) in LastRows(spec, bundle)
      ensures Written(spec, before, st, Project(LastRows(spec, bundle)[KeyOf(spec, st.row)], cols))
    {
      WrittenTwice(spec, cols, before, mid, after, bundle, st);
    }
  }

  /** Imports a bundle twice. The second import inserts nothing and updates every key of the bundle
      once; the two leave the table as one import could. */
  method ImportTwice(t: Table, bundle: seq<Row>, cols: set<Column>) returns (first: Stats, second: Stats)
    requires t.Valid() && KeyColumnsIn(t.spec, cols)
    modifies t
    ensures t.Valid()
    ensures first.inserted == |KeySet(t.spec, bundle) - LiveKeys(t.spec, old(t.rows))|
    ensures second.inserted == 0 && second.updated == |KeySet(t.spec, bundle)|
    ensures Upserted(t.spec, cols, old(t.rows), t.rows, bundle)
  {
    first := BatchUpsert(t, bundle, cols);
    ghost var mid := t.rows;
    second := BatchUpsert(t, bundle, cols);
    UpsertedTwice(t.spec, cols, old(t.rows), mid, t.rows, bundle);
  }

  // ----- Pruning -----

  function StaleIds(spec: KeySpec, rows: seq<Stored>, keep: set<Key>): set<Id> {
    set st | st in rows && KeyOf(spec, st.row) !in keep :: st.id
  }

  /** Deletes the rows, a chunk of ids at a time. */
  method DeleteAll(t: Table, ids: seq<Id>) returns (deleted: nat)
    requires t.Valid()
    modifies t`rows
    ensures t.Valid() && deleted == |ids|
    ensures t.rows == Without(old(t.rows), Elements(ids))
  {
    deleted := 0;
    var i := 0;
    WithoutNone(t.rows);
    assert Elements(ids[..0]) == {};
    while i < |ids|
      invariant i <= |ids| && deleted == i
      invariant t.rows == Without(old(t.rows), Elements(ids[..i]))
    {
      var end := if i + DELETE_BATCH < |ids| then i + DELETE_BATCH else |ids|;
      var chunk := ids[i..end];
      assert ids[..end] == ids[..i] + chunk;
      assert Elements(ids[..end]) == Elements(ids[..i]) + Elements(chunk);
      WithoutTwice(old(t.rows), Elements(ids[..i]), Elements(chunk));
      t.DeleteIn(chunk);
      deleted := deleted + |chunk|;
      i := end;
    }
    assert ids[..|ids|] == ids;
    WithoutKeepsSound(t.spec, old(t.rows), Elements(ids), t.next);
  }

  lemma {:induction false} WithoutNone(rows: seq<Stored>)
    ensures Without(rows, {}) == rows
  {
    if rows != [] {
      WithoutNone(rows[..|rows| - 1]);
    }
  }

  /** Removes the live rows whose key the bundle does not have, and no other. */
  method Prune(t: Table, bundle: seq<Row>) returns (deleted: nat)
    requires t.Valid()
    modifies t`rows
    ensures t.Valid()
    ensures forall st :: st in t.rows <==> st in old(t.rows) && KeyOf(t.spec, st.row) in KeySet(t.spec, bundle)
    ensures LiveKeys(t.spec, t.rows) == LiveKeys(t.spec, old(t.rows)) * KeySet(t.spec, bundle)
  {
    var keep := KeySet(t.spec, bundle);
    var existing := FetchAll(t);
    var stale: seq<Id> := [];
    for i := 0 to |existing|
      invariant Elements(stale) == StaleIds(t.spec, existing[..i], keep)
    {
      assert existing[..i + 1] == existing[..i] + [existing[i]];
      if KeyOf(t.spec, existing[i].row) !in keep {
        assert Elements(stale + [existing[i].id]) == Elements(stale) + {existing[i].id};
        stale := stale + [existing[i].id];
      }
    }
    assert existing[..|existing|] == existing;
    ghost var before := t.rows;
    deleted := DeleteAll(t, stale);
    WithoutIs(before, Elements(stale));
    PrunedRows(t.spec, before, t.next, keep);
  }

  lemma PrunedRows(spec: KeySpec, rows: seq<Stored>, next: Id, keep: set<Key>)
    requires UniqueIds(rows, next)
    ensures forall st :: st in rows ==> (st.id in StaleIds(spec, rows, keep) <==> KeyOf(spec, st.row) !in keep)
  {
    forall st | st in rows && st.id in StaleIds(spec, rows, keep) ensures KeyOf(spec, st.row) !in keep {
      var x :| x in rows && KeyOf(spec, x.row) !in keep && x.id == st.id;
      SameIdSameRow(rows, next, x, st);
    }
  }

  /** Pruning, then upserting (skipped when the bundle has no row), leaves exactly the bundle's keys. */
  method PruneAndUpsert(t: Table, bundle: seq<Row>, cols: set<Column>)
    requires t.Valid() && KeyColumnsIn(t.spec, cols)
    modifies t
    ensures t.Valid() && LiveKeys(t.spec, t.rows) == KeySet(t.spec, bundle)
    ensures forall st :: st in t.rows ==>
              var last := LastRows(t.spec, bundle);
              KeyOf(t.spec, st.row) in last && Writes(st.row, Project(last[KeyOf(t.spec, st.row)], cols))
  {
    var deleted := Prune(t, bundle);
    ghost var rows := t.rows;
    LastRowsKeys(t.spec, bundle);
    if bundle != [] {
      var stats := BatchUpsert(t, bundle, cols);
      WrittenRowsWrite(t.spec, cols, rows, t.rows, bundle);
    }
  }

  ghost predicate Writes(row: Row, payload: Row) {
    forall c :: c in payload ==> c in row && row[c] == payload[c]
  }

  lemma WrittenRowsWrite(spec: KeySpec, cols: set<Column>, before: seq<Stored>, after: seq<Stored>, bundle: seq<Row>)
    requires Upserted(spec, cols, before, after, bundle)
    ensures forall st :: st in after && KeyOf(spec, st.row) in LastRows(spec, bundle) ==>
              Writes(st.row, Project(LastRows(spec, bundle)[KeyOf(spec, st.row)], cols))
  {
  }
}
