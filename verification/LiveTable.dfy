/** A live table with generated ids and a unique index on its normalised key, as its client sees
    it: pages of rows in id order, bulk inserts, bulk updates by id, and deletes. */
module LiveTable {
  import opened Sequences
  import opened CatalogRows

  type Id = nat

  datatype Stored = Stored(id: Id, row: Row)
  datatype Update = Update(id: Id, payload: Row)

  ghost predicate UniqueKeys(spec: KeySpec, rows: seq<Stored>) {
    forall i, j :: 0 <= i < j < |rows| ==> KeyOf(spec, rows[i].row) != KeyOf(spec, rows[j].row)
  }

  ghost predicate UniqueIds(rows: seq<Stored>, next: Id) {
    && (forall i :: 0 <= i < |rows| ==> rows[i].id < next)
    && (forall i, j :: 0 <= i < j < |rows| ==> rows[i].id != rows[j].id)
  }

  ghost predicate Sound(spec: KeySpec, rows: seq<Stored>, next: Id) {
    UniqueKeys(spec, rows) && UniqueIds(rows, next)
  }

  function Inserted(next: Id, payloads: seq<Row>): (s: seq<Stored>)
    ensures |s| == |payloads|
  {
    seq(|payloads|, i requires 0 <= i < |payloads| => Stored(next + i, payloads[i]))
  }

  function Columns(updates: seq<Update>): (written: set<Column>)
    ensures forall u, c :: u in updates && c in u.payload ==> c in written
  {
    set u, c | u in updates && c in u.payload :: c
  }

  function Updated(st: Stored, updates: seq<Update>, nulled: set<Column>): Stored {
    if updates == [] then st
    else
      var u := updates[|updates| - 1];
      if u.id == st.id then Stored(st.id, Landed(st.row, u.payload, nulled))
      else Updated(st, updates[..|updates| - 1], nulled)
  }

  function AllUpdated(rows: seq<Stored>, updates: seq<Update>, nulled: set<Column>): (s: seq<Stored>)
    ensures |s| == |rows|
  {
    seq(|rows|, i requires 0 <= i < |rows| => Updated(rows[i], updates, nulled))
  }

  function Without(rows: seq<Stored>, ids: set<Id>): seq<Stored> {
    if rows == [] then []
    else
      var before := Without(rows[..|rows| - 1], ids);
      if rows[|rows| - 1].id in ids then before else before + [rows[|rows| - 1]]
  }

  class Table {
    const spec: KeySpec
    /** The columns a bulk update sets to null in a row that does not write them, by the columns
        that the rows of the update write. */
    const nulls: set<Column> -> set<Column>
    var rows: seq<Stored>
    var next: Id

    constructor (spec: KeySpec, nulls: set<Column> -> set<Column>)
      ensures this.spec == spec && this.nulls == nulls && rows == [] && Valid()
    {
      this.spec, this.nulls, rows, next := spec, nulls, [], 0;
    }

    ghost predicate Valid()
      reads this
    {
      Sound(spec, rows, next)
    }

    method Page(offset: nat, limit: nat) returns (page: seq<Stored>)
      ensures page == if offset >= |rows| then [] else if offset + limit < |rows| then rows[offset..offset + limit] else rows[offset..]
    {
      if offset >= |rows| {
        page := [];
      } else if offset + limit < |rows| {
        page := rows[offset..offset + limit];
      } else {
        page := rows[offset..];
      }
    }

    /** Fails, and changes nothing, when the unique index refuses the rows. */
    method Insert(payloads: seq<Row>) returns (ok: bool)
      modifies this
      ensures ok <==> UniqueKeys(spec, old(rows) + Inserted(old(next), payloads))
      ensures rows == if ok then old(rows) + Inserted(old(next), payloads) else old(rows)
      ensures next == if ok then old(next) + |payloads| else old(next)
    {
      var all := rows + Inserted(next, payloads);
      ok := forall i, j :: 0 <= i < j < |all| ==> KeyOf(spec, all[i].row) != KeyOf(spec, all[j].row);
      if ok {
        rows, next := all, next + |payloads|;
      }
    }

    /** Fails, and changes nothing, when two updates name one row, one names no row, or the unique
        index refuses the outcome. */
    method UpsertById(updates: seq<Update>) returns (ok: bool)
      modifies this`rows
      ensures ok <==>
                && (forall i, j :: 0 <= i < j < |updates| ==> updates[i].id != updates[j].id)
                && (forall u :: u in updates ==> exists st :: st in old(rows) && st.id == u.id)
                && UniqueKeys(spec, AllUpdated(old(rows), updates, nulls(Columns(updates))))
      ensures rows == if ok then AllUpdated(old(rows), updates, nulls(Columns(updates))) else old(rows)
    {
      var all := AllUpdated(rows, updates, nulls(Columns(updates)));
      ok := && (forall i, j :: 0 <= i < j < |updates| ==> updates[i].id != updates[j].id)
            && (forall u | u in updates :: exists st | st in rows :: st.id == u.id)
            && (forall i, j :: 0 <= i < j < |all| ==> KeyOf(spec, all[i].row) != KeyOf(spec, all[j].row));
      if ok {
        rows := all;
      }
    }

    method DeleteIn(ids: seq<Id>)
      modifies this`rows
      ensures rows == Without(old(rows), Elements(ids))
    {
      rows := Without(rows, Elements(ids));
    }
  }

  // ----- What these operations keep -----

  lemma InsertedJoin(next: Id, a: seq<Row>, b: seq<Row>)
    ensures Inserted(next, a + b) == Inserted(next, a) + Inserted(next + |a|, b)
  {
  }

  lemma {:induction false} UpdatedIs(st: Stored, updates: seq<Update>, nulled: set<Column>)
    ensures Updated(st, updates, nulled).id == st.id
    ensures (forall u :: u in updates ==> u.id != st.id) ==> Updated(st, updates, nulled) == st
    ensures (exists u :: u in updates && u.id == st.id) ==>
              exists u :: u in updates && u.id == st.id && Updated(st, updates, nulled).row == Landed(st.row, u.payload, nulled)
  {
    if updates != [] {
      var init, last := updates[..|updates| - 1], updates[|updates| - 1];
      assert updates == init + [last];
      UpdatedIs(st, init, nulled);
      if last.id == st.id {
        assert last in updates;
      }
    }
  }

  lemma {:induction false} WithoutIs(rows: seq<Stored>, ids: set<Id>)
    ensures forall st :: st in Without(rows, ids) <==> st in rows && st.id !in ids
  {
    if rows != [] {
      WithoutIs(rows[..|rows| - 1], ids);
      assert rows == rows[..|rows| - 1] + [rows[|rows| - 1]];
    }
  }

  lemma LastDiffers(spec: KeySpec, rows: seq<Stored>, next: Id)
    requires Sound(spec, rows, next) && rows != []
    ensures Sound(spec, rows[..|rows| - 1], next)
    ensures forall st :: st in rows[..|rows| - 1] ==>
              KeyOf(spec, st.row) != KeyOf(spec, rows[|rows| - 1].row) && st.id != rows[|rows| - 1].id
  {
  }

  lemma SoundWithOneMore(spec: KeySpec, rows: seq<Stored>, last: Stored, next: Id)
    requires Sound(spec, rows, next) && last.id < next
    requires forall st :: st in rows ==> KeyOf(spec, st.row) != KeyOf(spec, last.row) && st.id != last.id
    ensures Sound(spec, rows + [last], next)
  {
  }

  lemma {:induction false} WithoutKeepsSound(spec: KeySpec, rows: seq<Stored>, ids: set<Id>, next: Id)
    requires Sound(spec, rows, next)
    ensures Sound(spec, Without(rows, ids), next)
  {
    if rows != [] {
      var init, last := rows[..|rows| - 1], rows[|rows| - 1];
      LastDiffers(spec, rows, next);
      WithoutKeepsSound(spec, init, ids, next);
      WithoutIs(init, ids);
      if last.id !in ids {
        SoundWithOneMore(spec, Without(init, ids), last, next);
      }
    }
  }

  lemma {:induction false} WithoutTwice(rows: seq<Stored>, a: set<Id>, b: set<Id>)
    ensures Without(Without(rows, a), b) == Without(rows, a + b)
  {
    if rows != [] {
      var init, last := rows[..|rows| - 1], rows[|rows| - 1];
      WithoutTwice(init, a, b);
      if last.id !in a {
        assert (Without(init, a) + [last])[..|Without(init, a)|] == Without(init, a);
      }
    }
  }
}
