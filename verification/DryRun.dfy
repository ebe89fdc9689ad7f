/** The in-memory store of a dry run, and when it predicts what the live import does. */
module DryRun {
  import opened CatalogRows
  import opened LiveTable
  import opened CatalogImport

  datatype Counters = Counters(inserted: nat, updated: nat, same: nat)

  /** The store after the records, one at a time. */
  function Overlaid(was: map<Key, Row>, spec: KeySpec, records: seq<Row>): map<Key, Row> {
    if records == [] then was
    else Overlaid(was, spec, records[..|records| - 1])[RawKey(spec, records[|records| - 1]) := records[|records| - 1]]
  }

  /** How many of the records found no record of their key. */
  function Insertions(was: map<Key, Row>, spec: KeySpec, records: seq<Row>): nat {
    if records == [] then 0
    else
      var init, last := records[..|records| - 1], records[|records| - 1];
      Insertions(was, spec, init) + if RawKey(spec, last) in Overlaid(was, spec, init) then 0 else 1
  }

  lemma AddLast<K, V>(was: map<K, V>, last: map<K, V>, key: K, r: V)
    ensures was + last[key := r] == (was + last)[key := r]
  {
  }

  lemma CountLast<K>(was: set<K>, last: set<K>, key: K)
    ensures |last + {key} - was| == |last - was| + if key in was || key in last then 0 else 1
  {
    if key in was || key in last {
      assert last + {key} - was == last - was;
    } else {
      assert last + {key} - was == last - was + {key};
    }
  }

  lemma {:induction false} OverlaidIs(was: map<Key, Row>, spec: KeySpec, records: seq<Row>)
    ensures Overlaid(was, spec, records) == was + LastRaw(spec, records)
  {
    if records != [] {
      var init, last := records[..|records| - 1], records[|records| - 1];
      OverlaidIs(was, spec, init);
      AddLast(was, LastRaw(spec, init), RawKey(spec, last), last);
    }
  }

  lemma {:induction false} InsertionsAre(was: map<Key, Row>, spec: KeySpec, records: seq<Row>)
    ensures Insertions(was, spec, records) == |LastRaw(spec, records).Keys - was.Keys|
  {
    if records != [] {
      var init, key := records[..|records| - 1], RawKey(spec, records[|records| - 1]);
      InsertionsAre(was, spec, init);
      OverlaidIs(was, spec, init);
      CountLast(was.Keys, LastRaw(spec, init).Keys, key);
      assert LastRaw(spec, records).Keys == LastRaw(spec, init).Keys + {key};
    }
  }

  class MemoryStore {
    var table: map<Key, Row>

    constructor ()
      ensures table == map[]
    {
      table := map[];
    }

    /** Last record of each raw key wins; the counters count every record once. */
    method UpsertTable(spec: KeySpec, records: seq<Row>) returns (n: Counters)
      modifies this
      ensures table == old(table) + LastRaw(spec, records)
      ensures n.inserted == |RawKeysOf(spec, records) - old(table).Keys|
      ensures n.inserted + n.updated + n.same == |records|
    {
      ghost var was := table;
      var inserted, updated, same := 0, 0, 0;
      for i := 0 to |records|
        invariant table == Overlaid(was, spec, records[..i])
        invariant inserted == Insertions(was, spec, records[..i])
        invariant inserted + updated + same == i
      {
        var record := records[i];
        var key := RawKey(spec, record);
        assert records[..i + 1][..i] == records[..i];
        if key !in table {
          table := table[key := record];
          inserted := inserted + 1;
        } else if table[key] == record {
          same := same + 1;
        } else {
          table := table[key := record];
          updated := updated + 1;
        }
      }
      assert records[..|records|] == records;
      OverlaidIs(was, spec, records);
      InsertionsAre(was, spec, records);
      LastRawKeys(spec, records);
      n := Counters(inserted, updated, same);
    }
  }

  // ----- Agreement with the live import -----

  /** No two rows differ in their key columns only in how they leave them empty. */
  ghost predicate NoCollision(spec: KeySpec, rows: seq<Row>) {
    forall a, b :: a in rows && b in rows && SameButNothing(spec, a, b) ==> RawKey(spec, a) == RawKey(spec, b)
  }

  lemma NoCollisionIs(spec: KeySpec, rows: seq<Row>)
    ensures NoCollision(spec, rows)
       <==> forall a, b :: a in rows && b in rows && KeyOf(spec, a) == KeyOf(spec, b) ==> RawKey(spec, a) == RawKey(spec, b)
  {
    forall a, b | a in rows && b in rows ensures KeyOf(spec, a) == KeyOf(spec, b) <==> SameButNothing(spec, a, b) {
      SameKey(spec, a, b);
    }
  }

  function NormalisedAll(spec: KeySpec, raws: set<Key>): set<Key>
    requires forall k :: k in raws ==> |k| == |spec|
  {
    set k | k in raws :: Normalised(spec, k)
  }

  ghost predicate Injective(spec: KeySpec, raws: set<Key>)
    requires forall k :: k in raws ==> |k| == |spec|
  {
    forall k, l :: k in raws && l in raws && Normalised(spec, k) == Normalised(spec, l) ==> k == l
  }

  lemma OneMoreImage(spec: KeySpec, rest: set<Key>, k: Key)
    requires k !in rest && forall l :: l in rest + {k} ==> |l| == |spec|
    ensures NormalisedAll(spec, rest + {k}) == NormalisedAll(spec, rest) + {Normalised(spec, k)}
    ensures Injective(spec, rest + {k}) <==> Injective(spec, rest) && Normalised(spec, k) !in NormalisedAll(spec, rest)
  {
    if Normalised(spec, k) in NormalisedAll(spec, rest) {
      var l :| l in rest && Normalised(spec, l) == Normalised(spec, k);
      assert l in rest + {k} && k in rest + {k};
    }
    if Injective(spec, rest + {k}) {
      assert forall l :: l in rest ==> l in rest + {k};
    }
  }

  /** Normalising merges keys exactly when it makes fewer of them. */
  lemma {:induction false} ImageSize(spec: KeySpec, raws: set<Key>)
    requires forall k :: k in raws ==> |k| == |spec|
    ensures |NormalisedAll(spec, raws)| <= |raws|
    ensures |NormalisedAll(spec, raws)| == |raws| <==> Injective(spec, raws)
    decreases |raws|
  {
    if raws == {} {
      assert NormalisedAll(spec, raws) == {};
    } else {
      var k :| k in raws;
      var rest := raws - {k};
      assert raws == rest + {k};
      ImageSize(spec, rest);
      OneMoreImage(spec, rest, k);
    }
  }

  lemma KeysAreNormalisedRawKeys(spec: KeySpec, rows: seq<Row>)
    ensures forall k :: k in RawKeysOf(spec, rows) ==> |k| == |spec|
    ensures KeySet(spec, rows) == NormalisedAll(spec, RawKeysOf(spec, rows))
  {
    forall r | r in rows ensures KeyOf(spec, r) in NormalisedAll(spec, RawKeysOf(spec, rows)) {
      assert RawKey(spec, r) in RawKeysOf(spec, rows);
    }
  }

  /** From empty stores the two imports report the same number of insertions exactly when no two
      rows of the bundle collide; otherwise the dry run reports more. */
  lemma InsertedAgree(spec: KeySpec, rows: seq<Row>)
    ensures |KeySet(spec, rows)| <= |RawKeysOf(spec, rows)|
    ensures |KeySet(spec, rows)| == |RawKeysOf(spec, rows)| <==> NoCollision(spec, rows)
  {
    NoCollisionIs(spec, rows);
    KeysAreNormalisedRawKeys(spec, rows);
    ImageSize(spec, RawKeysOf(spec, rows));
    if NoCollision(spec, rows) {
      forall k, l | k in RawKeysOf(spec, rows) && l in RawKeysOf(spec, rows) && Normalised(spec, k) == Normalised(spec, l)
        ensures k == l
      {
        var a :| a in rows && RawKey(spec, a) == k;
        var b :| b in rows && RawKey(spec, b) == l;
        assert KeyOf(spec, a) == KeyOf(spec, b);
      }
    }
    if Injective(spec, RawKeysOf(spec, rows)) {
      forall a, b | a in rows && b in rows && KeyOf(spec, a) == KeyOf(spec, b) ensures RawKey(spec, a) == RawKey(spec, b) {
        assert RawKey(spec, a) in RawKeysOf(spec, rows) && RawKey(spec, b) in RawKeysOf(spec, rows);
      }
    }
  }

  /** A bundle that leaves key columns empty in one way only, with no value at all, has no collision. */
  lemma NoEmptyKeyValues(spec: KeySpec, rows: seq<Row>)
    requires forall r, i :: r in rows && 0 <= i < |spec| ==> Get(r, spec[i].column) !in Nothings(spec[i].rule) - {Null}
    ensures NoCollision(spec, rows)
  {
    forall a, b | a in rows && b in rows && SameButNothing(spec, a, b) ensures RawKey(spec, a) == RawKey(spec, b) {
      forall i | 0 <= i < |spec| ensures RawKey(spec, a)[i] == RawKey(spec, b)[i] {
        assert AlikeAt(spec[i], a, b);
      }
    }
  }

  /** Without collisions both imports keep the same last row of each key. */
  lemma {:induction false} LastRowsAgree(spec: KeySpec, rows: seq<Row>, r: Row)
    requires NoCollision(spec, rows) && r in rows
    ensures RawKey(spec, r) in LastRaw(spec, rows) && KeyOf(spec, r) in LastRows(spec, rows)
    ensures LastRaw(spec, rows)[RawKey(spec, r)] == LastRows(spec, rows)[KeyOf(spec, r)]
    decreases |rows|
  {
    var init, last := rows[..|rows| - 1], rows[|rows| - 1];
    assert rows == init + [last];
    SameKey(spec, r, last);
    if RawKey(spec, r) != RawKey(spec, last) {
      assert KeyOf(spec, r) != KeyOf(spec, last);
      assert forall a :: a in init ==> a in rows;
      LastRowsAgree(spec, init, r);
    }
  }

  /** Into empty stores: the live table gets the normalised keys of the dry run, and without
      collisions each of its rows is the projection of the dry run's row. */
  lemma DryRunPredictsLive(spec: KeySpec, cols: set<Column>, rows: seq<Row>, live: seq<Stored>)
    requires Upserted(spec, cols, [], live, rows)
    ensures forall k :: k in LastRaw(spec, rows) ==> |k| == |spec|
    ensures LiveKeys(spec, live) == NormalisedAll(spec, LastRaw(spec, rows).Keys)
    ensures NoCollision(spec, rows) ==>
              forall st :: st in live ==>
                exists k :: k in LastRaw(spec, rows) && Normalised(spec, k) == KeyOf(spec, st.row) && st.row == Project(LastRaw(spec, rows)[k], cols)
  {
    LastRawKeys(spec, rows);
    LastRowsKeys(spec, rows);
    KeysAreNormalisedRawKeys(spec, rows);
    assert LiveKeys(spec, []) == {};
    if NoCollision(spec, rows) {
      forall st | st in live
        ensures exists k :: k in LastRaw(spec, rows) && Normalised(spec, k) == KeyOf(spec, st.row) && st.row == Project(LastRaw(spec, rows)[k], cols)
      {
        var key := KeyOf(spec, st.row);
        assert key in LiveKeys(spec, live);
        var r := LastRows(spec, rows)[key];
        LastRowsAgree(spec, rows, r);
        assert Written(spec, [], st, Project(r, cols));
        assert RawKey(spec, r) in LastRaw(spec, rows);
      }
    }
  }

  /** The insertions that the two imports report for a bundle. */
  ghost predicate InsertionsAgree(spec: KeySpec, bundle: seq<Row>, dry: nat, live: nat) {
    live <= dry && (live == dry <==> NoCollision(spec, bundle))
  }

  lemma FromEmpty(spec: KeySpec, bundle: seq<Row>, dry: nat, live: nat)
    requires dry == |RawKeysOf(spec, bundle) - {}| && live == |KeySet(spec, bundle) - LiveKeys(spec, [])|
    ensures InsertionsAgree(spec, bundle, dry, live)
  {
    assert RawKeysOf(spec, bundle) - {} == RawKeysOf(spec, bundle);
    assert KeySet(spec, bundle) - LiveKeys(spec, []) == KeySet(spec, bundle);
    InsertedAgree(spec, bundle);
  }

  /** The live import of one table runs the dry run first. Into an empty live table the two report
      the same insertions exactly when no rows of the bundle collide. */
  method ImportTable(t: Table, bundle: seq<Row>, cols: set<Column>) returns (dry: Counters, live: Stats)
    requires t.Valid() && KeyColumnsIn(t.spec, cols)
    modifies t
    ensures t.Valid() && Upserted(t.spec, cols, old(t.rows), t.rows, bundle)
    ensures old(t.rows) == [] ==> InsertionsAgree(t.spec, bundle, dry.inserted, live.inserted)
  {
    var mem := new MemoryStore();
    dry := mem.UpsertTable(t.spec, bundle);
    live := BatchUpsert(t, bundle, cols);
    if old(t.rows) == [] {
      FromEmpty(t.spec, bundle, dry.inserted, live.inserted);
    }
  }
}
