/** The routing data of an offline bundle: which stored pages each vehicle and diagram needs,
    where they lie in the packs, and how a client finds them again. */
module BundleTables {
  import opened Options
  import opened Packing
  import Fnv

  type Id = Fnv.Octets

  /** A row of the routing manifest: what it is for, its stored key, its pages (if it lists
      any) and whether its rows need filtering by diagram id. */
  datatype Row = Row(scope: Id, key: Key, pages: seq<Key>, filtered: bool)

  /** A row needs every page it lists, or its own stored key if it lists none. */
  predicate Needs(o: Row, k: Key) {
    k in o.pages || (|o.pages| == 0 && k == o.key)
  }

  function PagesOf(o: Row): (keys: seq<Key>)
    ensures keys != [] && forall k :: k in keys <==> Needs(o, k)
  {
    if o.pages != [] then o.pages else [o.key]
  }

  function AllPages(rows: seq<Row>): seq<Key> {
    if rows == [] then [] else AllPages(rows[..|rows| - 1]) + PagesOf(rows[|rows| - 1])
  }

  lemma PagesInAllPages(rows: seq<Row>, o: Row, k: Key)
    requires o in rows && k in PagesOf(o)
    ensures k in AllPages(rows)
  {
    if rows[|rows| - 1] != o {
      PagesInAllPages(rows[..|rows| - 1], o, k);
    }
  }

  // ----- Where a key lies -----

  datatype Loc = Loc(pack: nat, off: nat, len: nat)

  function LocateEntries(m: map<Key, Loc>, index: nat, es: seq<Entry>): map<Key, Loc> {
    if es == [] then m
    else
      var e := es[|es| - 1];
      LocateEntries(m, index, es[..|es| - 1])[e.key := Loc(index, e.off, e.len)]
  }

  function Locate(packs: seq<Pack>): map<Key, Loc> {
    if packs == [] then map[]
    else LocateEntries(Locate(packs[..|packs| - 1]), packs[|packs| - 1].index, packs[|packs| - 1].entries)
  }

  /** The location is one of the entries of its pack. */
  ghost predicate IsEntry(packs: seq<Pack>, k: Key, l: Loc) {
    l.pack < |packs| && Entry(k, l.off, l.len) in packs[l.pack].entries
  }

  lemma LocateEntriesIn(m: map<Key, Loc>, index: nat, es: seq<Entry>)
    ensures forall k :: k in LocateEntries(m, index, es) <==> k in m || exists e :: e in es && e.key == k
    ensures forall k :: k in LocateEntries(m, index, es) ==>
              || (k in m && LocateEntries(m, index, es)[k] == m[k])
              || exists e :: e in es && e.key == k && LocateEntries(m, index, es)[k] == Loc(index, e.off, e.len)
  {
    if es != [] {
      LocateEntriesIn(m, index, es[..|es| - 1]);
      assert es == es[..|es| - 1] + [es[|es| - 1]];
    }
  }

  lemma {:induction false} LocatedAreEntries(packs: seq<Pack>)
    requires forall i :: 0 <= i < |packs| ==> packs[i].index == i
    ensures forall k :: k in Locate(packs) ==> IsEntry(packs, k, Locate(packs)[k])
    ensures forall i, e :: 0 <= i < |packs| && e in packs[i].entries ==> e.key in Locate(packs)
  {
    if packs != [] {
      var init, last := packs[..|packs| - 1], packs[|packs| - 1];
      var before := Locate(init);
      LocatedAreEntries(init);
      LocateEntriesIn(before, last.index, last.entries);
      forall k | k in Locate(packs) ensures IsEntry(packs, k, Locate(packs)[k]) {
        if k in before && Locate(packs)[k] == before[k] {
          assert IsEntry(init, k, before[k]);
        }
      }
    }
  }

  lemma KeysOfHasEntries(packs: seq<Pack>, k: Key) returns (i: nat, e: Entry)
    requires k in KeysOf(packs)
    ensures i < |packs| && e in packs[i].entries && e.key == k
  {
    if k in KeysOfPack(packs[0]) {
      var j :| 0 <= j < |packs[0].entries| && KeysOfPack(packs[0])[j] == k;
      i, e := 0, packs[0].entries[j];
    } else {
      i, e := KeysOfHasEntries(packs[1..], k);
      i := i + 1;
    }
  }

  /** What a client gets when it cuts a location out of the packs. */
  function Cut(s: Shelf, packs: seq<Pack>, l: Loc): Option<Bytes> {
    if l.pack < |packs| then
      var body := Body(s, KeysOfPack(packs[l.pack]));
      if l.off + l.len <= |body| then Some(body[l.off..l.off + l.len]) else None
    else None
  }

  lemma EntrySlice(s: Shelf, packs: seq<Pack>, k: Key, l: Loc)
    requires NumberedFrom(s, 0, packs) && IsEntry(packs, k, l)
    ensures Cut(s, packs, l) == Some(s.get(k))
  {
    var p := packs[l.pack];
    assert p == PackOf(s, 0 + l.pack, KeysOfPack(p));
    EntriesTile(s, KeysOfPack(p));
    var i :| 0 <= i < |p.entries| && p.entries[i] == Entry(k, l.off, l.len);
  }

  /** Every packed key is located, and its location selects exactly its object's bytes. */
  lemma LocatedSlices(s: Shelf, packs: seq<Pack>)
    requires NumberedFrom(s, 0, packs)
    ensures forall k :: k in Locate(packs) ==> Cut(s, packs, Locate(packs)[k]) == Some(s.get(k))
    ensures forall k :: k in KeysOf(packs) ==> k in Locate(packs)
  {
    LocatedAreEntries(packs);
    forall k | k in Locate(packs) ensures Cut(s, packs, Locate(packs)[k]) == Some(s.get(k)) {
      EntrySlice(s, packs, k, Locate(packs)[k]);
    }
    forall k | k in KeysOf(packs) ensures k in Locate(packs) {
      var i, e := KeysOfHasEntries(packs, k);
    }
  }

  // ----- Tables, and their split into route files -----

  datatype Route = Route(p: Option<seq<Loc>>, f: bool, i: Option<Loc>)

  type Table = map<Id, Route>

  const NO_ROUTE := Route(None, false, None)

  function Entered(t: Table, id: Id): Route {
    if id in t then t[id] else NO_ROUTE
  }

  ghost predicate AllLocated(rows: seq<Row>, located: map<Key, Loc>) {
    forall o, k :: o in rows && Needs(o, k) ==> k in located
  }

  function LocsOf(keys: seq<Key>, located: map<Key, Loc>): (ls: seq<Loc>)
    requires forall k :: k in keys ==> k in located
    ensures |ls| == |keys|
  {
    seq(|keys|, i requires 0 <= i < |keys| => located[keys[i]])
  }

  function Shards(rows: seq<Row>, located: map<Key, Loc>): map<Id, seq<Loc>>
    requires AllLocated(rows, located)
  {
    if rows == [] then map[]
    else
      var o := rows[|rows| - 1];
      Shards(rows[..|rows| - 1], located)[o.scope := LocsOf(PagesOf(o), located)]
  }

  function PartsTable(rows: seq<Row>, located: map<Key, Loc>): Table
    requires AllLocated(rows, located)
  {
    if rows == [] then map[]
    else
      var o, t := rows[|rows| - 1], PartsTable(rows[..|rows| - 1], located);
      t[o.scope := Route(Some(LocsOf(PagesOf(o), located)), o.filtered || Entered(t, o.scope).f, Entered(t, o.scope).i)]
  }

  function WithImages(base: Table, rows: seq<Row>, located: map<Key, Loc>): Table {
    if rows == [] then base
    else
      var o, t := rows[|rows| - 1], WithImages(base, rows[..|rows| - 1], located);
      if o.key in located then t[o.scope := Entered(t, o.scope).(i := Some(located[o.key]))] else t
  }

  /** The part of the table that goes into route file b. */
  function InBucket(t: Table, b: nat): Table {
    map id | id in t && Fnv.Bucket(id) == b :: t[id]
  }

  lemma InBucketUpdate(t: Table, id: Id, r: Route, b: nat)
    ensures InBucket(t[id := r], b) == if Fnv.Bucket(id) == b then InBucket(t, b)[id := r] else InBucket(t, b)
  {
  }

  // ----- The last row of a scope decides -----

  ghost predicate LastFor(rows: seq<Row>, i: nat) {
    i < |rows| && forall j :: i < j < |rows| ==> rows[j].scope != rows[i].scope
  }

  lemma LastForInit(rows: seq<Row>, i: nat)
    requires LastFor(rows, i) && i < |rows| - 1
    ensures LastFor(rows[..|rows| - 1], i) && rows[|rows| - 1].scope != rows[i].scope
  {
    var init := rows[..|rows| - 1];
    assert forall j :: i < j < |init| ==> init[j] == rows[j];
  }

  lemma {:induction false} PartsOfLast(rows: seq<Row>, located: map<Key, Loc>, i: nat)
    requires AllLocated(rows, located) && LastFor(rows, i)
    ensures rows[i].scope in PartsTable(rows, located)
    ensures PartsTable(rows, located)[rows[i].scope].p == Some(LocsOf(PagesOf(rows[i]), located))
    ensures PartsTable(rows, located)[rows[i].scope].f <==> exists o :: o in rows && o.scope == rows[i].scope && o.filtered
    decreases |rows|
  {
    var init, last := rows[..|rows| - 1], rows[|rows| - 1];
    assert rows == init + [last];
    FlagOf(rows, located, rows[i].scope);
    if i < |rows| - 1 {
      LastForInit(rows, i);
      PartsOfLast(init, located, i);
    }
  }

  lemma {:induction false} FlagOf(rows: seq<Row>, located: map<Key, Loc>, id: Id)
    requires AllLocated(rows, located)
    ensures id in PartsTable(rows, located) <==> exists o :: o in rows && o.scope == id
    ensures Entered(PartsTable(rows, located), id).f <==> exists o :: o in rows && o.scope == id && o.filtered
    ensures Entered(PartsTable(rows, located), id).i == None
  {
    if rows != [] {
      var init, last := rows[..|rows| - 1], rows[|rows| - 1];
      assert rows == init + [last];
      FlagOf(init, located, id);
    }
  }

  /** Images never change the part-list pages or the filter flag of a route. */
  lemma {:induction false} ImagesKeepParts(base: Table, rows: seq<Row>, located: map<Key, Loc>, id: Id)
    ensures var t := WithImages(base, rows, located);
            Entered(t, id).p == Entered(base, id).p && Entered(t, id).f == Entered(base, id).f
    ensures id in base ==> id in WithImages(base, rows, located)
  {
    if rows != [] {
      ImagesKeepParts(base, rows[..|rows| - 1], located, id);
    }
  }

  /** An image route names the stored copy of one of the diagram's own image rows, and there is
      one exactly when some image row of the diagram has its stored key packed. */
  lemma {:induction false} ImageRoute(base: Table, rows: seq<Row>, located: map<Key, Loc>, id: Id)
    requires Entered(base, id).i == None
    ensures var r := Entered(WithImages(base, rows, located), id);
            && (r.i.Some? <==> exists o :: o in rows && o.scope == id && o.key in located)
            && (r.i.Some? ==> exists o :: o in rows && o.scope == id && o.key in located && r.i == Some(located[o.key]))
  {
    if rows != [] {
      var init, last := rows[..|rows| - 1], rows[|rows| - 1];
      assert rows == init + [last];
      ImageRoute(base, init, located, id);
    }
  }

  /** The last image row of its diagram whose own key is located. */
  ghost predicate LastLocated(rows: seq<Row>, located: map<Key, Loc>, i: nat) {
    && i < |rows| && rows[i].key in located
    && forall j :: i < j < |rows| && rows[j].key in located ==> rows[j].scope != rows[i].scope
  }

  /** That row decides where the image of the diagram is. */
  lemma {:induction false} ImageOfLast(base: Table, rows: seq<Row>, located: map<Key, Loc>, i: nat)
    requires LastLocated(rows, located, i)
    ensures Entered(WithImages(base, rows, located), rows[i].scope).i == Some(located[rows[i].key])
    decreases |rows|
  {
    var init := rows[..|rows| - 1];
    if i < |rows| - 1 {
      assert forall j :: i < j < |init| ==> init[j] == rows[j];
      ImageOfLast(base, init, located, i);
    }
  }

  lemma {:induction false} ShardOfLast(rows: seq<Row>, located: map<Key, Loc>, i: nat)
    requires AllLocated(rows, located) && LastFor(rows, i)
    ensures rows[i].scope in Shards(rows, located)
    ensures Shards(rows, located)[rows[i].scope] == LocsOf(PagesOf(rows[i]), located)
    decreases |rows|
  {
    if i < |rows| - 1 {
      LastForInit(rows, i);
      ShardOfLast(rows[..|rows| - 1], located, i);
    }
  }

  lemma {:induction false} ShardScopes(rows: seq<Row>, located: map<Key, Loc>, id: Id)
    requires AllLocated(rows, located)
    ensures id in Shards(rows, located) <==> exists o :: o in rows && o.scope == id
  {
    if rows != [] {
      var init, last := rows[..|rows| - 1], rows[|rows| - 1];
      assert rows == init + [last];
      ShardScopes(init, located, id);
    }
  }

  // ----- Looking a page up -----

  function CutAll(s: Shelf, packs: seq<Pack>, ls: seq<Loc>): Option<Bytes> {
    if ls == [] then Some([])
    else
      var before, last := CutAll(s, packs, ls[..|ls| - 1]), Cut(s, packs, ls[|ls| - 1]);
      if before.Some? && last.Some? then Some(before.value + last.value) else None
  }

  lemma CutKey(s: Shelf, packs: seq<Pack>, k: Key)
    requires NumberedFrom(s, 0, packs) && k in Locate(packs)
    ensures Cut(s, packs, Locate(packs)[k]) == Some(s.get(k))
  {
    LocatedSlices(s, packs);
  }

  lemma {:induction false} CutAllReads(s: Shelf, packs: seq<Pack>, keys: seq<Key>)
    requires NumberedFrom(s, 0, packs)
    requires forall k :: k in keys ==> k in Locate(packs)
    ensures CutAll(s, packs, LocsOf(keys, Locate(packs))) == Some(Body(s, keys))
  {
    if keys != [] {
      var init := keys[..|keys| - 1];
      assert forall k :: k in init ==> k in keys;
      CutAllReads(s, packs, init);
      assert keys[|keys| - 1] in keys;
      CutKey(s, packs, keys[|keys| - 1]);
      var ls := LocsOf(keys, Locate(packs));
      assert ls[..|ls| - 1] == LocsOf(init, Locate(packs));
    }
  }
}
