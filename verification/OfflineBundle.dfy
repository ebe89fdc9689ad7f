/** The build that packs a release's stored objects, records each finished pack so that a rerun
    resumes, and publishes the manifest last. */
module OfflineBundle {
  import opened Options
  import opened Packing
  import opened BundleTables
  import opened Sequences
  import Fnv

  datatype FileName = PackFile(index: nat) | VehiclesFile | RoutesFile(bucket: nat)

  /** Where an uploaded file of a build lies, and what it is. A JSON file is compressed together
      with the time of its compression. */
  datatype FileId = FileId(release: string, build: string, name: FileName)
  datatype Payload = Vehicles(ids: seq<Id>, shards: map<Id, seq<Loc>>) | Routes(routes: Table)
  datatype Blob = PackBlob(body: Bytes) | JsonBlob(payload: Payload, time: nat)

  /** The size and digest that compression gives a JSON file. */
  datatype Gzip = Gzip(size: (Payload, nat) -> nat, sha: (Payload, nat) -> Digest)

  type Store = map<FileId, Blob>

  datatype Listed = Listed(name: FileName, bytes: nat, sha: Digest)
  datatype Manifest = Manifest(release: string, build: string, totalBytes: nat, files: seq<Listed>)
  datatype State = State(release: string, build: string, packs: seq<Pack>)
  datatype Outcome = NoRelease | Crashed | Published

  function SizeOf(g: Gzip, b: Blob): nat {
    match b
    case PackBlob(body) => |body|
    case JsonBlob(p, t) => g.size(p, t)
  }

  function ShaOf(s: Shelf, g: Gzip, b: Blob): Digest {
    match b
    case PackBlob(body) => s.sha(body)
    case JsonBlob(p, t) => g.sha(p, t)
  }

  function ListingOf(s: Shelf, g: Gzip, name: FileName, b: Blob): Listed {
    Listed(name, SizeOf(g, b), ShaOf(s, g, b))
  }

  function SumBytes(files: seq<Listed>): nat {
    if files == [] then 0 else SumBytes(files[..|files| - 1]) + files[|files| - 1].bytes
  }

  /** It is the sum of the sizes. */
  lemma {:induction false} SumBytesIs(a: seq<Listed>, b: seq<Listed>)
    ensures SumBytes([]) == 0 && forall f :: SumBytes([f]) == f.bytes
    ensures SumBytes(a + b) == SumBytes(a) + SumBytes(b)
    decreases |b|
  {
    assert forall f: Listed :: [f][..0] == [];
    if b == [] {
      assert a + b == a;
    } else {
      SumBytesIs(a, b[..|b| - 1]);
      assert (a + b)[..|a + b| - 1] == a + b[..|b| - 1];
    }
  }

  // ----- What holds of the outside world -----

  ghost predicate Holds(s: Shelf, g: Gzip, store: Store, release: string, build: string, f: Listed) {
    var id := FileId(release, build, f.name);
    id in store && ListingOf(s, g, f.name, store[id]) == f
  }

  /** A client that downloads this manifest gets every file it lists, as listed. */
  ghost predicate ManifestOk(s: Shelf, g: Gzip, store: Store, m: Manifest) {
    && (forall f :: f in m.files ==> Holds(s, g, store, m.release, m.build, f))
    && m.totalBytes == SumBytes(m.files)
  }

  ghost predicate AllVisibleOk(s: Shelf, g: Gzip, store: Store, manifests: map<string, Manifest>) {
    forall r :: r in manifests ==> manifests[r].release == r && ManifestOk(s, g, store, manifests[r])
  }

  ghost predicate PacksStored(s: Shelf, store: Store, release: string, build: string, packs: seq<Pack>) {
    && NumberedFrom(s, 0, packs)
    && forall i :: 0 <= i < |packs| ==>
         var id := FileId(release, build, PackFile(i));
         id in store && store[id] == PackBlob(Body(s, KeysOfPack(packs[i])))
  }

  /** Every recorded pack was uploaded. */
  ghost predicate Recoverable(s: Shelf, disk: Option<State>, store: Store) {
    disk.Some? ==> PacksStored(s, store, disk.value.release, disk.value.build, disk.value.packs)
  }

  function Recorded(disk: Option<State>, release: string): seq<Pack> {
    if disk.Some? && disk.value.release == release then disk.value.packs else []
  }

  /** The build a run works on: the recorded one of this release, or a new one. */
  function BuildOf(disk: Option<State>, release: string, stamp: string): string {
    if disk.Some? && disk.value.release == release then disk.value.build else stamp
  }

  ghost predicate OnlyBuildChanged(before: Store, after: Store, release: string, build: string) {
    forall id :: id in before && (id.release != release || id.build != build) ==>
      id in after && after[id] == before[id]
  }

  lemma OtherManifestsStay(s: Shelf, g: Gzip, before: Store, after: Store, release: string, build: string, m: Manifest)
    requires ManifestOk(s, g, before, m)
    requires OnlyBuildChanged(before, after, release, build)
    requires m.release != release || m.build != build
    ensures ManifestOk(s, g, after, m)
  {
    forall f | f in m.files ensures Holds(s, g, after, m.release, m.build, f) {
      assert Holds(s, g, before, m.release, m.build, f);
    }
  }

  predicate IsVisible(manifests: map<string, Manifest>, release: string, build: string) {
    release in manifests && manifests[release].build == build
  }

  /** Writing files of a build that is not visible leaves every visible manifest valid. */
  lemma VisibleStay(s: Shelf, g: Gzip, before: Store, after: Store, manifests: map<string, Manifest>, release: string, build: string)
    requires OnlyBuildChanged(before, after, release, build)
    ensures AllVisibleOk(s, g, before, manifests) && !IsVisible(manifests, release, build) ==>
              AllVisibleOk(s, g, after, manifests)
  {
    if AllVisibleOk(s, g, before, manifests) && !IsVisible(manifests, release, build) {
      forall r | r in manifests ensures manifests[r].release == r && ManifestOk(s, g, after, manifests[r]) {
        OtherManifestsStay(s, g, before, after, release, build, manifests[r]);
      }
    }
  }

  // ----- Selecting what a bundle holds -----

  function InMaster(rows: seq<Row>, vehicles: seq<Id>): seq<Row> {
    if rows == [] then []
    else
      var before := InMaster(rows[..|rows| - 1], vehicles);
      if rows[|rows| - 1].scope in vehicles then before + [rows[|rows| - 1]] else before
  }

  lemma {:induction false} InMasterHolds(rows: seq<Row>, vehicles: seq<Id>)
    ensures forall o :: o in InMaster(rows, vehicles) <==> o in rows && o.scope in vehicles
  {
    if rows != [] {
      var init, last := rows[..|rows| - 1], rows[|rows| - 1];
      InMasterHolds(init, vehicles);
      assert forall o :: o in rows <==> o in init || o == last;
    }
  }

  /** It is the filter by scope, row by row and in order. */
  lemma {:induction false} InMasterIs(a: seq<Row>, b: seq<Row>, o: Row, vehicles: seq<Id>)
    ensures InMaster(a + b, vehicles) == InMaster(a, vehicles) + InMaster(b, vehicles)
    ensures InMaster([o], vehicles) == if o.scope in vehicles then [o] else []
    decreases |b|
  {
    assert [o][..0] == [];
    if b == [] {
      assert a + b == a;
    } else {
      InMasterIs(a, b[..|b| - 1], o, vehicles);
      assert (a + b)[..|a + b| - 1] == a + b[..|b| - 1];
    }
  }

  function Limited(rows: seq<Row>, limit: Option<nat>): seq<Row> {
    if limit.Some? && limit.value < |rows| then rows[..limit.value] else rows
  }

  function OrderedKeys(rows: seq<Row>): seq<Key> {
    FirstUses(AllPages(rows))
  }

  method CollectPages(pages: seq<Key>, ghost before: seq<Key>, seen0: set<Key>, ordered0: seq<Key>)
    returns (seen: set<Key>, ordered: seq<Key>)
    requires ordered0 == FirstUses(before) && forall k :: k in seen0 <==> k in ordered0
    ensures ordered == FirstUses(before + pages) && forall k :: k in seen <==> k in ordered
  {
    seen, ordered := seen0, ordered0;
    assert before + pages[..0] == before;
    for j := 0 to |pages|
      invariant ordered == FirstUses(before + pages[..j])
      invariant forall k :: k in seen <==> k in ordered
    {
      assert before + pages[..j + 1] == (before + pages[..j]) + [pages[j]];
      FirstUsesAppend(before + pages[..j], pages[j]);
      if pages[j] !in seen {
        seen := seen + {pages[j]};
        ordered := ordered + [pages[j]];
      }
    }
    assert pages[..|pages|] == pages;
  }

  method CollectKeys(rows: seq<Row>) returns (ordered: seq<Key>)
    ensures ordered == OrderedKeys(rows)
  {
    ordered := [];
    var seen: set<Key> := {};
    for i := 0 to |rows|
      invariant ordered == FirstUses(AllPages(rows[..i]))
      invariant forall k :: k in seen <==> k in ordered
    {
      seen, ordered := CollectPages(PagesOf(rows[i]), AllPages(rows[..i]), seen, ordered);
      assert rows[..i + 1][..i] == rows[..i];
    }
    assert rows[..|rows|] == rows;
  }

  /** The keys that no recorded pack holds. */
  function Unpacked(ordered: seq<Key>, located: map<Key, Loc>): seq<Key> {
    if ordered == [] then []
    else if ordered[0] in located then Unpacked(ordered[1..], located)
    else [ordered[0]] + Unpacked(ordered[1..], located)
  }

  lemma {:induction false} EntryKeyInKeysOf(packs: seq<Pack>, i: nat, e: Entry)
    requires i < |packs| && e in packs[i].entries
    ensures e.key in KeysOf(packs)
  {
    if i == 0 {
      var j :| 0 <= j < |packs[0].entries| && packs[0].entries[j] == e;
      assert KeysOfPack(packs[0])[j] == e.key;
    } else {
      EntryKeyInKeysOf(packs[1..], i - 1, e);
    }
  }

  lemma LocatedKeys(s: Shelf, packs: seq<Pack>)
    requires NumberedFrom(s, 0, packs)
    ensures forall k :: k in Locate(packs) <==> k in KeysOf(packs)
  {
    LocatedSlices(s, packs);
    LocatedAreEntries(packs);
    forall k | k in Locate(packs) ensures k in KeysOf(packs) {
      var l := Locate(packs)[k];
      assert IsEntry(packs, k, l);
      EntryKeyInKeysOf(packs, l.pack, Entry(k, l.off, l.len));
    }
  }

  lemma {:induction false} UnpackedIsTodo(ordered: seq<Key>, located: map<Key, Loc>, packed: seq<Key>)
    requires forall k :: k in located <==> k in packed
    ensures Unpacked(ordered, located) == Todo(ordered, packed)
  {
    if ordered != [] {
      UnpackedIsTodo(ordered[1..], located, packed);
    }
  }

  // ----- The tables -----

  function RouteTable(parts: seq<Row>, images: seq<Row>, located: map<Key, Loc>): Table
    requires AllLocated(parts, located)
  {
    WithImages(PartsTable(parts, located), images, located)
  }

  ghost predicate SplitTable(t: Table, buckets: seq<Table>) {
    |buckets| == Fnv.ROUTE_BUCKETS && forall b :: 0 <= b < |buckets| ==> buckets[b] == InBucket(t, b)
  }

  method EnterRoute(ghost t: Table, buckets: seq<Table>, id: Id, b: nat, r: Route) returns (after: seq<Table>)
    requires SplitTable(t, buckets) && b == Fnv.Bucket(id)
    ensures SplitTable(t[id := r], after)
  {
    after := buckets[b := buckets[b][id := r]];
    forall c | 0 <= c < |after| ensures after[c] == InBucket(t[id := r], c) {
      InBucketUpdate(t, id, r, c);
    }
  }

  /** One step of the part-list loop keeps the buckets equal to the table, split. */
  lemma PartsStep(parts: seq<Row>, located: map<Key, Loc>, i: nat)
    requires i < |parts| && AllLocated(parts, located)
    ensures AllLocated(parts[..i], located) && AllLocated(parts[..i + 1], located)
    ensures var o, t := parts[i], PartsTable(parts[..i], located);
            && (forall k :: k in PagesOf(o) ==> k in located)
            && PartsTable(parts[..i + 1], located)
               == t[o.scope := Route(Some(LocsOf(PagesOf(o), located)), o.filtered || Entered(t, o.scope).f, Entered(t, o.scope).i)]
  {
    assert parts[i] in parts;
    assert parts[..i + 1][..i] == parts[..i];
    assert forall q :: q in parts[..i + 1] ==> q in parts;
  }

  method RouteParts(parts: seq<Row>, located: map<Key, Loc>) returns (buckets: seq<Table>)
    requires AllLocated(parts, located)
    ensures SplitTable(PartsTable(parts, located), buckets)
  {
    buckets := seq(Fnv.ROUTE_BUCKETS, _ => map[]);
    for i := 0 to |parts|
      invariant AllLocated(parts[..i], located)
      invariant SplitTable(PartsTable(parts[..i], located), buckets)
    {
      PartsStep(parts, located, i);
      var o := parts[i];
      var h := Fnv.Fnv1a32(o.scope);
      var b := h % Fnv.ROUTE_BUCKETS;
      var route := Entered(buckets[b], o.scope);
      route := route.(p := Some(LocsOf(PagesOf(o), located)));
      if o.filtered {
        route := route.(f := true);
      }
      buckets := EnterRoute(PartsTable(parts[..i], located), buckets, o.scope, b, route);
    }
    assert parts[..|parts|] == parts;
  }

  method RouteImages(ghost t: Table, before: seq<Table>, images: seq<Row>, located: map<Key, Loc>) returns (buckets: seq<Table>)
    requires SplitTable(t, before)
    ensures SplitTable(WithImages(t, images, located), buckets)
  {
    buckets := before;
    for i := 0 to |images|
      invariant SplitTable(WithImages(t, images[..i], located), buckets)
    {
      var o := images[i];
      assert images[..i + 1][..i] == images[..i];
      if o.key in located {
        var h := Fnv.Fnv1a32(o.scope);
        var b := h % Fnv.ROUTE_BUCKETS;
        var route := Entered(buckets[b], o.scope).(i := Some(located[o.key]));
        buckets := EnterRoute(WithImages(t, images[..i], located), buckets, o.scope, b, route);
      }
    }
    assert images[..|images|] == images;
  }

  // ----- The build -----

  const FETCH_CHUNK: nat := 4000

  /** An upload, then state.json. */
  const WRITES_PER_PACK: nat := 2

  /** A run that started with so many packs and may make so many writes dies before it has recorded
      the packs of the plan. */
  predicate DiesPacking(effects: nat, packs: nat, plan: nat) {
    effects + 2 * packs < 2 * plan
  }

  /** What is left to pack of some rows when these packs are recorded. */
  function ToPack(s: Shelf, packs: seq<Pack>, rows: seq<Row>): seq<Pack> {
    Drain(s, |packs|, [], Todo(OrderedKeys(rows), KeysOf(packs)))
  }

  /** What a finished build serves: its packs, its vehicle shards and its split route table. */
  ghost predicate Serves(s: Shelf, store: Store, release: string, build: string, packs: seq<Pack>,
                         vehicles: seq<Id>, shards: seq<Row>, parts: seq<Row>, images: seq<Row>)
  {
    && PacksStored(s, store, release, build, packs)
    && AllLocated(shards, Locate(packs)) && AllLocated(parts, Locate(packs))
    && HasJson(store, FileId(release, build, VehiclesFile), Vehicles(vehicles, Shards(shards, Locate(packs))))
    && forall b :: 0 <= b < Fnv.ROUTE_BUCKETS ==>
         HasJson(store, FileId(release, build, RoutesFile(b)), Routes(InBucket(RouteTable(parts, images, Locate(packs)), b)))
  }

  predicate HasJson(store: Store, id: FileId, p: Payload) {
    id in store && store[id].JsonBlob? && store[id].payload == p
  }

  /** The manifest of a finished build lists its packs in order, then the vehicles, then the routes. */
  function NameAt(i: nat, packs: nat): FileName {
    if i < packs then PackFile(i) else if i == packs then VehiclesFile else RoutesFile(i - packs - 1)
  }

  ghost predicate Lists(files: seq<Listed>, packs: nat) {
    && |files| == packs + 1 + Fnv.ROUTE_BUCKETS
    && forall i :: 0 <= i < |files| ==> files[i].name == NameAt(i, packs)
  }

  // ----- The JSON files of a build -----

  /** The JSON files a run writes: the vehicles, then the route files, each with its time. */
  datatype JsonPlan = JsonPlan(release: string, build: string, vehicles: Payload, table: Table, clock: FileName -> nat)

  const JSON_FILES: nat := 1 + Fnv.ROUTE_BUCKETS

  function JsonName(i: nat): FileName {
    if i == 0 then VehiclesFile else RoutesFile(i - 1)
  }

  function JsonAt(p: JsonPlan, i: nat): Blob {
    JsonBlob(if i == 0 then p.vehicles else Routes(InBucket(p.table, i - 1)), p.clock(JsonName(i)))
  }

  function JsonId(p: JsonPlan, i: nat): FileId {
    FileId(p.release, p.build, JsonName(i))
  }

  /** The uploaded files after the first k JSON files were written. */
  function Rewritten(store: Store, p: JsonPlan, k: nat): Store {
    if k == 0 then store else Rewritten(store, p, k - 1)[JsonId(p, k - 1) := JsonAt(p, k - 1)]
  }

  lemma NextJson(store: Store, p: JsonPlan, b: nat)
    ensures Rewritten(store, p, b + 2)
         == Rewritten(store, p, b + 1)[FileId(p.release, p.build, RoutesFile(b)) := JsonBlob(Routes(InBucket(p.table, b)), p.clock(RoutesFile(b)))]
  {
  }

  lemma {:induction false} RewrittenAt(store: Store, p: JsonPlan, k: nat, id: FileId)
    ensures (exists i :: 0 <= i < k && id == JsonId(p, i)) ==> id in Rewritten(store, p, k)
    ensures forall i :: 0 <= i < k && id == JsonId(p, i) ==> Rewritten(store, p, k)[id] == JsonAt(p, i)
    ensures (forall i :: 0 <= i < k ==> id != JsonId(p, i)) ==>
              (id in Rewritten(store, p, k) <==> id in store) && (id in store ==> Rewritten(store, p, k)[id] == store[id])
  {
    if k > 0 {
      RewrittenAt(store, p, k - 1, id);
    }
  }

  /** The JSON files of a build with these packs. */
  function PlanOf(release: string, build: string, packs: seq<Pack>, vehicles: seq<Id>, shards: seq<Row>, parts: seq<Row>,
                  images: seq<Row>, clock: FileName -> nat): JsonPlan
    requires AllLocated(shards, Locate(packs)) && AllLocated(parts, Locate(packs))
  {
    JsonPlan(release, build, Vehicles(vehicles, Shards(shards, Locate(packs))), RouteTable(parts, images, Locate(packs)), clock)
  }

  /** How many of the JSON files a run writes that may make so many more writes. */
  function JsonWrites(effects: nat): nat {
    if effects < JSON_FILES then effects else JSON_FILES
  }

  /** Packing writes no JSON file. */
  ghost predicate OnlyPacksChanged(before: Store, after: Store) {
    forall id :: id in before && !id.name.PackFile? ==> id in after && after[id] == before[id]
  }

  /** Every page of every row is in a recorded pack. */
  ghost predicate AllPacked(packs: seq<Pack>, shards: seq<Row>, parts: seq<Row>, images: seq<Row>) {
    AllLocated(shards, Locate(packs)) && AllLocated(parts, Locate(packs)) && AllLocated(images, Locate(packs))
  }

  lemma {:induction false} PageOfSome(rows: seq<Row>, k: Key) returns (o: Row)
    requires k in AllPages(rows)
    ensures o in rows && k in PagesOf(o)
  {
    var last := rows[|rows| - 1];
    if k in PagesOf(last) {
      o := last;
    } else {
      o := PageOfSome(rows[..|rows| - 1], k);
    }
  }

  /** Then nothing is left to pack. */
  lemma NothingToPack(s: Shelf, packs: seq<Pack>, shards: seq<Row>, parts: seq<Row>, images: seq<Row>)
    requires NumberedFrom(s, 0, packs) && AllPacked(packs, shards, parts, images)
    ensures Todo(OrderedKeys(shards + parts + images), KeysOf(packs)) == []
  {
    var rows := shards + parts + images;
    var todo := Todo(OrderedKeys(rows), KeysOf(packs));
    if todo != [] {
      TodoMembers(OrderedKeys(rows), KeysOf(packs));
      FirstUsesOnce(AllPages(rows));
      assert todo[0] in todo;
      var o := PageOfSome(rows, todo[0]);
      assert o in shards || o in parts || o in images;
      LocatedKeys(s, packs);
      assert false;
    }
  }

  /** The listing of a JSON file of an earlier run is also right for this run's copy of it. */
  predicate SameListing(g: Gzip, listed: Listed, blob: Blob)
    requires blob.JsonBlob?
  {
    listed.bytes == g.size(blob.payload, blob.time) && listed.sha == g.sha(blob.payload, blob.time)
  }

  /** The manifest still holds after the first k JSON files of its build were written again exactly
      when each of those came out with the size and the digest that the manifest lists. */
  lemma RewritingKeepsManifest(s: Shelf, g: Gzip, store: Store, m: Manifest, p: JsonPlan, n: nat, k: nat)
    requires ManifestOk(s, g, store, m) && m.release == p.release && m.build == p.build
    requires Lists(m.files, n) && k <= JSON_FILES
    ensures ManifestOk(s, g, Rewritten(store, p, k), m) <==> forall i :: 0 <= i < k ==> SameListing(g, m.files[n + i], JsonAt(p, i))
  {
    var after := Rewritten(store, p, k);
    if ManifestOk(s, g, after, m) {
      forall i | 0 <= i < k ensures SameListing(g, m.files[n + i], JsonAt(p, i)) {
        JsonListed(s, g, store, m, p, n, k, i);
      }
    }
    if forall i :: 0 <= i < k ==> SameListing(g, m.files[n + i], JsonAt(p, i)) {
      forall f | f in m.files ensures Holds(s, g, after, m.release, m.build, f) {
        var j :| 0 <= j < |m.files| && m.files[j] == f;
        if n <= j < n + k {
          JsonListed(s, g, store, m, p, n, k, j - n);
        } else {
          OthersHold(s, g, store, m, p, n, k, j);
        }
      }
    }
  }

  lemma JsonListed(s: Shelf, g: Gzip, store: Store, m: Manifest, p: JsonPlan, n: nat, k: nat, i: nat)
    requires m.release == p.release && m.build == p.build && Lists(m.files, n) && i < k <= JSON_FILES
    ensures m.files[n + i] in m.files
    ensures Holds(s, g, Rewritten(store, p, k), m.release, m.build, m.files[n + i]) <==> SameListing(g, m.files[n + i], JsonAt(p, i))
  {
    assert m.files[n + i].name == NameAt(n + i, n) == JsonName(i);
    RewrittenAt(store, p, k, JsonId(p, i));
  }

  lemma OthersHold(s: Shelf, g: Gzip, store: Store, m: Manifest, p: JsonPlan, n: nat, k: nat, j: nat)
    requires ManifestOk(s, g, store, m) && m.release == p.release && m.build == p.build
    requires Lists(m.files, n) && k <= JSON_FILES && j < |m.files| && !(n <= j < n + k)
    ensures Holds(s, g, Rewritten(store, p, k), m.release, m.build, m.files[j])
  {
    assert Holds(s, g, store, m.release, m.build, m.files[j]) && m.files[j].name == NameAt(j, n);
    RewrittenAt(store, p, k, FileId(m.release, m.build, m.files[j].name));
  }

  /** The same for all visible manifests: the others do not list these files. */
  lemma RewritingKeepsVisible(s: Shelf, g: Gzip, store: Store, manifests: map<string, Manifest>, p: JsonPlan, n: nat, k: nat)
    requires AllVisibleOk(s, g, store, manifests) && IsVisible(manifests, p.release, p.build)
    requires Lists(manifests[p.release].files, n) && k <= JSON_FILES
    ensures AllVisibleOk(s, g, Rewritten(store, p, k), manifests)
       <==> forall i :: 0 <= i < k ==> SameListing(g, manifests[p.release].files[n + i], JsonAt(p, i))
  {
    var after := Rewritten(store, p, k);
    RewritingKeepsManifest(s, g, store, manifests[p.release], p, n, k);
    assert OnlyBuildChanged(store, after, p.release, p.build) by {
      forall id | id in store && (id.release != p.release || id.build != p.build) ensures id in after && after[id] == store[id] {
        RewrittenAt(store, p, k, id);
      }
    }
    forall r | r in manifests && r != p.release ensures ManifestOk(s, g, after, manifests[r]) {
      OtherManifestsStay(s, g, store, after, p.release, p.build, manifests[r]);
    }
  }

  /** What a run knows: its finished packs, and the one it is filling. */
  datatype Session = Session(state: State, located: map<Key, Loc>)
  datatype OpenPack = OpenPack(index: nat, data: Bytes, entries: seq<Entry>)

  function OpenWith(s: Shelf, index: nat, keys: seq<Key>): OpenPack {
    OpenPack(index, Body(s, keys), EntriesOf(s, keys))
  }

  /** During a run the recorded packs are stored and located, state.json is either the one the
      run found or the run's own, and only files of this build were written. */
  ghost predicate InStep(s: Shelf, disk0: Option<State>, store0: Store, disk: Option<State>, store: Store, run: Session) {
    && PacksStored(s, store, run.state.release, run.state.build, run.state.packs)
    && run.located == Locate(run.state.packs)
    && (disk == Some(run.state) || (disk == disk0 && run.state.packs == Recorded(disk0, run.state.release)))
    && OnlyBuildChanged(store0, store, run.state.release, run.state.build)
    && run.state.build == BuildOf(disk0, run.state.release, run.state.build)
  }

  lemma UploadKeepsStep(s: Shelf, disk0: Option<State>, store0: Store, disk: Option<State>, store: Store,
                        run: Session, name: FileName, blob: Blob)
    requires InStep(s, disk0, store0, disk, store, run)
    requires name.PackFile? ==> name.index >= |run.state.packs|
    ensures InStep(s, disk0, store0, disk, store[FileId(run.state.release, run.state.build, name) := blob], run)
  {
  }

  function Finished(s: Shelf, run: Session, keys: seq<Key>): Session {
    var p := PackOf(s, |run.state.packs|, keys);
    Session(run.state.(packs := run.state.packs + [p]), LocateEntries(run.located, p.index, p.entries))
  }

  lemma StoredToo(s: Shelf, store: Store, release: string, build: string, packs: seq<Pack>, keys: seq<Key>)
    requires PacksStored(s, store, release, build, packs) && keys != []
    requires var id := FileId(release, build, PackFile(|packs|)); id in store && store[id] == PackBlob(Body(s, keys))
    ensures PacksStored(s, store, release, build, packs + [PackOf(s, |packs|, keys)])
  {
    var more := packs + [PackOf(s, |packs|, keys)];
    KeysOfPackOf(s, |packs|, keys);
    forall i | 0 <= i < |more|
      ensures more[i] == PackOf(s, 0 + i, KeysOfPack(more[i])) && more[i].entries != []
      ensures FileId(release, build, PackFile(i)) in store
      ensures store[FileId(release, build, PackFile(i))] == PackBlob(Body(s, KeysOfPack(more[i])))
    {
      if i < |packs| {
        assert more[i] == packs[i];
      }
    }
  }

  lemma RecordKeepsStep(s: Shelf, disk0: Option<State>, store0: Store, disk: Option<State>, store: Store,
                        run: Session, keys: seq<Key>)
    requires InStep(s, disk0, store0, disk, store, run) && keys != []
    requires FileId(run.state.release, run.state.build, PackFile(|run.state.packs|)) in store
    requires store[FileId(run.state.release, run.state.build, PackFile(|run.state.packs|))] == PackBlob(Body(s, keys))
    ensures InStep(s, disk0, store0, Some(Finished(s, run, keys).state), store, Finished(s, run, keys))
  {
    var st := run.state;
    StoredToo(s, store, st.release, st.build, st.packs, keys);
    LocateOneMore(st.packs, PackOf(s, |st.packs|, keys));
  }

  /** With `keys` in the open pack and `rest` to come, the packs will be those of the plan. */
  ghost predicate OnPlan(s: Shelf, plan: seq<Pack>, packs: seq<Pack>, keys: seq<Key>, rest: seq<Key>) {
    packs + Drain(s, |packs|, keys, rest) == plan
  }

  lemma PlanCloses(s: Shelf, plan: seq<Pack>, packs: seq<Pack>, keys: seq<Key>, rest: seq<Key>)
    requires OnPlan(s, plan, packs, keys, rest)
    requires rest != [] && Closes(s, keys, rest[0])
    ensures OnPlan(s, plan, packs + [PackOf(s, |packs|, keys)], [], rest)
  {
    var more := packs + [PackOf(s, |packs|, keys)];
    assert [] + [rest[0]] == [rest[0]];
    assert more + Drain(s, |more|, [rest[0]], rest[1..]) == plan;
  }

  lemma PlanAdds(s: Shelf, plan: seq<Pack>, packs: seq<Pack>, keys: seq<Key>, rest: seq<Key>)
    requires OnPlan(s, plan, packs, keys, rest)
    requires rest != [] && !Closes(s, keys, rest[0])
    ensures OnPlan(s, plan, packs, keys + [rest[0]], rest[1..])
  {
  }

  lemma PlanEnds(s: Shelf, plan: seq<Pack>, packs: seq<Pack>, keys: seq<Key>)
    requires OnPlan(s, plan, packs, keys, [])
    ensures plan == if keys == [] then packs else packs + [PackOf(s, |packs|, keys)]
  {
  }

  /** A later state of the same build, with at least as many packs. */
  predicate Continues(before: State, after: State) {
    after.release == before.release && after.build == before.build && |before.packs| <= |after.packs|
  }

  ghost predicate PrefixOf(packs: seq<Pack>, plan: seq<Pack>) {
    |packs| <= |plan| && packs == plan[..|packs|]
  }

  lemma PlanPrefix(s: Shelf, plan: seq<Pack>, packs: seq<Pack>, keys: seq<Key>, rest: seq<Key>)
    requires OnPlan(s, plan, packs, keys, rest)
    ensures PrefixOf(packs, plan)
  {
  }

  lemma LocateOneMore(packs: seq<Pack>, p: Pack)
    ensures Locate(packs + [p]) == LocateEntries(Locate(packs), p.index, p.entries)
  {
    assert (packs + [p])[..|packs|] == packs;
  }

  lemma AddToOpen(s: Shelf, open: seq<Key>, k: Key)
    ensures Body(s, open + [k]) == Body(s, open) + s.get(k)
    ensures EntriesOf(s, open + [k]) == EntriesOf(s, open) + [Entry(k, |Body(s, open)|, |s.get(k)|)]
  {
    assert (open + [k])[..|open|] == open;
  }

  method LocatePack(before: map<Key, Loc>, index: nat, entries: seq<Entry>) returns (located: map<Key, Loc>)
    ensures located == LocateEntries(before, index, entries)
  {
    located := before;
    for i := 0 to |entries|
      invariant located == LocateEntries(before, index, entries[..i])
    {
      assert entries[..i + 1][..i] == entries[..i];
      located := located[entries[i].key := Loc(index, entries[i].off, entries[i].len)];
    }
    assert entries[..|entries|] == entries;
  }

  /** The files listed so far are uploaded as listed, in the manifest's order. */
  ghost predicate AllHeld(s: Shelf, g: Gzip, store: Store, release: string, build: string, files: seq<Listed>, packs: nat) {
    && (forall i :: 0 <= i < |files| ==> files[i].name == NameAt(i, packs))
    && (forall f :: f in files ==> Holds(s, g, store, release, build, f))
  }

  function PackListing(packs: seq<Pack>): (files: seq<Listed>)
    ensures |files| == |packs|
  {
    seq(|packs|, i requires 0 <= i < |packs| => Listed(PackFile(packs[i].index), packs[i].bytes, packs[i].sha))
  }

  lemma PacksHeld(s: Shelf, g: Gzip, store: Store, release: string, build: string, packs: seq<Pack>)
    requires PacksStored(s, store, release, build, packs)
    ensures AllHeld(s, g, store, release, build, PackListing(packs), |packs|)
  {
    var files := PackListing(packs);
    forall i | 0 <= i < |files|
      ensures files[i].name == NameAt(i, |packs|) && Holds(s, g, store, release, build, files[i])
    {
      assert packs[i] == PackOf(s, 0 + i, KeysOfPack(packs[i]));
    }
  }

  lemma HeldToo(s: Shelf, g: Gzip, store: Store, release: string, build: string, files: seq<Listed>, packs: nat, blob: Blob)
    requires AllHeld(s, g, store, release, build, files, packs)
    ensures var name := NameAt(|files|, packs);
            AllHeld(s, g, store[FileId(release, build, name) := blob], release, build, files + [ListingOf(s, g, name, blob)], packs)
  {
    var name := NameAt(|files|, packs);
    var after := store[FileId(release, build, name) := blob];
    forall f | f in files ensures Holds(s, g, after, release, build, f) {
      var i :| 0 <= i < |files| && files[i] == f;
      assert Holds(s, g, store, release, build, f) && f.name == NameAt(i, packs) && f.name != name;
    }
  }

  /** The packs, the vehicles file and the first b route files are uploaded and listed. */
  ghost predicate WrittenUpTo(s: Shelf, g: Gzip, store: Store, st: State, payload: Payload, table: Table, files: seq<Listed>, b: nat) {
    && AllHeld(s, g, store, st.release, st.build, files, |st.packs|)
    && |files| == |st.packs| + 1 + b
    && HasJson(store, FileId(st.release, st.build, VehiclesFile), payload)
    && forall c :: 0 <= c < b ==> HasJson(store, FileId(st.release, st.build, RoutesFile(c)), Routes(InBucket(table, c)))
  }

  lemma VehiclesWritten(s: Shelf, g: Gzip, store: Store, st: State, payload: Payload, table: Table, blob: Blob)
    requires PacksStored(s, store, st.release, st.build, st.packs)
    requires blob.JsonBlob? && blob.payload == payload
    ensures WrittenUpTo(s, g, store[FileId(st.release, st.build, VehiclesFile) := blob], st, payload, table,
                        PackListing(st.packs) + [ListingOf(s, g, VehiclesFile, blob)], 0)
  {
    PacksHeld(s, g, store, st.release, st.build, st.packs);
    HeldToo(s, g, store, st.release, st.build, PackListing(st.packs), |st.packs|, blob);
  }

  lemma WrittenToo(s: Shelf, g: Gzip, store: Store, st: State, payload: Payload, table: Table, files: seq<Listed>, b: nat, blob: Blob)
    requires WrittenUpTo(s, g, store, st, payload, table, files, b)
    requires blob.JsonBlob? && blob.payload == Routes(InBucket(table, b))
    ensures WrittenUpTo(s, g, store[FileId(st.release, st.build, RoutesFile(b)) := blob], st, payload, table,
                        files + [ListingOf(s, g, RoutesFile(b), blob)], b + 1)
  {
    HeldToo(s, g, store, st.release, st.build, files, |st.packs|, blob);
  }

  /** A run that starts from `packs0` leaves a first part of what it would record in all. */
  ghost predicate Resumed(s: Shelf, packs0: seq<Pack>, packs: seq<Pack>, ordered: seq<Key>, ended: bool) {
    && (exists n: nat :: packs == AfterRun(s, packs0, ordered, n))
    && (ended ==> packs == packs0 + Drain(s, |packs0|, [], Todo(ordered, KeysOf(packs0))))
  }

  /** Wherever a run stands, state.json holds the packs it has recorded, and they are stored. */
  lemma StepIsRecoverable(s: Shelf, disk0: Option<State>, store0: Store, disk: Option<State>, store: Store, run: Session)
    requires Recoverable(s, disk0, store0) && InStep(s, disk0, store0, disk, store, run)
    ensures Recoverable(s, disk, store)
    ensures Recorded(disk, run.state.release) == run.state.packs
  {
  }

  lemma PlanIsResumed(s: Shelf, packs0: seq<Pack>, packs: seq<Pack>, ordered: seq<Key>, ended: bool)
    requires |packs0| <= |packs|
    requires var plan := packs0 + Drain(s, |packs0|, [], Todo(ordered, KeysOf(packs0)));
             if ended then packs == plan else PrefixOf(packs, plan)
    ensures Resumed(s, packs0, packs, ordered, ended)
  {
    assert packs == AfterRun(s, packs0, ordered, |packs| - |packs0|);
  }

  lemma DrainRest(s: Shelf, ordered: seq<Key>, before: seq<Pack>)
    requires Distinct(ordered) && PrefixOf(before, Drain(s, 0, [], ordered))
    ensures before + Drain(s, |before|, [], Todo(ordered, KeysOf(before))) == Drain(s, 0, [], ordered)
  {
    ResumeFrom(s, ordered, |before|);
  }

  lemma AfterRunPart(s: Shelf, recorded: seq<Pack>, ordered: seq<Key>, n: nat)
    ensures PrefixOf(AfterRun(s, recorded, ordered, n), recorded + Drain(s, |recorded|, [], Todo(ordered, KeysOf(recorded))))
  {
  }

  lemma DrainPart(s: Shelf, ordered: seq<Key>, before: seq<Pack>, n: nat)
    requires Distinct(ordered) && PrefixOf(before, Drain(s, 0, [], ordered))
    ensures PrefixOf(AfterRun(s, before, ordered, n), Drain(s, 0, [], ordered))
  {
    DrainRest(s, ordered, before);
    AfterRunPart(s, before, ordered, n);
  }

  /** A run that starts from a first part of an uninterrupted run's packs leaves a longer one. */
  lemma RunContinues(s: Shelf, ordered: seq<Key>, before: seq<Pack>, after: seq<Pack>, ended: bool)
    requires Distinct(ordered) && PrefixOf(before, Drain(s, 0, [], ordered))
    requires Resumed(s, before, after, ordered, ended)
    ensures PrefixOf(after, Drain(s, 0, [], ordered))
    ensures ended ==> after == Drain(s, 0, [], ordered)
  {
    var n: nat :| after == AfterRun(s, before, ordered, n);
    DrainPart(s, ordered, before, n);
    DrainRest(s, ordered, before);
  }

  ghost predicate Reruns(s: Shelf, ordered: seq<Key>, recorded: seq<seq<Pack>>) {
    && recorded != [] && recorded[0] == []
    && forall i :: 1 <= i < |recorded| ==> Resumed(s, recorded[i - 1], recorded[i], ordered, false)
  }

  /** However many runs died, and wherever each of them did, the packs recorded so far are a first
      part of those of one uninterrupted run; a run that ends leaves exactly those. */
  lemma {:induction false} RunsAgree(s: Shelf, rows: seq<Row>, recorded: seq<seq<Pack>>, last: seq<Pack>, ended: bool)
    requires Reruns(s, OrderedKeys(rows), recorded)
    requires Resumed(s, recorded[|recorded| - 1], last, OrderedKeys(rows), ended)
    ensures PrefixOf(last, Drain(s, 0, [], OrderedKeys(rows)))
    ensures ended ==> last == Drain(s, 0, [], OrderedKeys(rows))
    decreases |recorded|
  {
    FirstUsesOnce(AllPages(rows));
    var before := recorded[|recorded| - 1];
    if |recorded| > 1 {
      RunsAgree(s, rows, recorded[..|recorded| - 1], before, false);
    }
    RunContinues(s, OrderedKeys(rows), before, last, ended);
  }

  lemma AllWritten(s: Shelf, g: Gzip, store: Store, run: Session, vehicles: seq<Id>, shards: seq<Row>, parts: seq<Row>,
                   images: seq<Row>, files: seq<Listed>)
    requires PacksStored(s, store, run.state.release, run.state.build, run.state.packs)
    requires run.located == Locate(run.state.packs)
    requires AllLocated(shards, run.located) && AllLocated(parts, run.located)
    requires WrittenUpTo(s, g, store, run.state, Vehicles(vehicles, Shards(shards, run.located)),
                         RouteTable(parts, images, run.located), files, Fnv.ROUTE_BUCKETS)
    ensures ManifestOk(s, g, store, Manifest(run.state.release, run.state.build, SumBytes(files), files))
    ensures Lists(files, |run.state.packs|)
    ensures Serves(s, store, run.state.release, run.state.build, run.state.packs, vehicles, shards, parts, images)
  {
  }

  /** The database's answers that a run reads. */
  datatype Catalogue = Catalogue(vehicles: seq<Id>, searchRows: seq<Row>, parts: seq<Row>, imageRows: seq<Row>, limit: Option<nat>)

  function VehicleRows(c: Catalogue): seq<Row> {
    InMaster(c.searchRows, c.vehicles)
  }

  function ImageRows(c: Catalogue): seq<Row> {
    Limited(c.imageRows, c.limit)
  }

  function BundleRows(c: Catalogue): seq<Row> {
    VehicleRows(c) + c.parts + ImageRows(c)
  }

  /** One of the images within the limit. */
  ghost predicate IsBundleImage(c: Catalogue, o: Row) {
    exists i :: 0 <= i < |c.imageRows| && (c.limit.Some? ==> i < c.limit.value) && c.imageRows[i] == o
  }

  /** What a bundle holds: the search rows of known vehicles, the part lists and those images. */
  ghost predicate InBundle(c: Catalogue, o: Row) {
    (o in c.searchRows && o.scope in c.vehicles) || o in c.parts || IsBundleImage(c, o)
  }

  lemma BundleHolds(c: Catalogue)
    ensures forall o :: o in ImageRows(c) <==> IsBundleImage(c, o)
    ensures forall o :: o in BundleRows(c) <==> InBundle(c, o)
  {
    InMasterHolds(c.searchRows, c.vehicles);
    forall o ensures o in ImageRows(c) <==> IsBundleImage(c, o) {
      if IsBundleImage(c, o) {
        var i :| 0 <= i < |c.imageRows| && (c.limit.Some? ==> i < c.limit.value) && c.imageRows[i] == o;
        assert ImageRows(c)[i] == o;
      }
    }
  }

  /** The files of a run that packed and then wrote the first k JSON files. */
  ghost predicate Wrote(s: Shelf, before: Store, packed: Store, after: Store, release: string, build: string, packs: seq<Pack>,
                        c: Catalogue, clock: FileName -> nat, k: nat)
  {
    && OnlyPacksChanged(before, packed) && OnlyBuildChanged(before, packed, release, build)
    && PacksStored(s, packed, release, build, packs)
    && k <= JSON_FILES && (k == 0 ==> after == packed)
    && (k > 0 ==> AllLocated(VehicleRows(c), Locate(packs)) && AllLocated(c.parts, Locate(packs))
                  && after == Rewritten(packed, PlanOf(release, build, packs, c.vehicles, VehicleRows(c), c.parts, ImageRows(c), clock), k))
  }

  /** How many writes the packing of a run takes. */
  function PackingWrites(s: Shelf, packs: seq<Pack>, c: Catalogue): nat {
    2 * |ToPack(s, packs, BundleRows(c))|
  }

  /** When packing ends, every page of every row is in some pack. */
  lemma RowsLocated(s: Shelf, packs0: seq<Pack>, shards: seq<Row>, parts: seq<Row>, images: seq<Row>, packs: seq<Pack>)
    requires NumberedFrom(s, 0, packs)
    requires packs == packs0 + Drain(s, |packs0|, [], Todo(OrderedKeys(shards + parts + images), KeysOf(packs0)))
    ensures AllLocated(shards, Locate(packs)) && AllLocated(parts, Locate(packs)) && AllLocated(images, Locate(packs))
  {
    var rows := shards + parts + images;
    var todo := Todo(OrderedKeys(rows), KeysOf(packs0));
    DrainKeepsKeys(s, |packs0|, todo);
    KeysOfConcat(packs0, Drain(s, |packs0|, [], todo));
    TodoMembers(OrderedKeys(rows), KeysOf(packs0));
    FirstUsesOnce(AllPages(rows));
    LocatedKeys(s, packs);
    forall o, k | (o in shards || o in parts || o in images) && Needs(o, k) ensures k in Locate(packs) {
      assert o in rows;
      PagesInAllPages(rows, o, k);
    }
  }

  /** When packing ends, the keys in the packs are those recorded before and the pages of the rows. */
  lemma PackedKeys(s: Shelf, packs0: seq<Pack>, rows: seq<Row>, k: Key)
    requires NumberedFrom(s, 0, packs0 + ToPack(s, packs0, rows))
    ensures k in Locate(packs0 + ToPack(s, packs0, rows)) <==> k in KeysOf(packs0) || exists o :: o in rows && Needs(o, k)
  {
    var todo := Todo(OrderedKeys(rows), KeysOf(packs0));
    LocatedKeys(s, packs0 + ToPack(s, packs0, rows));
    KeysOfConcat(packs0, ToPack(s, packs0, rows));
    DrainKeepsKeys(s, |packs0|, todo);
    TodoMembers(OrderedKeys(rows), KeysOf(packs0));
    FirstUsesOnce(AllPages(rows));
    if k in AllPages(rows) {
      var o := PageOfSome(rows, k);
    }
    if o :| o in rows && Needs(o, k) {
      PagesInAllPages(rows, o, k);
    }
  }

  class Builder {
    const shelf: Shelf
    const gzip: Gzip

    // What outlives a run: state.json, the uploaded files, the visible manifests.
    var disk: Option<State>
    var store: Store
    var manifests: map<string, Manifest>

    /** How many more writes the run makes before it dies. */
    var effects: nat

    constructor (shelf: Shelf, gzip: Gzip)
      ensures this.shelf == shelf && this.gzip == gzip
      ensures disk == None && store == map[] && manifests == map[]
    {
      this.shelf, this.gzip := shelf, gzip;
      disk, store, manifests, effects := None, map[], map[], 0;
    }

    method Write() returns (alive: bool)
      modifies this`effects
      ensures alive <==> old(effects) > 0
      ensures effects == if alive then old(effects) - 1 else 0
    {
      alive := effects > 0;
      if alive {
        effects := effects - 1;
      }
    }

    method Put(id: FileId, blob: Blob) returns (alive: bool)
      modifies this`effects, this`store
      ensures store == if alive then old(store)[id := blob] else old(store)
      ensures alive <==> old(effects) > 0
      ensures effects == if alive then old(effects) - 1 else 0
    {
      alive := Write();
      if alive {
        store := store[id := blob];
      }
    }

    /** Uploads the open pack and records it; dying in between leaves it unrecorded. */
    method Flush(run: Session, pack: OpenPack, ghost keys: seq<Key>, ghost disk0: Option<State>, ghost store0: Store)
      returns (alive: bool, after: Session)
      requires InStep(shelf, disk0, store0, disk, store, run)
      requires pack == OpenWith(shelf, |run.state.packs|, keys) && keys != []
      modifies this`effects, this`store, this`disk
      ensures InStep(shelf, disk0, store0, disk, store, after)
      ensures after == if alive then Finished(shelf, run, keys) else run
      ensures OnlyPacksChanged(old(store), store)
      ensures alive <==> old(effects) >= WRITES_PER_PACK
      ensures alive ==> effects == old(effects) - WRITES_PER_PACK
    {
      after := run;
      UploadKeepsStep(shelf, disk0, store0, disk, store, run, PackFile(pack.index), PackBlob(pack.data));
      alive := Put(FileId(run.state.release, run.state.build, PackFile(pack.index)), PackBlob(pack.data));
      if !alive {
        return;
      }
      alive := Write();
      if !alive {
        return;
      }
      RecordKeepsStep(shelf, disk0, store0, disk, store, run, keys);
      var p := Pack(pack.index, |pack.data|, shelf.sha(pack.data), pack.entries);
      var state := run.state.(packs := run.state.packs + [p]);
      disk := Some(state);
      var located := LocatePack(run.located, pack.index, pack.entries);
      after := Session(state, located);
    }

    /** Closes the open pack if the next object would overflow it. */
    method CloseIfFull(next: Key, len: nat, run0: Session, pack0: OpenPack, ghost keys0: seq<Key>, ghost todo: seq<Key>,
                       ghost plan: seq<Pack>, ghost disk0: Option<State>, ghost store0: Store)
      returns (alive: bool, run: Session, pack: OpenPack, ghost keys: seq<Key>)
      requires InStep(shelf, disk0, store0, disk, store, run0)
      requires todo != [] && todo[0] == next && len == |shelf.get(next)|
      requires pack0 == OpenWith(shelf, |run0.state.packs|, keys0) && OnPlan(shelf, plan, run0.state.packs, keys0, todo)
      modifies this`effects, this`store, this`disk
      ensures InStep(shelf, disk0, store0, disk, store, run)
      ensures Continues(run0.state, run.state) && PrefixOf(run.state.packs, plan)
      ensures OnlyPacksChanged(old(store), store)
      ensures alive ==> pack == OpenWith(shelf, |run.state.packs|, keys) && OnPlan(shelf, plan, run.state.packs, keys, todo)
      ensures alive ==> !Closes(shelf, keys, next)
      ensures alive ==> effects + 2 * |run.state.packs| == old(effects) + 2 * |run0.state.packs|
      ensures !alive ==> DiesPacking(old(effects), |run0.state.packs|, |plan|)
    {
      alive, run, pack, keys := true, run0, pack0, keys0;
      PlanPrefix(shelf, plan, run.state.packs, keys, todo);
      if |pack.data| > 0 && |pack.data| + len > shelf.target {
        PlanCloses(shelf, plan, run.state.packs, keys, todo);
        PlanPrefix(shelf, plan, run.state.packs + [PackOf(shelf, |run.state.packs|, keys)], [], todo);
        alive, run := Flush(run, pack, keys, disk0, store0);
        pack, keys := OpenPack(pack.index + 1, [], []), [];
      }
    }

    /** Packs the fetched objects of one chunk; `rest` is what follows it. */
    method PackChunk(chunk: seq<Key>, run0: Session, pack0: OpenPack, ghost keys0: seq<Key>, ghost rest: seq<Key>,
                     ghost plan: seq<Pack>, ghost disk0: Option<State>, ghost store0: Store)
      returns (alive: bool, run: Session, pack: OpenPack, ghost keys: seq<Key>)
      requires InStep(shelf, disk0, store0, disk, store, run0)
      requires pack0 == OpenWith(shelf, |run0.state.packs|, keys0)
      requires OnPlan(shelf, plan, run0.state.packs, keys0, chunk + rest)
      modifies this`effects, this`store, this`disk
      ensures InStep(shelf, disk0, store0, disk, store, run)
      ensures Continues(run0.state, run.state)
      ensures PrefixOf(run.state.packs, plan) && OnlyPacksChanged(old(store), store)
      ensures alive ==> pack == OpenWith(shelf, |run.state.packs|, keys) && OnPlan(shelf, plan, run.state.packs, keys, rest)
      ensures alive ==> effects + 2 * |run.state.packs| == old(effects) + 2 * |run0.state.packs|
      ensures !alive ==> DiesPacking(old(effects), |run0.state.packs|, |plan|)
    {
      alive, run, pack, keys := true, run0, pack0, keys0;
      assert chunk[0..] == chunk;
      for i := 0 to |chunk|
        invariant InStep(shelf, disk0, store0, disk, store, run)
        invariant Continues(run0.state, run.state)
        invariant pack == OpenWith(shelf, |run.state.packs|, keys)
        invariant OnPlan(shelf, plan, run.state.packs, keys, chunk[i..] + rest)
        invariant effects + 2 * |run.state.packs| == old(effects) + 2 * |run0.state.packs|
        invariant OnlyPacksChanged(old(store), store)
      {
        var body := shelf.get(chunk[i]);
        ghost var todo := chunk[i..] + rest;
        assert todo[0] == chunk[i] && todo[1..] == chunk[i + 1..] + rest;
        alive, run, pack, keys := CloseIfFull(chunk[i], |body|, run, pack, keys, todo, plan, disk0, store0);
        if !alive {
          return;
        }
        PlanAdds(shelf, plan, run.state.packs, keys, todo);
        AddToOpen(shelf, keys, chunk[i]);
        keys := keys + [chunk[i]];
        pack := pack.(entries := pack.entries + [Entry(chunk[i], |pack.data|, |body|)], data := pack.data + body);
      }
      assert chunk[|chunk|..] + rest == rest;
      PlanPrefix(shelf, plan, run.state.packs, keys, rest);
      alive := true;
    }

    /** Packs everything still to pack, a chunk of fetches at a time. */
    method PackAll(todo: seq<Key>, run0: Session, ghost disk0: Option<State>, ghost store0: Store)
      returns (alive: bool, run: Session)
      requires InStep(shelf, disk0, store0, disk, store, run0)
      modifies this`effects, this`store, this`disk
      ensures InStep(shelf, disk0, store0, disk, store, run)
      ensures Continues(run0.state, run.state)
      ensures var plan := run0.state.packs + Drain(shelf, |run0.state.packs|, [], todo);
              if alive then run.state.packs == plan else PrefixOf(run.state.packs, plan)
      ensures OnlyPacksChanged(old(store), store)
      ensures var packs := |Drain(shelf, |run0.state.packs|, [], todo)|;
              && (alive <==> old(effects) >= 2 * packs) && (alive ==> effects == old(effects) - 2 * packs)
    {
      run := run0;
      ghost var plan := run.state.packs + Drain(shelf, |run.state.packs|, [], todo);
      var pack := OpenPack(|run.state.packs|, [], []);
      ghost var keys := [];
      var start := 0;
      assert todo[0..] == todo;
      while start < |todo|
        invariant start <= |todo|
        invariant InStep(shelf, disk0, store0, disk, store, run)
        invariant Continues(run0.state, run.state)
        invariant pack == OpenWith(shelf, |run.state.packs|, keys)
        invariant OnPlan(shelf, plan, run.state.packs, keys, todo[start..])
        invariant OnlyPacksChanged(old(store), store)
        invariant effects + 2 * |run.state.packs| == old(effects) + 2 * |run0.state.packs|
      {
        var end := if start + FETCH_CHUNK < |todo| then start + FETCH_CHUNK else |todo|;
        assert todo[start..] == todo[start..end] + todo[end..];
        alive, run, pack, keys := PackChunk(todo[start..end], run, pack, keys, todo[end..], plan, disk0, store0);
        if !alive {
          return;
        }
        start := end;
      }
      assert todo[start..] == [];
      PlanEnds(shelf, plan, run.state.packs, keys);
      alive := true;
      if pack.entries != [] {
        alive, run := Flush(run, pack, keys, disk0, store0);
      }
    }

    method PublishJson(id: FileId, payload: Payload, time: nat, files0: seq<Listed>) returns (alive: bool, files: seq<Listed>)
      modifies this`effects, this`store
      ensures store == if alive then old(store)[id := JsonBlob(payload, time)] else old(store)
      ensures files == if alive then files0 + [ListingOf(shelf, gzip, id.name, JsonBlob(payload, time))] else files0
      ensures alive <==> old(effects) > 0
      ensures effects == if alive then old(effects) - 1 else 0
    {
      var blob := JsonBlob(payload, time);
      files := files0;
      alive := Put(id, blob);
      if alive {
        files := files + [ListingOf(shelf, gzip, id.name, blob)];
      }
    }

    method PublishVehicles(run: Session, plan: JsonPlan, ghost disk0: Option<State>, ghost store0: Store)
      returns (alive: bool, files: seq<Listed>)
      requires InStep(shelf, disk0, store0, disk, store, run)
      requires plan.release == run.state.release && plan.build == run.state.build
      modifies this`effects, this`store
      ensures InStep(shelf, disk0, store0, disk, store, run)
      ensures alive <==> old(effects) > 0
      ensures effects == if alive then old(effects) - 1 else 0
      ensures store == Rewritten(old(store), plan, if alive then 1 else 0)
      ensures alive ==> WrittenUpTo(shelf, gzip, store, run.state, plan.vehicles, plan.table, files, 0)
    {
      files := PackListing(run.state.packs);
      var blob := JsonBlob(plan.vehicles, plan.clock(VehiclesFile));
      UploadKeepsStep(shelf, disk0, store0, disk, store, run, VehiclesFile, blob);
      VehiclesWritten(shelf, gzip, store, run.state, plan.vehicles, plan.table, blob);
      alive, files := PublishJson(FileId(run.state.release, run.state.build, VehiclesFile), plan.vehicles, plan.clock(VehiclesFile), files);
    }

    /** Writes one route file. */
    method PublishRoute(run: Session, plan: JsonPlan, b: nat, routes: Table, files0: seq<Listed>,
                        ghost base: Store, ghost disk0: Option<State>, ghost store0: Store)
      returns (alive: bool, files: seq<Listed>)
      requires InStep(shelf, disk0, store0, disk, store, run)
      requires plan.release == run.state.release && plan.build == run.state.build && routes == InBucket(plan.table, b)
      requires WrittenUpTo(shelf, gzip, store, run.state, plan.vehicles, plan.table, files0, b)
      requires store == Rewritten(base, plan, b + 1)
      modifies this`effects, this`store
      ensures InStep(shelf, disk0, store0, disk, store, run)
      ensures alive <==> old(effects) > 0
      ensures effects == if alive then old(effects) - 1 else 0
      ensures store == Rewritten(base, plan, if alive then b + 2 else b + 1)
      ensures alive ==> WrittenUpTo(shelf, gzip, store, run.state, plan.vehicles, plan.table, files, b + 1)
    {
      var blob := JsonBlob(Routes(routes), plan.clock(RoutesFile(b)));
      NextJson(base, plan, b);
      UploadKeepsStep(shelf, disk0, store0, disk, store, run, RoutesFile(b), blob);
      WrittenToo(shelf, gzip, store, run.state, plan.vehicles, plan.table, files0, b, blob);
      alive, files := PublishJson(FileId(run.state.release, run.state.build, RoutesFile(b)), Routes(routes), plan.clock(RoutesFile(b)), files0);
    }

    method PublishRoutes(run: Session, plan: JsonPlan, buckets: seq<Table>, files0: seq<Listed>,
                         ghost base: Store, ghost disk0: Option<State>, ghost store0: Store)
      returns (alive: bool, files: seq<Listed>, ghost written: nat)
      requires InStep(shelf, disk0, store0, disk, store, run)
      requires plan.release == run.state.release && plan.build == run.state.build
      requires |buckets| == Fnv.ROUTE_BUCKETS && forall b :: 0 <= b < |buckets| ==> buckets[b] == InBucket(plan.table, b)
      requires WrittenUpTo(shelf, gzip, store, run.state, plan.vehicles, plan.table, files0, 0)
      requires store == Rewritten(base, plan, 1)
      modifies this`effects, this`store
      ensures InStep(shelf, disk0, store0, disk, store, run)
      ensures alive <==> old(effects) >= Fnv.ROUTE_BUCKETS
      ensures written == JsonWrites(1 + old(effects)) && store == Rewritten(base, plan, written)
      ensures alive ==> effects == old(effects) - Fnv.ROUTE_BUCKETS
      ensures alive ==> WrittenUpTo(shelf, gzip, store, run.state, plan.vehicles, plan.table, files, Fnv.ROUTE_BUCKETS)
    {
      files, written := files0, 1;
      for b := 0 to |buckets|
        invariant InStep(shelf, disk0, store0, disk, store, run)
        invariant effects == old(effects) - b && written == b + 1 && store == Rewritten(base, plan, written)
        invariant WrittenUpTo(shelf, gzip, store, run.state, plan.vehicles, plan.table, files, b)
      {
        alive, files := PublishRoute(run, plan, b, buckets[b], files, base, disk0, store0);
        if !alive {
          return;
        }
        written := b + 2;
      }
      alive := true;
    }

    /** Writes the vehicles file and the route files of a fully packed build, as many as it can. */
    method PublishFiles(run: Session, vehicles: seq<Id>, shards: seq<Row>, parts: seq<Row>, images: seq<Row>,
                        clock: FileName -> nat, ghost disk0: Option<State>, ghost store0: Store)
      returns (alive: bool, files: seq<Listed>)
      requires InStep(shelf, disk0, store0, disk, store, run)
      requires AllLocated(shards, run.located) && AllLocated(parts, run.located)
      modifies this`effects, this`store
      ensures InStep(shelf, disk0, store0, disk, store, run)
      ensures alive <==> old(effects) >= JSON_FILES
      ensures store == Rewritten(old(store), PlanOf(run.state.release, run.state.build, run.state.packs, vehicles, shards, parts, images, clock),
                                 JsonWrites(old(effects)))
      ensures alive ==> effects == old(effects) - JSON_FILES
      ensures alive ==> WrittenUpTo(shelf, gzip, store, run.state, Vehicles(vehicles, Shards(shards, run.located)),
                                    RouteTable(parts, images, run.located), files, Fnv.ROUTE_BUCKETS)
    {
      ghost var base := store;
      var plan := JsonPlan(run.state.release, run.state.build, Vehicles(vehicles, Shards(shards, run.located)),
                           RouteTable(parts, images, run.located), clock);
      alive, files := PublishVehicles(run, plan, disk0, store0);
      if alive {
        var buckets := RouteParts(parts, run.located);
        buckets := RouteImages(PartsTable(parts, run.located), buckets, images, run.located);
        ghost var written;
        alive, files, written := PublishRoutes(run, plan, buckets, files, base, disk0, store0);
      }
    }

    /** Reads state.json, or starts a new build, and finds what is left to pack. */
    method Resume(release: string, stamp: string, ordered: seq<Key>) returns (run: Session, todo: seq<Key>)
      requires Recoverable(shelf, disk, store)
      ensures InStep(shelf, disk, store, disk, store, run)
      ensures run.state == State(release, BuildOf(disk, release, stamp), Recorded(disk, release))
      ensures todo == Todo(ordered, KeysOf(run.state.packs))
    {
      var state := if disk.Some? && disk.value.release == release then disk.value else State(release, stamp, []);
      var located := map[];
      for i := 0 to |state.packs|
        invariant located == Locate(state.packs[..i])
      {
        assert state.packs[..i + 1][..i] == state.packs[..i];
        located := LocatePack(located, state.packs[i].index, state.packs[i].entries);
      }
      assert state.packs[..|state.packs|] == state.packs;
      todo := Unpacked(ordered, located);
      LocatedKeys(shelf, state.packs);
      UnpackedIsTodo(ordered, located, KeysOf(state.packs));
      run := Session(state, located);
    }

    method PackRelease(release: string, stamp: string, shards: seq<Row>, parts: seq<Row>, images: seq<Row>)
      returns (alive: bool, run: Session)
      requires Recoverable(shelf, disk, store)
      modifies this`effects, this`store, this`disk
      ensures InStep(shelf, old(disk), old(store), disk, store, run) && Recoverable(shelf, disk, store)
      ensures run.state == State(release, BuildOf(old(disk), release, stamp), Recorded(disk, release))
      ensures Resumed(shelf, Recorded(old(disk), release), run.state.packs, OrderedKeys(shards + parts + images), alive)
      ensures alive ==> AllLocated(shards, run.located) && AllLocated(parts, run.located)
      ensures OnlyPacksChanged(old(store), store)
      ensures var packs := |ToPack(shelf, Recorded(old(disk), release), shards + parts + images)|;
              && (alive <==> old(effects) >= 2 * packs) && (alive ==> effects == old(effects) - 2 * packs)
    {
      ghost var disk0, store0 := disk, store;
      var ordered := CollectKeys(shards + parts + images);
      var todo;
      run, todo := Resume(release, stamp, ordered);
      ghost var packs0 := run.state.packs;
      alive, run := PackAll(todo, run, disk0, store0);
      StepIsRecoverable(shelf, disk0, store0, disk, store, run);
      PlanIsResumed(shelf, packs0, run.state.packs, ordered, alive);
      if alive {
        RowsLocated(shelf, packs0, shards, parts, images, run.state.packs);
      }
    }

    /** Packs the release and writes its JSON files, as far as the run gets. */
    method WriteFiles(release: string, stamp: string, c: Catalogue, clock: FileName -> nat)
      returns (alive: bool, run: Session, files: seq<Listed>, ghost packed: Store, ghost k: nat)
      requires Recoverable(shelf, disk, store)
      modifies this`effects, this`store, this`disk
      ensures InStep(shelf, old(disk), old(store), disk, store, run) && Recoverable(shelf, disk, store)
      ensures run.state == State(release, BuildOf(old(disk), release, stamp), Recorded(disk, release))
      ensures Resumed(shelf, Recorded(old(disk), release), run.state.packs, OrderedKeys(BundleRows(c)), alive)
      ensures Wrote(shelf, old(store), packed, store, release, run.state.build, run.state.packs, c, clock, k)
      ensures k > 0 ==> run.state.packs == Recorded(old(disk), release) + ToPack(shelf, Recorded(old(disk), release), BundleRows(c))
      ensures AllVisibleOk(shelf, gzip, old(store), manifests) && !IsVisible(manifests, release, run.state.build) ==>
                AllVisibleOk(shelf, gzip, store, manifests)
      ensures var packing := PackingWrites(shelf, Recorded(old(disk), release), c);
              && k == (if old(effects) < packing then 0 else JsonWrites(old(effects) - packing))
              && (alive <==> old(effects) >= packing + JSON_FILES)
              && (alive ==> effects == old(effects) - packing - JSON_FILES)
      ensures alive ==>
                && AllLocated(VehicleRows(c), run.located) && AllLocated(c.parts, run.located)
                && WrittenUpTo(shelf, gzip, store, run.state, Vehicles(c.vehicles, Shards(VehicleRows(c), run.located)),
                               RouteTable(c.parts, ImageRows(c), run.located), files, Fnv.ROUTE_BUCKETS)
    {
      files, k := [], 0;
      ghost var disk0, store0 := disk, store;
      alive, run := PackRelease(release, stamp, VehicleRows(c), c.parts, ImageRows(c));
      packed := store;
      if alive {
        k := JsonWrites(effects);
        alive, files := PublishFiles(run, c.vehicles, VehicleRows(c), c.parts, ImageRows(c), clock, disk0, store0);
        StepIsRecoverable(shelf, disk0, store0, disk, store, run);
      }
      VisibleStay(shelf, gzip, store0, store, manifests, release, run.state.build);
    }

    /** Writes the manifest of a build whose files are all uploaded, which makes it the visible one. */
    method PublishManifest(run: Session, c: Catalogue, files: seq<Listed>) returns (alive: bool)
      requires PacksStored(shelf, store, run.state.release, run.state.build, run.state.packs) && run.located == Locate(run.state.packs)
      requires AllLocated(VehicleRows(c), run.located) && AllLocated(c.parts, run.located)
      requires WrittenUpTo(shelf, gzip, store, run.state, Vehicles(c.vehicles, Shards(VehicleRows(c), run.located)),
                           RouteTable(c.parts, ImageRows(c), run.located), files, Fnv.ROUTE_BUCKETS)
      modifies this`effects, this`manifests
      ensures alive <==> old(effects) > 0
      ensures manifests == if alive then old(manifests)[run.state.release := Manifest(run.state.release, run.state.build, SumBytes(files), files)]
                           else old(manifests)
      ensures ManifestOk(shelf, gzip, store, Manifest(run.state.release, run.state.build, SumBytes(files), files))
      ensures AllVisibleOk(shelf, gzip, store, old(manifests)) ==> AllVisibleOk(shelf, gzip, store, manifests)
      ensures Lists(files, |run.state.packs|)
      ensures Serves(shelf, store, run.state.release, run.state.build, run.state.packs, c.vehicles, VehicleRows(c), c.parts, ImageRows(c))
    {
      AllWritten(shelf, gzip, store, run, c.vehicles, VehicleRows(c), c.parts, ImageRows(c), files);
      alive := Write();
      if alive {
        manifests := manifests[run.state.release := Manifest(run.state.release, run.state.build, SumBytes(files), files)];
      }
    }

    /** One run of the build, which dies after `crashAfter` writes unless it ends before. Each
        run that does not find a recorded build of its release starts the build `stamp`. */
    method Build(release: Option<string>, stamp: string, c: Catalogue, clock: FileName -> nat, crashAfter: nat)
      returns (r: Outcome, ghost packed: Store, ghost k: nat)
      requires Recoverable(shelf, disk, store)
      modifies this
      ensures Recoverable(shelf, disk, store)
      ensures r.NoRelease? <==> release == None
      ensures r.NoRelease? ==> disk == old(disk) && store == old(store) && manifests == old(manifests)
      // The packs recorded now are those one run would record, as far as this run got.
      ensures release.Some? ==>
                Resumed(shelf, Recorded(old(disk), release.value), Recorded(disk, release.value), OrderedKeys(BundleRows(c)), r.Published?)
      ensures release.Some? && disk.Some? && disk.value.release == release.value ==>
                disk.value.build == BuildOf(old(disk), release.value, stamp)
      // Nothing outside this release's current build is written; the manifest only by a run that ends.
      ensures release.Some? ==>
                OnlyBuildChanged(old(store), store, release.value, BuildOf(old(disk), release.value, stamp))
      ensures !r.Published? ==> manifests == old(manifests)
      // It packs, then writes the JSON files in order, then the manifest, as far as its writes go.
      ensures release.Some? ==>
                Wrote(shelf, old(store), packed, store, release.value, BuildOf(old(disk), release.value, stamp),
                      Recorded(disk, release.value), c, clock, k)
      ensures release.Some? ==>
                var packing := PackingWrites(shelf, Recorded(old(disk), release.value), c);
                && k == (if crashAfter < packing then 0 else JsonWrites(crashAfter - packing))
                && (r.Published? <==> crashAfter > packing + JSON_FILES)
      // JSON files are written only when everything is packed.
      ensures release.Some? && k > 0 ==>
                Recorded(disk, release.value)
                == Recorded(old(disk), release.value) + ToPack(shelf, Recorded(old(disk), release.value), BundleRows(c))
      // While the build is not the visible one, every visible manifest keeps matching its files.
      ensures release.Some? && AllVisibleOk(shelf, gzip, old(store), old(manifests))
                && !IsVisible(old(manifests), release.value, BuildOf(old(disk), release.value, stamp)) ==>
                AllVisibleOk(shelf, gzip, store, manifests)
      // What a finished run publishes.
      ensures r.Published? ==>
                var rel, build := release.value, BuildOf(old(disk), release.value, stamp);
                var packs := Recorded(disk, rel);
                && rel in manifests && manifests == old(manifests)[rel := manifests[rel]]
                && manifests[rel].release == rel && manifests[rel].build == build
                && ManifestOk(shelf, gzip, store, manifests[rel])
                && Lists(manifests[rel].files, |packs|)
                && Serves(shelf, store, rel, build, packs, c.vehicles, VehicleRows(c), c.parts, ImageRows(c))
    {
      effects := crashAfter;
      packed, k := store, 0;
      if release.None? {
        return NoRelease, packed, k;
      }
      var alive, run, files;
      alive, run, files, packed, k := WriteFiles(release.value, stamp, c, clock);
      if !alive {
        return Crashed, packed, k;
      }
      alive := PublishManifest(run, c, files);
      if !alive {
        return Crashed, packed, k;
      }
      return Published, packed, k;
    }
  }
}
