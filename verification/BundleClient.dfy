/** What a till reads back from a published build. */
module BundleClient {
  import opened Options
  import opened Packing
  import opened BundleTables
  import opened OfflineBundle
  import Fnv

  function ReadSlice(store: Store, release: string, build: string, l: Loc): Option<Bytes> {
    var id := FileId(release, build, PackFile(l.pack));
    if id in store && store[id].PackBlob? && l.off + l.len <= |store[id].body| then
      Some(store[id].body[l.off..l.off + l.len])
    else None
  }

  function ReadSlices(store: Store, release: string, build: string, ls: seq<Loc>): Option<Bytes> {
    if ls == [] then Some([])
    else
      var before, last := ReadSlices(store, release, build, ls[..|ls| - 1]), ReadSlice(store, release, build, ls[|ls| - 1]);
      if before.Some? && last.Some? then Some(before.value + last.value) else None
  }

  /** The route of a diagram: only the file its id hashes to is opened, with the client's own hash. */
  function RouteOf(store: Store, release: string, build: string, id: Id): Option<Route> {
    var file := FileId(release, build, RoutesFile(Fnv.ClientHash(id) % Fnv.ROUTE_BUCKETS));
    if file in store && store[file].JsonBlob? && store[file].payload.Routes? && id in store[file].payload.routes then
      Some(store[file].payload.routes[id])
    else None
  }

  function PartsOf(store: Store, release: string, build: string, id: Id): Option<Bytes> {
    var r := RouteOf(store, release, build, id);
    if r.Some? && r.value.p.Some? then ReadSlices(store, release, build, r.value.p.value) else None
  }

  function ImageOf(store: Store, release: string, build: string, id: Id): Option<Bytes> {
    var r := RouteOf(store, release, build, id);
    if r.Some? && r.value.i.Some? then ReadSlice(store, release, build, r.value.i.value) else None
  }

  function ShardOf(store: Store, release: string, build: string, id: Id): Option<Bytes> {
    var file := FileId(release, build, VehiclesFile);
    if file in store && store[file].JsonBlob? && store[file].payload.Vehicles? && id in store[file].payload.shards then
      ReadSlices(store, release, build, store[file].payload.shards[id])
    else None
  }

  lemma SliceIsCut(s: Shelf, store: Store, release: string, build: string, packs: seq<Pack>, l: Loc)
    requires PacksStored(s, store, release, build, packs) && Cut(s, packs, l).Some?
    ensures ReadSlice(store, release, build, l) == Cut(s, packs, l)
  {
  }

  lemma {:induction false} SlicesAreCut(s: Shelf, store: Store, release: string, build: string, packs: seq<Pack>, ls: seq<Loc>)
    requires PacksStored(s, store, release, build, packs) && CutAll(s, packs, ls).Some?
    ensures ReadSlices(store, release, build, ls) == CutAll(s, packs, ls)
  {
    if ls != [] {
      SlicesAreCut(s, store, release, build, packs, ls[..|ls| - 1]);
      SliceIsCut(s, store, release, build, packs, ls[|ls| - 1]);
    }
  }

  lemma PagesReadBack(s: Shelf, store: Store, release: string, build: string, packs: seq<Pack>, keys: seq<Key>)
    requires PacksStored(s, store, release, build, packs)
    requires forall k :: k in keys ==> k in Locate(packs)
    ensures ReadSlices(store, release, build, LocsOf(keys, Locate(packs))) == Some(Body(s, keys))
  {
    CutAllReads(s, packs, keys);
    SlicesAreCut(s, store, release, build, packs, LocsOf(keys, Locate(packs)));
  }

  lemma RouteIsTableEntry(s: Shelf, store: Store, release: string, build: string, packs: seq<Pack>,
                          vehicles: seq<Id>, shards: seq<Row>, parts: seq<Row>, images: seq<Row>, id: Id)
    requires Serves(s, store, release, build, packs, vehicles, shards, parts, images)
    ensures var t := RouteTable(parts, images, Locate(packs));
            RouteOf(store, release, build, id) == if id in t then Some(t[id]) else None
  {
    Fnv.ClientsAgree(id);
    var b := Fnv.Bucket(id);
    assert HasJson(store, FileId(release, build, RoutesFile(b)), Routes(InBucket(RouteTable(parts, images, Locate(packs)), b)));
  }

  lemma OwnKey(s: Shelf, o: Row)
    ensures Body(s, [o.key]) == s.get(o.key)
  {
  }

  /** The part list of a diagram reads back as exactly what is stored for its last row: all the pages
      the row lists, in order, or its own key if it lists none. The filter flag is that of its rows. */
  lemma PartsRoundTrip(s: Shelf, store: Store, release: string, build: string, packs: seq<Pack>,
                       vehicles: seq<Id>, shards: seq<Row>, parts: seq<Row>, images: seq<Row>, i: nat)
    requires Serves(s, store, release, build, packs, vehicles, shards, parts, images)
    requires LastFor(parts, i)
    ensures PartsOf(store, release, build, parts[i].scope)
         == Some(if parts[i].pages != [] then Body(s, parts[i].pages) else s.get(parts[i].key))
    ensures RouteOf(store, release, build, parts[i].scope).value.f
       <==> exists o :: o in parts && o.scope == parts[i].scope && o.filtered
  {
    var located, id := Locate(packs), parts[i].scope;
    RouteIsTableEntry(s, store, release, build, packs, vehicles, shards, parts, images, id);
    PartsOfLast(parts, located, i);
    ImagesKeepParts(PartsTable(parts, located), images, located, id);
    assert parts[i] in parts;
    PagesReadBack(s, store, release, build, packs, PagesOf(parts[i]));
    OwnKey(s, parts[i]);
  }

  /** No other route file mentions the id. */
  lemma OtherBucketsMiss(s: Shelf, store: Store, release: string, build: string, packs: seq<Pack>,
                         vehicles: seq<Id>, shards: seq<Row>, parts: seq<Row>, images: seq<Row>, id: Id, b: nat)
    requires Serves(s, store, release, build, packs, vehicles, shards, parts, images)
    requires b < Fnv.ROUTE_BUCKETS && b != Fnv.ClientHash(id) % Fnv.ROUTE_BUCKETS
    ensures var file := FileId(release, build, RoutesFile(b));
            file in store && store[file].JsonBlob? && store[file].payload.Routes? && id !in store[file].payload.routes
  {
    Fnv.ClientsAgree(id);
    assert HasJson(store, FileId(release, build, RoutesFile(b)), Routes(InBucket(RouteTable(parts, images, Locate(packs)), b)));
  }

  lemma ShardRoundTrip(s: Shelf, store: Store, release: string, build: string, packs: seq<Pack>,
                       vehicles: seq<Id>, shards: seq<Row>, parts: seq<Row>, images: seq<Row>, i: nat)
    requires Serves(s, store, release, build, packs, vehicles, shards, parts, images)
    requires LastFor(shards, i)
    ensures ShardOf(store, release, build, shards[i].scope)
         == Some(if shards[i].pages != [] then Body(s, shards[i].pages) else s.get(shards[i].key))
  {
    ShardOfLast(shards, Locate(packs), i);
    assert shards[i] in shards;
    PagesReadBack(s, store, release, build, packs, PagesOf(shards[i]));
    OwnKey(s, shards[i]);
  }

  /** An id without a row reads back as nothing. */
  lemma NothingElseAnswers(s: Shelf, store: Store, release: string, build: string, packs: seq<Pack>,
                           vehicles: seq<Id>, shards: seq<Row>, parts: seq<Row>, images: seq<Row>, id: Id)
    requires Serves(s, store, release, build, packs, vehicles, shards, parts, images)
    ensures (forall o :: o in parts ==> o.scope != id) ==> PartsOf(store, release, build, id) == None
    ensures (forall o :: o in shards ==> o.scope != id) ==> ShardOf(store, release, build, id) == None
  {
    var located := Locate(packs);
    RouteIsTableEntry(s, store, release, build, packs, vehicles, shards, parts, images, id);
    FlagOf(parts, located, id);
    ImagesKeepParts(PartsTable(parts, located), images, located, id);
    ShardScopes(shards, located, id);
  }

  /** An image lookup answers exactly when an image row of the diagram has its own stored key
      packed, and then with the stored bytes of such a row. */
  lemma ImageRoundTrip(s: Shelf, store: Store, release: string, build: string, packs: seq<Pack>,
                       vehicles: seq<Id>, shards: seq<Row>, parts: seq<Row>, images: seq<Row>, id: Id)
    requires Serves(s, store, release, build, packs, vehicles, shards, parts, images)
    ensures ImageOf(store, release, build, id).Some?
       <==> exists o :: o in images && o.scope == id && o.key in Locate(packs)
    ensures ImageOf(store, release, build, id).Some? ==>
              exists o :: o in images && o.scope == id && ImageOf(store, release, build, id) == Some(s.get(o.key))
  {
    var located := Locate(packs);
    RouteIsTableEntry(s, store, release, build, packs, vehicles, shards, parts, images, id);
    FlagOf(parts, located, id);
    ImageRoute(PartsTable(parts, located), images, located, id);
    LocatedSlices(s, packs);
    var r := Entered(RouteTable(parts, images, located), id);
    if r.i.Some? {
      var o :| o in images && o.scope == id && o.key in located && r.i == Some(located[o.key]);
      SliceIsCut(s, store, release, build, packs, located[o.key]);
    }
  }

  /** When several image rows of a diagram are packed so, it is the last of them that is read back. */
  lemma LastImage(s: Shelf, store: Store, release: string, build: string, packs: seq<Pack>,
                  vehicles: seq<Id>, shards: seq<Row>, parts: seq<Row>, images: seq<Row>, i: nat)
    requires Serves(s, store, release, build, packs, vehicles, shards, parts, images)
    requires LastLocated(images, Locate(packs), i)
    ensures ImageOf(store, release, build, images[i].scope) == Some(s.get(images[i].key))
  {
    var located := Locate(packs);
    RouteIsTableEntry(s, store, release, build, packs, vehicles, shards, parts, images, images[i].scope);
    ImageOfLast(PartsTable(parts, located), images, located, i);
    LocatedSlices(s, packs);
    SliceIsCut(s, store, release, build, packs, located[images[i].key]);
  }

  /** The images of a published build, from its catalogue: a diagram has one exactly when the own key
      of one of its image rows is a page of some row of the bundle, or was packed by an earlier run. */
  lemma ImagesServed(s: Shelf, store: Store, release: string, build: string, packs0: seq<Pack>, c: Catalogue, id: Id)
    requires Serves(s, store, release, build, packs0 + ToPack(s, packs0, BundleRows(c)), c.vehicles, VehicleRows(c), c.parts, ImageRows(c))
    ensures ImageOf(store, release, build, id).Some?
       <==> exists o :: IsBundleImage(c, o) && o.scope == id
              && (o.key in KeysOf(packs0) || exists other :: InBundle(c, other) && Needs(other, o.key))
  {
    var packs := packs0 + ToPack(s, packs0, BundleRows(c));
    ImageRoundTrip(s, store, release, build, packs, c.vehicles, VehicleRows(c), c.parts, ImageRows(c), id);
    forall k: Key ensures k in Locate(packs) <==> k in KeysOf(packs0) || exists other :: InBundle(c, other) && Needs(other, k) {
      PackedKeys(s, packs0, BundleRows(c), k);
      BundleHolds(c);
    }
    BundleHolds(c);
  }

  /** An image row that is packed under its page and not under its own key. */
  const PAGED_IMAGE := Row([], "own", ["page"], false)
  const PAGED_CATALOGUE := Catalogue([], [], [], [PAGED_IMAGE], None)

  lemma PagedRows()
    ensures KeysOf([]) == [] && forall o :: IsBundleImage(PAGED_CATALOGUE, o) ==> o == PAGED_IMAGE
    ensures forall o :: InBundle(PAGED_CATALOGUE, o) ==> !Needs(o, "own")
    ensures PAGED_IMAGE in BundleRows(PAGED_CATALOGUE) && Needs(PAGED_IMAGE, "page")
  {
    assert BundleRows(PAGED_CATALOGUE) == [PAGED_IMAGE];
    assert "own"[0] != "page"[0];
  }

  /** A till cannot find this image, although its page is in the bundle. */
  lemma PagedImageIsMissed(s: Shelf, store: Store, release: string, build: string)
    requires Serves(s, store, release, build, [] + ToPack(s, [], BundleRows(PAGED_CATALOGUE)), [], VehicleRows(PAGED_CATALOGUE), [],
                    ImageRows(PAGED_CATALOGUE))
    ensures ImageOf(store, release, build, PAGED_IMAGE.scope) == None
    ensures "page" in Locate([] + ToPack(s, [], BundleRows(PAGED_CATALOGUE)))
  {
    ImagesServed(s, store, release, build, [], PAGED_CATALOGUE, PAGED_IMAGE.scope);
    PagedRows();
    PackedKeys(s, [], BundleRows(PAGED_CATALOGUE), "page");
  }

  /** A run of the builder that publishes it so. */
  method PublishPagedImage(s: Shelf, g: Gzip) returns (b: Builder, r: Outcome)
    ensures r == Published && ImageOf(b.store, "r", "b", PAGED_IMAGE.scope) == None
    ensures "page" in Locate(Recorded(b.disk, "r"))
  {
    b := new Builder(s, g);
    ghost var packed, k;
    var enough := PackingWrites(s, [], PAGED_CATALOGUE) + JSON_FILES + 1;
    r, packed, k := b.Build(Some("r"), "b", PAGED_CATALOGUE, _ => 0, enough);
    PagedImageIsMissed(s, b.store, "r", "b");
  }
}
