/** Several runs of the builder over one working directory: runs that died are made up for by the
    next ones, and what a rerun of a build that is already visible does to its manifest. */
module BundleReruns {
  import opened Options
  import opened Packing
  import opened BundleTables
  import opened OfflineBundle
  import opened Sequences

  // ----- Crashing runs -----

  lemma StaysComplete(s: Shelf, ordered: seq<Key>, before: seq<Pack>, after: seq<Pack>, ended: bool)
    requires Distinct(ordered) && before == Drain(s, 0, [], ordered) && Resumed(s, before, after, ordered, ended)
    ensures after == before
  {
    var n: nat :| after == AfterRun(s, before, ordered, n);
    DrainPart(s, ordered, before, n);
  }

  /** Runs the build again and again; each run dies after its budget of writes, if it does not end
      before. The recorded packs are always a first part of those of one uninterrupted run, and
      once a run has ended they are exactly those. */
  method RunRepeatedly(b: Builder, release: string, c: Catalogue, stamps: seq<string>, clocks: seq<FileName -> nat>, budgets: seq<nat>)
    returns (ended: bool)
    requires |stamps| == |clocks| == |budgets|
    requires Recoverable(b.shelf, b.disk, b.store) && Recorded(b.disk, release) == []
    modifies b
    ensures Recoverable(b.shelf, b.disk, b.store)
    ensures PrefixOf(Recorded(b.disk, release), Drain(b.shelf, 0, [], OrderedKeys(BundleRows(c))))
    ensures ended ==> Recorded(b.disk, release) == Drain(b.shelf, 0, [], OrderedKeys(BundleRows(c)))
  {
    ended := false;
    ghost var ordered := OrderedKeys(BundleRows(c));
    FirstUsesOnce(AllPages(BundleRows(c)));
    for i := 0 to |budgets|
      invariant Recoverable(b.shelf, b.disk, b.store)
      invariant PrefixOf(Recorded(b.disk, release), Drain(b.shelf, 0, [], ordered))
      invariant ended ==> Recorded(b.disk, release) == Drain(b.shelf, 0, [], ordered)
    {
      ghost var before := Recorded(b.disk, release);
      ghost var packed, k;
      var r;
      r, packed, k := b.Build(Some(release), stamps[i], c, clocks[i], budgets[i]);
      RunContinues(b.shelf, ordered, before, Recorded(b.disk, release), r.Published?);
      if before == Drain(b.shelf, 0, [], ordered) {
        StaysComplete(b.shelf, ordered, before, Recorded(b.disk, release), r.Published?);
      }
      ended := ended || r.Published?;
    }
  }

  // ----- Reruns of a visible build -----

  /** Packing alone leaves the visible manifests valid: it only adds packs that none of them lists. */
  lemma PackingKeepsVisible(s: Shelf, g: Gzip, before: Store, after: Store, manifests: map<string, Manifest>,
                            release: string, build: string, packs: seq<Pack>, more: seq<Pack>, n: nat)
    requires AllVisibleOk(s, g, before, manifests) && IsVisible(manifests, release, build)
    requires Lists(manifests[release].files, n) && n <= |packs| && PrefixOf(packs, more)
    requires OnlyBuildChanged(before, after, release, build) && OnlyPacksChanged(before, after)
    requires PacksStored(s, before, release, build, packs) && PacksStored(s, after, release, build, more)
    ensures AllVisibleOk(s, g, after, manifests)
  {
    forall r | r in manifests ensures ManifestOk(s, g, after, manifests[r]) {
      var m := manifests[r];
      if r != release {
        OtherManifestsStay(s, g, before, after, release, build, m);
      } else {
        forall f | f in m.files ensures Holds(s, g, after, m.release, m.build, f) {
          assert Holds(s, g, before, m.release, m.build, f);
          var i :| 0 <= i < |m.files| && m.files[i] == f;
          assert f.name == NameAt(i, n);
          if i < n {
            assert more[i] == packs[i];
          }
        }
      }
    }
  }

  lemma ResumedExtends(s: Shelf, before: seq<Pack>, after: seq<Pack>, ordered: seq<Key>, ended: bool)
    requires Resumed(s, before, after, ordered, ended)
    ensures PrefixOf(before, after)
  {
    var n: nat :| after == AfterRun(s, before, ordered, n);
  }

  /** The JSON files that a run of this catalogue writes when these packs are recorded; before all
      of its pages are packed it writes none. */
  ghost function JsonOf(release: string, build: string, packs: seq<Pack>, c: Catalogue, clock: FileName -> nat): JsonPlan {
    if AllLocated(VehicleRows(c), Locate(packs)) && AllLocated(c.parts, Locate(packs)) then
      PlanOf(release, build, packs, c.vehicles, VehicleRows(c), c.parts, ImageRows(c), clock)
    else JsonPlan(release, build, Vehicles(c.vehicles, map[]), map[], clock)
  }

  /** The packs recorded when a run that started from these has packed everything. */
  function AllPacks(s: Shelf, packs: seq<Pack>, c: Catalogue): seq<Pack> {
    packs + ToPack(s, packs, BundleRows(c))
  }

  /** Whether the first k JSON files of a rerun come out as the visible manifest lists them. */
  ghost predicate ComesOutTheSame(g: Gzip, m: Manifest, n: nat, plan: JsonPlan, k: nat)
    requires Lists(m.files, n) && k <= JSON_FILES
  {
    forall i :: 0 <= i < k ==> SameListing(g, m.files[n + i], JsonAt(plan, i))
  }

  lemma RerunKeepsVisible(s: Shelf, g: Gzip, before: Store, packed: Store, after: Store, manifests: map<string, Manifest>,
                          release: string, build: string, packs: seq<Pack>, more: seq<Pack>, ended: bool,
                          c: Catalogue, clock: FileName -> nat, n: nat, k: nat)
    requires AllVisibleOk(s, g, before, manifests) && IsVisible(manifests, release, build)
    requires Lists(manifests[release].files, n) && n <= |packs| && PacksStored(s, before, release, build, packs)
    requires Resumed(s, packs, more, OrderedKeys(BundleRows(c)), ended)
    requires Wrote(s, before, packed, after, release, build, more, c, clock, k) && (k > 0 ==> more == AllPacks(s, packs, c))
    ensures AllVisibleOk(s, g, after, manifests)
       <==> ComesOutTheSame(g, manifests[release], n, JsonOf(release, build, AllPacks(s, packs, c), c, clock), k)
  {
    ResumedExtends(s, packs, more, OrderedKeys(BundleRows(c)), ended);
    PackingKeepsVisible(s, g, before, packed, manifests, release, build, packs, more, n);
    RewritingKeepsVisible(s, g, packed, manifests, JsonOf(release, build, AllPacks(s, packs, c), c, clock), n, k);
  }

  lemma PublishedKeepsVisible(s: Shelf, g: Gzip, before: Store, after: Store, manifests: map<string, Manifest>,
                              release: string, build: string, m: Manifest)
    requires AllVisibleOk(s, g, before, manifests) && OnlyBuildChanged(before, after, release, build)
    requires m.release == release && ManifestOk(s, g, after, m)
    ensures AllVisibleOk(s, g, after, manifests[release := m])
  {
    forall r | r in manifests && r != release ensures ManifestOk(s, g, after, manifests[r]) {
      OtherManifestsStay(s, g, before, after, release, build, manifests[r]);
    }
  }

  /** Runs a build whose manifest is already visible once more. If the run ends, the visible
      manifests are right. If it dies, the visible manifests are right exactly when each of the k JSON files
      that the run had writes for came out with the size and digest listed. */
  method Rerun(b: Builder, release: string, stamp: string, c: Catalogue, clock: FileName -> nat, crashAfter: nat, ghost n: nat)
    returns (r: Outcome, ghost k: nat)
    requires Recoverable(b.shelf, b.disk, b.store) && AllVisibleOk(b.shelf, b.gzip, b.store, b.manifests)
    requires b.disk.Some? && b.disk.value.release == release && IsVisible(b.manifests, release, b.disk.value.build)
    requires Lists(b.manifests[release].files, n) && n <= |b.disk.value.packs|
    modifies b
    ensures var packing := PackingWrites(b.shelf, old(b.disk).value.packs, c);
            && k == (if crashAfter < packing then 0 else JsonWrites(crashAfter - packing))
            && (if crashAfter > packing + JSON_FILES then r == Published else r == Crashed)
    ensures r == Published ==> AllVisibleOk(b.shelf, b.gzip, b.store, b.manifests)
    ensures r == Crashed ==>
              && b.manifests == old(b.manifests)
              && (AllVisibleOk(b.shelf, b.gzip, b.store, b.manifests) <==>
                    ComesOutTheSame(b.gzip, b.manifests[release], n,
                                    JsonOf(release, old(b.disk).value.build, AllPacks(b.shelf, old(b.disk).value.packs, c), c, clock), k))
  {
    ghost var store0, manifests0, state := b.store, b.manifests, b.disk.value;
    ghost var packed;
    r, packed, k := b.Build(Some(release), stamp, c, clock, crashAfter);
    RerunKeepsVisible(b.shelf, b.gzip, store0, packed, b.store, manifests0, release, state.build, state.packs,
                      Recorded(b.disk, release), r.Published?, c, clock, n, k);
    if r.Published? {
      PublishedKeepsVisible(b.shelf, b.gzip, store0, b.store, manifests0, release, state.build, b.manifests[release]);
    }
  }

  /** After a run that ended, a rerun of the same catalogue packs nothing: its first writes are
      the JSON files. */
  lemma RerunPacksNothing(s: Shelf, c: Catalogue, before: seq<Pack>, packs: seq<Pack>)
    requires NumberedFrom(s, 0, packs) && Resumed(s, before, packs, OrderedKeys(BundleRows(c)), true)
    ensures PackingWrites(s, packs, c) == 0
  {
    RowsLocated(s, before, VehicleRows(c), c.parts, ImageRows(c), packs);
    NothingToPack(s, packs, VehicleRows(c), c.parts, ImageRows(c));
  }

  // ----- Two runs after which no till can download the bundle -----

  /** Compression that writes its time into the file. */
  const STAMPING: Gzip := Gzip((p, t) => 1, (p, t) => if t == 0 then "first" else "later")

  /** What a finished run leaves. */
  ghost predicate Completed(b: Builder, packs: seq<Pack>)
    reads b
  {
    && b.gzip == STAMPING && Recoverable(b.shelf, b.disk, b.store)
    && b.disk == Some(State("r", "b", packs)) && b.manifests.Keys == {"r"} && IsVisible(b.manifests, "r", "b")
    && AllVisibleOk(b.shelf, b.gzip, b.store, b.manifests) && Lists(b.manifests["r"].files, |packs|)
    && b.manifests["r"].files[|packs|].sha == "first"
  }

  /** A finished run with a clock at 0 lists the vehicles file, the first after the packs, so. */
  lemma FirstListing(s: Shelf, before: Store, packed: Store, after: Store, m: Manifest, packs: seq<Pack>, c: Catalogue,
                     clock: FileName -> nat, k: nat)
    requires Wrote(s, before, packed, after, m.release, m.build, packs, c, clock, k) && k > 0 && clock(VehiclesFile) == 0
    requires Lists(m.files, |packs|) && ManifestOk(s, STAMPING, after, m)
    ensures m.files[|packs|].sha == "first"
  {
    var plan := PlanOf(m.release, m.build, packs, c.vehicles, VehicleRows(c), c.parts, ImageRows(c), clock);
    JsonListed(s, STAMPING, packed, m, plan, |packs|, k, 0);
    assert m.files[|packs| + 0].sha == "first";
  }

  lemma ComesOutDifferent(m: Manifest, n: nat, p: JsonPlan, k: nat)
    requires Lists(m.files, n) && m.files[n].sha == "first" && p.clock(VehiclesFile) == 1 && 0 < k <= JSON_FILES
    ensures !ComesOutTheSame(STAMPING, m, n, p, k)
  {
    assert !SameListing(STAMPING, m.files[n + 0], JsonAt(p, 0));
  }

  /** A run of any catalogue with something to pack, given as many writes as it takes, with a clock at 0. */
  method BuildFirst(b: Builder, c: Catalogue) returns (r: Outcome, ghost packed: Store, ghost k: nat, ghost clock: FileName -> nat)
    requires b.disk == None && b.store == map[] && b.manifests == map[]
    requires ToPack(b.shelf, [], BundleRows(c)) != []
    modifies b
    ensures r == Published && clock(VehiclesFile) == 0 && k > 0
    ensures Recoverable(b.shelf, b.disk, b.store)
    ensures b.disk == Some(State("r", "b", [] + ToPack(b.shelf, [], BundleRows(c))))
    ensures Wrote(b.shelf, map[], packed, b.store, "r", "b", Recorded(b.disk, "r"), c, clock, k)
    ensures "r" in b.manifests && b.manifests == map["r" := b.manifests["r"]]
    ensures b.manifests["r"].release == "r" && b.manifests["r"].build == "b"
    ensures ManifestOk(b.shelf, b.gzip, b.store, b.manifests["r"])
    ensures Lists(b.manifests["r"].files, |Recorded(b.disk, "r")|)
  {
    var zero: FileName -> nat := _ => 0;
    clock := zero;
    var enough := PackingWrites(b.shelf, [], c) + JSON_FILES + 1;
    r, packed, k := b.Build(Some("r"), "b", c, zero, enough);
  }

  method FirstRun(b: Builder, c: Catalogue) returns (r: Outcome)
    requires b.gzip == STAMPING && b.disk == None && b.store == map[] && b.manifests == map[]
    requires ToPack(b.shelf, [], BundleRows(c)) != []
    modifies b
    ensures r == Published && Completed(b, ToPack(b.shelf, [], BundleRows(c)))
  {
    ghost var packed, k, clock;
    ghost var packs := ToPack(b.shelf, [], BundleRows(c));
    r, packed, k, clock := BuildFirst(b, c);
    assert [] + packs == packs;
    FirstListing(b.shelf, map[], packed, b.store, b.manifests["r"], packs, c, clock, k);
  }

  /** For every catalogue with something to pack: a first run that ends leaves a valid manifest; a
      second one that dies after writing the vehicles file leaves that manifest, which is still the
      visible one, with a file of another digest. */
  method RerunBreaksVisible(s: Shelf, c: Catalogue) returns (b: Builder, first: Outcome, second: Outcome, ghost between: bool)
    requires ToPack(s, [], BundleRows(c)) != []
    ensures first == Published && second == Crashed && between
    ensures b.manifests.Keys == {"r"} && !AllVisibleOk(s, STAMPING, b.store, b.manifests)
  {
    b := new Builder(s, STAMPING);
    first := FirstRun(b, c);
    var packs := ToPack(s, [], BundleRows(c));
    between := AllVisibleOk(s, STAMPING, b.store, b.manifests);
    var clock: FileName -> nat := _ => 1;
    ghost var k;
    second, k := Rerun(b, "r", "later", c, clock, PackingWrites(s, packs, c) + 1, |packs|);
    ComesOutDifferent(b.manifests["r"], |packs|, JsonOf("r", "b", AllPacks(s, packs, c), c, clock), k);
  }
}
