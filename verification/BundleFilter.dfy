/** The complete-only filter of a flat bundle, and the import that follows it. */
module BundleFilter {
  import opened CatalogRows
  import opened LiveTable
  import opened CatalogImport

  /** A fitment with a chassis, a box on its diagram and the diagram's path. */
  predicate Complete(f: Row) {
    !Falsy(Get(f, "chassis_code")) && Get(f, "bbox_x") != Null && !Falsy(Get(f, "diagram_path"))
  }

  /** What a fitment needs to be shown: a chassis code and a diagram path that are neither missing nor
      empty, and a box that is not missing, wherever it lies. */
  predicate Showable(f: Row) {
    && Get(f, "chassis_code") !in {Null, Str(""), Num(0)}
    && ("bbox_x" in f && f["bbox_x"] != Null)
    && Get(f, "diagram_path") !in {Null, Str(""), Num(0)}
  }

  function CompleteFitments(fitments: seq<Row>): (kept: seq<Row>)
    ensures forall f :: f in kept <==> f in fitments && Showable(f)
  {
    if fitments == [] then []
    else
      var before, f := CompleteFitments(fitments[..|fitments| - 1]), fitments[|fitments| - 1];
      assert fitments == fitments[..|fitments| - 1] + [f];
      if Complete(f) then before + [f] else before
  }

  method KeepFitments(fitments: seq<Row>) returns (kept: seq<Row>)
    ensures kept == CompleteFitments(fitments)
  {
    kept := [];
    for i := 0 to |fitments|
      invariant kept == CompleteFitments(fitments[..i])
    {
      assert fitments[..i + 1][..i] == fitments[..i];
      if Complete(fitments[i]) {
        kept := kept + [fitments[i]];
      }
    }
    assert fitments[..|fitments|] == fitments;
  }

  function ChassisOf(fitments: seq<Row>): set<Value> {
    set f | f in fitments :: Get(f, "chassis_code")
  }

  /** Vehicles of a chassis with complete fitments, each natural key at its first row. */
  function KeptVehicles(vehicles: seq<Row>, chassis: set<Value>): seq<Row> {
    if vehicles == [] then []
    else
      var before, v := KeptVehicles(vehicles[..|vehicles| - 1], chassis), vehicles[|vehicles| - 1];
      if Get(v, "chassis_code") in chassis && RawKey(VEHICLE_KEY, v) !in RawKeysOf(VEHICLE_KEY, before) then before + [v] else before
  }

  method KeepVehicles(vehicles: seq<Row>, chassis: set<Value>) returns (kept: seq<Row>)
    ensures kept == KeptVehicles(vehicles, chassis)
  {
    kept := [];
    var seen: set<Key> := {};
    for i := 0 to |vehicles|
      invariant kept == KeptVehicles(vehicles[..i], chassis)
      invariant seen == RawKeysOf(VEHICLE_KEY, kept)
    {
      var v := vehicles[i];
      assert vehicles[..i + 1][..i] == vehicles[..i];
      if Get(v, "chassis_code") in chassis {
        var key := RawKey(VEHICLE_KEY, v);
        if key !in seen {
          seen := seen + {key};
          assert RawKeysOf(VEHICLE_KEY, kept + [v]) == RawKeysOf(VEHICLE_KEY, kept) + {key};
          kept := kept + [v];
        }
      }
    }
    assert vehicles[..|vehicles|] == vehicles;
  }

  const FIRST_YEAR: int := 1980

  /** The vehicle columns that are set, without a year before 1980. */
  function Sanitized(v: Row): Row {
    map c | c in VEHICLE_COLS && c in v && v[c] != Null
         && !(c == "production_year" && v[c].Num? && v[c].number < FIRST_YEAR) :: v[c]
  }

  /** The cleaned row has the five key columns of the row that are set, except a year before 1980. */
  ghost predicate CleanedFrom(v: Row, w: Row) {
    && (forall c :: c in w ==> c in v && w[c] == v[c])
    && (forall c :: c in w <==>
          && c in {"vin_prefix", "chassis_code", "engine_code", "production_year", "model_variant"}
          && c in v && v[c] != Null && !(c == "production_year" && v[c].Num? && v[c].number < 1980))
  }

  lemma SanitizedIs(v: Row)
    ensures CleanedFrom(v, Sanitized(v))
  {
  }

  function SanitizedAll(vehicles: seq<Row>): (out: seq<Row>)
    ensures |out| == |vehicles|
  {
    seq(|vehicles|, i requires 0 <= i < |vehicles| => Sanitized(vehicles[i]))
  }

  datatype Bundle = Bundle(vehicles: seq<Row>, fitments: seq<Row>)

  function Filtered(b: Bundle): Bundle {
    var fitments := CompleteFitments(b.fitments);
    Bundle(SanitizedAll(KeptVehicles(b.vehicles, ChassisOf(fitments))), fitments)
  }

  // ----- What the filter keeps -----

  /** Vehicles of which each natural key of the listed chassis occurs once, and no other. */
  ghost predicate OnePerKey(kept: seq<Row>, vehicles: seq<Row>, chassis: set<Value>) {
    && (forall v :: v in kept ==> v in vehicles && Get(v, "chassis_code") in chassis)
    && RawKeysOf(VEHICLE_KEY, kept) == (set v | v in vehicles && Get(v, "chassis_code") in chassis :: RawKey(VEHICLE_KEY, v))
    && (forall i, j :: 0 <= i < j < |kept| ==> RawKey(VEHICLE_KEY, kept[i]) != RawKey(VEHICLE_KEY, kept[j]))
  }

  lemma {:induction false} KeptAre(vehicles: seq<Row>, chassis: set<Value>)
    ensures OnePerKey(KeptVehicles(vehicles, chassis), vehicles, chassis)
  {
    if vehicles != [] {
      var init, v := vehicles[..|vehicles| - 1], vehicles[|vehicles| - 1];
      assert vehicles == init + [v];
      KeptAre(init, chassis);
      var before := KeptVehicles(init, chassis);
      if Get(v, "chassis_code") in chassis && RawKey(VEHICLE_KEY, v) !in RawKeysOf(VEHICLE_KEY, before) {
        forall i | 0 <= i < |before| ensures RawKey(VEHICLE_KEY, before[i]) != RawKey(VEHICLE_KEY, v) {
          assert before[i] in before;
        }
        assert RawKeysOf(VEHICLE_KEY, before + [v]) == RawKeysOf(VEHICLE_KEY, before) + {RawKey(VEHICLE_KEY, v)};
      }
    }
  }

  predicate HasFitment(v: Row, fitments: seq<Row>) {
    exists f :: f in fitments && Get(f, "chassis_code") == Get(v, "chassis_code")
  }

  ghost predicate IsKept(v: Row, kept: seq<Row>) {
    exists w :: w in kept && RawKey(VEHICLE_KEY, w) == RawKey(VEHICLE_KEY, v)
  }

  /** Of the vehicles of a chassis with a fitment, and of no others, one for each natural key. */
  ghost predicate OnePerVehicle(kept: seq<Row>, vehicles: seq<Row>, fitments: seq<Row>) {
    && (forall v :: v in kept ==> v in vehicles && HasFitment(v, fitments))
    && (forall v :: v in vehicles && HasFitment(v, fitments) ==> IsKept(v, kept))
    && (forall i, j :: 0 <= i < j < |kept| ==> RawKey(VEHICLE_KEY, kept[i]) != RawKey(VEHICLE_KEY, kept[j]))
  }

  lemma OnePerKeyIs(kept: seq<Row>, vehicles: seq<Row>, fitments: seq<Row>)
    requires OnePerKey(kept, vehicles, ChassisOf(fitments))
    ensures OnePerVehicle(kept, vehicles, fitments)
  {
    forall v ensures HasFitment(v, fitments) <==> Get(v, "chassis_code") in ChassisOf(fitments) {
    }
    forall v | v in vehicles && HasFitment(v, fitments) ensures IsKept(v, kept) {
      assert RawKey(VEHICLE_KEY, v) in RawKeysOf(VEHICLE_KEY, kept);
    }
  }

  lemma FilteredVehicles(b: Bundle)
    ensures forall v :: v in Filtered(b).vehicles ==>
              exists f :: f in Filtered(b).fitments && Get(f, "chassis_code") == Get(v, "chassis_code")
  {
    var fitments := CompleteFitments(b.fitments);
    var kept := KeptVehicles(b.vehicles, ChassisOf(fitments));
    KeptAre(b.vehicles, ChassisOf(fitments));
    forall v | v in SanitizedAll(kept) ensures exists f :: f in fitments && Get(f, "chassis_code") == Get(v, "chassis_code") {
      var i :| 0 <= i < |kept| && Sanitized(kept[i]) == v;
      assert kept[i] in kept;
      var f :| f in fitments && Get(f, "chassis_code") == Get(kept[i], "chassis_code");
    }
  }

  ghost predicate CleanedAll(kept: seq<Row>, out: seq<Row>) {
    |out| == |kept| && forall i :: 0 <= i < |kept| ==> CleanedFrom(kept[i], out[i])
  }

  /** What a storefront may rely on: the fitments are exactly the complete ones, and the vehicles,
      cleaned, are one for each natural key of a chassis that has such a fitment. */
  ghost predicate StorefrontReady(b: Bundle, out: Bundle) {
    && (forall f :: f in out.fitments <==> f in b.fitments && Showable(f))
    && (forall v :: v in out.vehicles ==> exists f :: f in out.fitments && Get(f, "chassis_code") == Get(v, "chassis_code"))
    && exists kept :: CleanedAll(kept, out.vehicles) && OnePerVehicle(kept, b.vehicles, out.fitments)
  }

  method FilterCompleteBundle(b: Bundle) returns (out: Bundle)
    ensures out == Filtered(b) && StorefrontReady(b, out)
  {
    var fitments := KeepFitments(b.fitments);
    var kept := KeepVehicles(b.vehicles, ChassisOf(fitments));
    out := Bundle(SanitizedAll(kept), fitments);
    KeptAre(b.vehicles, ChassisOf(fitments));
    FilteredVehicles(b);
    forall i | 0 <= i < |kept| ensures CleanedFrom(kept[i], out.vehicles[i]) {
      SanitizedIs(kept[i]);
    }
    assert CleanedAll(kept, out.vehicles);
    OnePerKeyIs(kept, b.vehicles, fitments);
  }

  // ----- The complete-only import -----

  ghost predicate LiveComplete(f: Row, chassis: Value) {
    Showable(f) && Get(f, "chassis_code") == chassis
  }

  /** The live fitment has every value that the bundle's record sets in a column of the live table. */
  ghost predicate CarriesFitment(live: Row, r: Row) {
    var columns := {"oem_part_number", "pnc_code", "chassis_code", "engine_code", "superseded_by", "bbox_x", "bbox_y",
                    "bbox_width", "bbox_height", "diagram_path"};
    forall c :: c in columns && c in r && r[c] != Null ==> c in live && live[c] == r[c]
  }

  lemma FitmentCarried(live: Row, r: Row)
    requires Writes(live, Project(r, FITMENT_COLS))
    ensures CarriesFitment(live, r)
  {
    forall c | c in FITMENT_COLS && c in r && r[c] != Null ensures c in live && live[c] == r[c] {
      assert c in Project(r, FITMENT_COLS);
    }
  }

  lemma CarriedIsShown(live: Row, r: Row, f: Row)
    requires CarriesFitment(live, r) && Showable(r) && Showable(f) && KeyOf(FITMENT_KEY, r) == KeyOf(FITMENT_KEY, f)
    ensures LiveComplete(live, Get(f, "chassis_code"))
  {
    SameFitment(r, f);
    assert "chassis_code" in live && "bbox_x" in live && "diagram_path" in live;
  }

  lemma FitmentLives(rows: seq<Row>, live: seq<Stored>, f: Row) returns (st: Stored)
    requires f in rows && forall r :: r in rows ==> Showable(r)
    requires LiveKeys(FITMENT_KEY, live) == KeySet(FITMENT_KEY, rows)
    requires forall st :: st in live ==>
               var last := LastRows(FITMENT_KEY, rows);
               KeyOf(FITMENT_KEY, st.row) in last && Writes(st.row, Project(last[KeyOf(FITMENT_KEY, st.row)], FITMENT_COLS))
    ensures st in live && LiveComplete(st.row, Get(f, "chassis_code"))
  {
    var k := KeyOf(FITMENT_KEY, f);
    assert k in KeySet(FITMENT_KEY, rows);
    st :| st in live && KeyOf(FITMENT_KEY, st.row) == k;
    LastRowsKeys(FITMENT_KEY, rows);
    var r := LastRows(FITMENT_KEY, rows)[k];
    FitmentCarried(st.row, r);
    CarriedIsShown(st.row, r, f);
  }

  /** Filters, prunes and upserts: the live keys end equal to the filtered bundle's, and every
      live vehicle's chassis has a live fitment with a box and a diagram path. */
  method ImportComplete(vehicles: Table, fitments: Table, b: Bundle)
    requires vehicles != fitments && vehicles.Valid() && fitments.Valid()
    requires vehicles.spec == VEHICLE_KEY && fitments.spec == FITMENT_KEY
    modifies vehicles, fitments
    ensures StorefrontReady(b, Filtered(b))
    ensures vehicles.Valid() && fitments.Valid()
    ensures LiveKeys(VEHICLE_KEY, vehicles.rows) == KeySet(VEHICLE_KEY, Filtered(b).vehicles)
    ensures LiveKeys(FITMENT_KEY, fitments.rows) == KeySet(FITMENT_KEY, Filtered(b).fitments)
    ensures forall v :: v in vehicles.rows ==>
              exists f :: f in fitments.rows && LiveComplete(f.row, Get(v.row, "chassis_code"))
    ensures forall st :: st in fitments.rows ==>
              exists f :: f in Filtered(b).fitments && KeyOf(FITMENT_KEY, f) == KeyOf(FITMENT_KEY, st.row) && CarriesFitment(st.row, f)
  {
    var out := FilterCompleteBundle(b);
    PruneAndUpsert(vehicles, out.vehicles, VEHICLE_COLS);
    PruneAndUpsert(fitments, out.fitments, FITMENT_COLS);
    ghost var last := LastRows(VEHICLE_KEY, out.vehicles);
    LastRowsKeys(VEHICLE_KEY, out.vehicles);
    FilteredVehicles(b);
    forall v | v in vehicles.rows
      ensures exists f :: f in fitments.rows && LiveComplete(f.row, Get(v.row, "chassis_code"))
    {
      var r := last[KeyOf(VEHICLE_KEY, v.row)];
      var f :| f in out.fitments && Get(f, "chassis_code") == Get(r, "chassis_code");
      assert "chassis_code" in Project(r, VEHICLE_COLS);
      var st := FitmentLives(out.fitments, fitments.rows, f);
    }
    LastRowsKeys(FITMENT_KEY, out.fitments);
    forall st | st in fitments.rows
      ensures exists f :: f in out.fitments && KeyOf(FITMENT_KEY, f) == KeyOf(FITMENT_KEY, st.row) && CarriesFitment(st.row, f)
    {
      FitmentCarried(st.row, LastRows(FITMENT_KEY, out.fitments)[KeyOf(FITMENT_KEY, st.row)]);
    }
  }
}
