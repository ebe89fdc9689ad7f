/** Stamping the identity of a vehicle, learned from its own page, onto the scraped rows that
    belong to it. */
module Backfill {
  import opened Options
  import opened CatalogRows
  import opened Sequences

  type Vid = string

  /** One decoding of a chassis code: its set columns, its year and its VIN prefix. */
  datatype Decoded = Decoded(hints: Row, year: Value, prefix: Value)

  datatype Payload = Unreadable | Readable(rest: Row, vehicle: Option<Row>)
  datatype Scraped = Scraped(url: string, payload: Payload, context: Option<Row>)

  /** What the worker takes from other modules: number and case formatting, the chassis decoder,
      the packing of a list of years, the vid in a URL, and the query that narrows candidates. */
  datatype Tools = Tools(
    show: int -> string,
    upper: string -> string,
    decode: (Row, Value) -> seq<Decoded>,
    years: seq<Value> -> Value,
    urlVid: string -> Option<Vid>,
    candidate: (Scraped, Vid) -> bool)

  const HINT_KEYS: seq<Column> := ["chassis_code", "model_variant", "engine_code", "production_year", "year_start",
    "year_end", "grade", "market", "vin_prefix", "vid"]

  const OVERRIDES: set<Column> := {"chassis_code", "vin_prefix", "grade", "market", "vid"}

  const NOISE_ENGINES: set<string> := {"FS12PX", "MT10", "X25"}

  function Text(t: Tools, v: Value): string {
    match v
    case Null => ""
    case Str(s) => s
    case Num(n) => t.show(n)
  }

  function TextOrEmpty(t: Tools, v: Value): string {
    if Falsy(v) then "" else Text(t, v)
  }

  predicate EndsInPX(s: string) {
    |s| >= 2 && s[|s| - 2..] == "PX"
  }

  /** The text of a value, as a string formatter gives it. */
  predicate ReadsAs(t: Tools, v: Value, s: string) {
    v == Str(s) || (v.Num? && s == t.show(v.number))
  }

  /** The column is there and holds something. */
  predicate SetIn(blob: Option<Row>, c: Column) {
    blob.Some? && c in blob.value && blob.value[c] !in {Null, Str(""), Num(0)}
  }

  // ----- Enriching and merging -----

  function Years(decodings: seq<Decoded>): seq<Value> {
    if decodings == [] then []
    else (if decodings[0].year == Null then [] else [decodings[0].year]) + Years(decodings[1..])
  }

  /** Drops the example URL and fills in what the chassis decodes to. */
  function Enriched(t: Tools, m: Row): Row {
    var source := Get(m, "source_url");
    var base := m - if Falsy(source) then {"source_url", "url"} else {"source_url"};
    if Falsy(Get(base, "chassis_code")) then base
    else
      var decodings := t.decode(base, if Falsy(source) then Get(m, "url") else source);
      if decodings == [] then base
      else
        var filled := decodings[0].hints + base;
        if |decodings| == 1 then filled
        else filled["_year_expand" := t.years(Years(decodings))]["_vin_prefix" := decodings[0].prefix]
  }

  /** Whether a hint replaces the value that a column has. */
  predicate Replaces(t: Tools, c: Column, existing: Value) {
    if c in OVERRIDES then true
    else if c == "engine_code" then
      var engine := TextOrEmpty(t, existing);
      engine == "" || engine in NOISE_ENGINES || EndsInPX(engine)
    else Falsy(existing)
  }

  function WithHint(t: Tools, m: Row, hints: Row, c: Column): Row {
    if Get(hints, c) != Null && Replaces(t, c, Get(m, c)) then m[c := Get(hints, c)] else m
  }

  function WithHints(t: Tools, m: Row, hints: Row, n: nat): Row
    requires n <= |HINT_KEYS|
  {
    if n == 0 then m else WithHint(t, WithHints(t, m, hints, n - 1), hints, HINT_KEYS[n - 1])
  }

  function Merged(t: Tools, target: Row, hints: Row): Row {
    Enriched(t, WithHints(t, target, hints, |HINT_KEYS|))
  }

  method MergeIdentityInto(t: Tools, target: Row, hints: Row) returns (merged: Row)
    ensures merged == Merged(t, target, hints)
  {
    merged := target;
    for i := 0 to |HINT_KEYS|
      invariant merged == WithHints(t, target, hints, i)
    {
      var key := HINT_KEYS[i];
      var value := Get(hints, key);
      if value != Null {
        if key in OVERRIDES {
          merged := merged[key := value];
        } else if key == "engine_code" {
          var existing := TextOrEmpty(t, Get(merged, "engine_code"));
          if existing == "" || existing in NOISE_ENGINES || EndsInPX(existing) {
            merged := merged[key := value];
          }
        } else if Falsy(Get(merged, key)) {
          merged := merged[key := value];
        }
      }
    }
    merged := Enriched(t, merged);
  }

  lemma HintKeysDiffer(i: nat, j: nat)
    requires i < j < |HINT_KEYS|
    ensures HINT_KEYS[i] != HINT_KEYS[j]
  {
  }

  /** Each column of a merge depends on that column alone. */
  lemma {:induction false} WithHintsIs(t: Tools, m: Row, hints: Row, n: nat, c: Column)
    requires n <= |HINT_KEYS|
    ensures Get(WithHints(t, m, hints, n), c)
            == if c in HINT_KEYS[..n] && Get(hints, c) != Null && Replaces(t, c, Get(m, c)) then Get(hints, c) else Get(m, c)
    ensures c in WithHints(t, m, hints, n) <==> c in m || (c in HINT_KEYS[..n] && Get(hints, c) != Null && Replaces(t, c, Get(m, c)))
  {
    if n > 0 {
      WithHintsIs(t, m, hints, n - 1, c);
      assert HINT_KEYS[..n] == HINT_KEYS[..n - 1] + [HINT_KEYS[n - 1]];
      if c in HINT_KEYS[..n - 1] {
        var i :| 0 <= i < n - 1 && HINT_KEYS[i] == c;
        HintKeysDiffer(i, n - 1);
      }
    }
  }

  /** Which value each column has after all hints: those that name the vehicle always win, an engine code
      wins over an absent or a noise one, the other hints only fill in. */
  function Hinted(t: Tools, c: Column, was: Value, hint: Value): Value {
    if hint == Null then was
    else if c in {"chassis_code", "vin_prefix", "grade", "market", "vid"} then hint
    else if c == "engine_code" then
      if was in {Null, Str(""), Num(0)} || NoiseEngine(if was.Str? then was.text else t.show(was.number)) then hint else was
    else if c in {"model_variant", "production_year", "year_start", "year_end"} then
      if was in {Null, Str(""), Num(0)} then hint else was
    else was
  }

  lemma HintedIs(t: Tools, m: Row, hints: Row, c: Column)
    ensures Get(WithHints(t, m, hints, |HINT_KEYS|), c) == Hinted(t, c, Get(m, c), Get(hints, c))
  {
    WithHintsIs(t, m, hints, |HINT_KEYS|, c);
    assert HINT_KEYS[..|HINT_KEYS|] == HINT_KEYS;
    HintKeysAre(c);
    ReplacesIs(t, c, Get(m, c));
  }

  lemma ReplacesIs(t: Tools, c: Column, was: Value)
    ensures Replaces(t, c, was)
       <==> || c in {"chassis_code", "vin_prefix", "grade", "market", "vid"}
            || was in {Null, Str(""), Num(0)}
            || (c == "engine_code" && NoiseEngine(if was.Str? then was.text else t.show(was.number)))
  {
    NoiseIs(TextOrEmpty(t, was));
  }

  lemma NoiseIs(engine: string)
    ensures engine == "" || engine in NOISE_ENGINES || EndsInPX(engine) <==> NoiseEngine(engine)
  {
    EndsInPXIs(engine);
  }

  lemma EndsInPXIs(s: string)
    ensures EndsInPX(s) <==> |s| >= 2 && s[|s| - 2] == 'P' && s[|s| - 1] == 'X'
  {
    if |s| >= 2 {
      var end := s[|s| - 2..];
      assert end == [end[0], end[1]];
      assert "PX" == ['P', 'X'];
    }
  }

  predicate NoiseEngine(engine: string) {
    || engine == "" || engine == "FS12PX" || engine == "MT10" || engine == "X25"
    || (|engine| >= 2 && engine[|engine| - 2] == 'P' && engine[|engine| - 1] == 'X')
  }

  lemma HintKeysAre(c: Column)
    ensures c in HINT_KEYS <==> c in {"chassis_code", "model_variant", "engine_code", "production_year", "year_start",
                                      "year_end", "grade", "market", "vin_prefix", "vid"}
  {
    assert HINT_KEYS == [HINT_KEYS[0], HINT_KEYS[1], HINT_KEYS[2], HINT_KEYS[3], HINT_KEYS[4], HINT_KEYS[5], HINT_KEYS[6],
                         HINT_KEYS[7], HINT_KEYS[8], HINT_KEYS[9]];
  }

  /** Enriching never changes a set column that identifies the vehicle. */
  lemma EnrichedKeeps(t: Tools, m: Row, c: Column)
    requires c in m && c in HINT_KEYS
    ensures c in Enriched(t, m) && Enriched(t, m)[c] == m[c]
  {
    assert c != "source_url" && c != "url" && c != "_year_expand" && c != "_vin_prefix";
  }

  /** All columns but the example URL, which is in the first of these two that is set. */
  function WithoutExample(m: Row): Row {
    map k | k in m && k != "source_url" && (k == "url" ==> SetIn(Some(m), "source_url")) :: m[k]
  }

  /** What enriching leaves in a column: the example URL goes, a set column stays, and what the chassis
      decodes to fills in the others; the years of several decodings and the first one's VIN prefix are
      added on the side. */
  lemma EnrichedIs(t: Tools, m: Row, c: Column)
    ensures var url := if SetIn(Some(m), "source_url") then m["source_url"] else Get(m, "url");
            var base := WithoutExample(m);
            var decodings := if SetIn(Some(m), "chassis_code") then t.decode(base, url) else [];
            Get(Enriched(t, m), c)
            == if |decodings| > 1 && c == "_vin_prefix" then decodings[0].prefix
               else if |decodings| > 1 && c == "_year_expand" then t.years(Years(decodings))
               else if c in base then base[c]
               else if |decodings| > 0 then Get(decodings[0].hints, c)
               else Null
  {
    assert WithoutExample(m) == m - if Falsy(Get(m, "source_url")) then {"source_url", "url"} else {"source_url"};
  }

  /** Those years are the known years of the decodings, in order. */
  lemma {:induction false} YearsAre(a: seq<Decoded>, b: seq<Decoded>)
    ensures Years(a + b) == Years(a) + Years(b)
  {
    if a == [] {
      assert a + b == b;
    } else {
      YearsAre(a[1..], b);
      assert (a + b)[1..] == a[1..] + b;
      Associative(if a[0].year == Null then [] else [a[0].year], Years(a[1..]), Years(b));
    }
  }

  lemma YearOf(d: Decoded)
    ensures Years([d]) == if d.year == Null then [] else [d.year]
  {
    assert [d][1..] == [];
  }

  /** A merge leaves every overriding hint in place. */
  lemma MergedOverrides(t: Tools, target: Row, hints: Row, c: Column)
    requires c in OVERRIDES && Get(hints, c) != Null
    ensures c in Merged(t, target, hints) && Merged(t, target, hints)[c] == hints[c]
  {
    assert HINT_KEYS[0] == "chassis_code" && HINT_KEYS[6] == "grade" && HINT_KEYS[7] == "market"
        && HINT_KEYS[8] == "vin_prefix" && HINT_KEYS[9] == "vid";
    assert c in HINT_KEYS;
    assert HINT_KEYS[..|HINT_KEYS|] == HINT_KEYS;
    WithHintsIs(t, target, hints, |HINT_KEYS|, c);
    EnrichedKeeps(t, WithHints(t, target, hints, |HINT_KEYS|), c);
  }

  /** Besides the example URL and the notes on several decodings, a merge leaves every column that the
      target or the hints set as the hints decide, whatever enriching adds. */
  ghost predicate BlobStamped(t: Tools, before: Option<Row>, after: Option<Row>, hints: Row) {
    && after.Some?
    && forall c :: c !in {"source_url", "url", "_year_expand", "_vin_prefix"} ==>
         var value := Hinted(t, c, if before.Some? then Get(before.value, c) else Null, Get(hints, c));
         value != Null ==> Get(after.value, c) == value
  }

  lemma MergedStamps(t: Tools, target: Option<Row>, hints: Row)
    ensures BlobStamped(t, target, Some(Merged(t, OrEmpty(target), hints)), hints)
  {
    var hinted := WithHints(t, OrEmpty(target), hints, |HINT_KEYS|);
    forall c | c !in {"source_url", "url", "_year_expand", "_vin_prefix"} && Get(hinted, c) != Null
      ensures Get(Merged(t, OrEmpty(target), hints), c) == Get(hinted, c)
    {
      EnrichedLeaves(t, hinted, c);
    }
    forall c ensures Get(hinted, c) == Hinted(t, c, if target.Some? then Get(target.value, c) else Null, Get(hints, c)) {
      HintedIs(t, OrEmpty(target), hints, c);
    }
  }

  lemma EnrichedLeaves(t: Tools, m: Row, c: Column)
    requires c !in {"source_url", "url", "_year_expand", "_vin_prefix"} && Get(m, c) != Null
    ensures Get(Enriched(t, m), c) == Get(m, c)
  {
    EnrichedIs(t, m, c);
  }

  // ----- Which rows are due -----

  function BlobVid(t: Tools, blob: Option<Row>): Option<Vid> {
    if blob.Some? && !Falsy(Get(blob.value, "vid")) then Some(Text(t, Get(blob.value, "vid"))) else None
  }

  function RowVid(t: Tools, r: Scraped): Option<Vid>
    requires r.payload.Readable?
  {
    if BlobVid(t, r.context).Some? then BlobVid(t, r.context)
    else if BlobVid(t, r.payload.vehicle).Some? then BlobVid(t, r.payload.vehicle)
    else t.urlVid(r.url)
  }

  predicate NeedsEnrichment(t: Tools, blob: Option<Row>, hints: Row) {
    var chassis := Get(hints, "chassis_code");
    && !Falsy(chassis)
    && (blob.None?
        || blob.value == map[]
        || Falsy(Get(blob.value, "chassis_code"))
        || (!Falsy(Get(hints, "vin_prefix")) && Falsy(Get(blob.value, "vin_prefix")))
        || (Get(blob.value, "chassis_code") != chassis
            && t.upper(TextOrEmpty(t, Get(blob.value, "chassis_code"))) != t.upper(Text(t, chassis))))
  }

  predicate Due(t: Tools, r: Scraped, vid: Vid, hints: Row) {
    && t.candidate(r, vid)
    && r.payload.Readable?
    && RowVid(t, r) == Some(vid)
    && (NeedsEnrichment(t, r.context, hints) || NeedsEnrichment(t, r.payload.vehicle, hints))
  }

  function OrEmpty(blob: Option<Row>): Row {
    if blob.Some? then blob.value else map[]
  }

  function Stamped(t: Tools, r: Scraped, hints: Row): Scraped
    requires r.payload.Readable?
  {
    Scraped(r.url, r.payload.(vehicle := Some(Merged(t, OrEmpty(r.payload.vehicle), hints))),
            Some(Merged(t, OrEmpty(r.context), hints)))
  }

  function Visited(t: Tools, r: Scraped, vid: Vid, hints: Row): Scraped {
    if Due(t, r, vid, hints) then Stamped(t, r, hints) else r
  }

  /** Hints that a backfill can stamp: they name the vehicle and its chassis. */
  predicate Identifies(t: Tools, hints: Row, vid: Vid) {
    !Falsy(Get(hints, "chassis_code")) && BlobVid(t, Some(hints)) == Some(vid)
  }

  lemma MergedNeedsNothing(t: Tools, target: Row, hints: Row, vid: Vid)
    requires Identifies(t, hints, vid)
    ensures !NeedsEnrichment(t, Some(Merged(t, target, hints)), hints)
    ensures BlobVid(t, Some(Merged(t, target, hints))) == Some(vid)
  {
    MergedOverrides(t, target, hints, "chassis_code");
    MergedOverrides(t, target, hints, "vid");
    if !Falsy(Get(hints, "vin_prefix")) {
      MergedOverrides(t, target, hints, "vin_prefix");
    }
  }

  /** A visited row is no longer due for its vehicle, and was not made due for another. */
  lemma VisitSettles(t: Tools, r: Scraped, vid: Vid, hints: Row)
    requires Identifies(t, hints, vid)
    ensures !Due(t, Visited(t, r, vid, hints), vid, hints)
    ensures forall w, g :: w != vid && Due(t, Visited(t, r, vid, hints), w, g) ==> Due(t, r, w, g)
  {
    if Due(t, r, vid, hints) {
      MergedNeedsNothing(t, OrEmpty(r.payload.vehicle), hints, vid);
      MergedNeedsNothing(t, OrEmpty(r.context), hints, vid);
    }
  }

  // ----- What a stamped row carries -----

  /** The row is one of this vehicle: the vid is that of its context, if it has one, else that of the
      vehicle in its payload, else that of its URL. */
  predicate OfVehicle(t: Tools, r: Scraped, vid: Vid) {
    && t.candidate(r, vid) && r.payload.Readable?
    && if SetIn(r.context, "vid") then ReadsAs(t, r.context.value["vid"], vid)
       else if SetIn(r.payload.vehicle, "vid") then ReadsAs(t, r.payload.vehicle.value["vid"], vid)
       else t.urlVid(r.url) == Some(vid)
  }

  predicate SameUpToCase(t: Tools, a: Value, b: Value) {
    var x, y := if a.Num? then t.show(a.number) else if a.Str? then a.text else "",
                if b.Num? then t.show(b.number) else if b.Str? then b.text else "";
    t.upper(x) == t.upper(y)
  }

  /** The blob has the chassis of the hints, up to case, and a VIN prefix if the hints have one. */
  predicate Names(t: Tools, blob: Option<Row>, hints: Row)
    requires SetIn(Some(hints), "chassis_code")
  {
    && SetIn(blob, "chassis_code")
    && (blob.value["chassis_code"] == hints["chassis_code"]
        || SameUpToCase(t, blob.value["chassis_code"], hints["chassis_code"]))
    && (SetIn(Some(hints), "vin_prefix") ==> SetIn(blob, "vin_prefix"))
  }

  predicate Named(t: Tools, r: Scraped, hints: Row)
    requires SetIn(Some(hints), "chassis_code")
  {
    r.payload.Readable? && Names(t, r.context, hints) && Names(t, r.payload.vehicle, hints)
  }

  /** A row is due exactly when the hints name a chassis, it is one of the vehicle, and one of its blobs
      lacks the identity. */
  lemma DueIs(t: Tools, r: Scraped, vid: Vid, hints: Row)
    ensures Due(t, r, vid, hints) <==> SetIn(Some(hints), "chassis_code") && OfVehicle(t, r, vid) && !Named(t, r, hints)
  {
  }

  /** The row was stamped with the hints, and keeps everything else it had. */
  ghost predicate StampedBy(t: Tools, before: Scraped, after: Scraped, hints: Row) {
    && after.url == before.url && before.payload.Readable? && after.payload.Readable?
    && after.payload.rest == before.payload.rest
    && BlobStamped(t, before.payload.vehicle, after.payload.vehicle, hints)
    && BlobStamped(t, before.context, after.context, hints)
  }

  lemma StampedIs(t: Tools, r: Scraped, hints: Row)
    requires r.payload.Readable?
    ensures StampedBy(t, r, Stamped(t, r, hints), hints)
  {
    MergedStamps(t, r.payload.vehicle, hints);
    MergedStamps(t, r.context, hints);
  }

  /** A visit leaves a row of the vehicle with the identity in both blobs, and changes no row that has it
      there already or is of another vehicle. */
  lemma VisitNames(t: Tools, r: Scraped, vid: Vid, hints: Row)
    requires SetIn(Some(hints), "chassis_code")
    ensures OfVehicle(t, r, vid) ==> Named(t, Visited(t, r, vid, hints), hints)
    ensures !OfVehicle(t, r, vid) || Named(t, r, hints) ==> Visited(t, r, vid, hints) == r
    ensures Visited(t, r, vid, hints) == r || StampedBy(t, r, Visited(t, r, vid, hints), hints)
  {
    DueIs(t, r, vid, hints);
    if Due(t, r, vid, hints) {
      MergedNames(t, OrEmpty(r.payload.vehicle), hints);
      MergedNames(t, OrEmpty(r.context), hints);
      StampedIs(t, r, hints);
    }
  }

  lemma MergedNames(t: Tools, target: Row, hints: Row)
    requires SetIn(Some(hints), "chassis_code")
    ensures Names(t, Some(Merged(t, target, hints)), hints)
  {
    MergedOverrides(t, target, hints, "chassis_code");
    if SetIn(Some(hints), "vin_prefix") {
      MergedOverrides(t, target, hints, "vin_prefix");
    }
  }

  // ----- All identities -----

  function Picked(identity: Row): Row {
    (map c | c in HINT_KEYS && Get(identity, c) != Null :: Get(identity, c))
    + if Falsy(Get(identity, "source_url")) then map[] else map["source_url" := Get(identity, "source_url")]
  }

  function IdentityHints(t: Tools, identity: Row): Row {
    Enriched(t, Picked(identity))
  }

  /** The hints of an identity start from its own hint columns, and its page as the example URL. */
  lemma PickedIs(identity: Row, c: Column)
    ensures c in Picked(identity)
       <==> || (c == "source_url" && SetIn(Some(identity), c))
            || (c in {"chassis_code", "model_variant", "engine_code", "production_year", "year_start", "year_end", "grade",
                      "market", "vin_prefix", "vid"} && c in identity && identity[c] != Null)
    ensures c in Picked(identity) ==> Picked(identity)[c] == identity[c]
  {
    HintKeysAre(c);
  }

  /** The hint columns that an identity sets. */
  function OwnHints(identity: Row): Row {
    map k | k in HINT_KEYS && k in identity && identity[k] != Null :: identity[k]
  }

  lemma PickedBase(identity: Row)
    ensures WithoutExample(Picked(identity)) == OwnHints(identity)
  {
    HintKeysAre("url");
    HintKeysAre("source_url");
  }

  lemma PickedExample(identity: Row)
    ensures Get(Picked(identity), "source_url") == if SetIn(Some(identity), "source_url") then identity["source_url"] else Null
    ensures Get(Picked(identity), "url") == Null
    ensures SetIn(Some(Picked(identity)), "chassis_code") == SetIn(Some(identity), "chassis_code")
  {
    PickedIs(identity, "source_url");
    PickedIs(identity, "chassis_code");
    PickedIs(identity, "url");
  }

  /** The hints of an identity: its own hint columns, what the first decoding of its chassis has in the
      others, and the notes on several decodings. Its page is only an example for the decoder. */
  lemma IdentityHintsAre(t: Tools, identity: Row, c: Column)
    ensures var own := OwnHints(identity);
            var page := if SetIn(Some(identity), "source_url") then identity["source_url"] else Null;
            var decodings := if SetIn(Some(identity), "chassis_code") then t.decode(own, page) else [];
            Get(IdentityHints(t, identity), c)
            == if |decodings| > 1 && c == "_vin_prefix" then decodings[0].prefix
               else if |decodings| > 1 && c == "_year_expand" then t.years(Years(decodings))
               else if c in own then own[c]
               else if |decodings| > 0 then Get(decodings[0].hints, c)
               else Null
  {
    PickedBase(identity);
    PickedExample(identity);
    EnrichedIs(t, Picked(identity), c);
  }

  function VidOf(t: Tools, identity: Row): Vid {
    TextOrEmpty(t, Get(identity, "vid"))
  }

  /** Identities that a backfill of all of them skips. */
  predicate Skipped(t: Tools, identity: Row) {
    VidOf(t, identity) == "" || Falsy(Get(identity, "chassis_code"))
  }

  lemma HintsIdentify(t: Tools, identity: Row)
    requires !Skipped(t, identity)
    ensures Identifies(t, IdentityHints(t, identity), VidOf(t, identity))
  {
    assert HINT_KEYS[0] == "chassis_code" && HINT_KEYS[9] == "vid";
    EnrichedKeeps(t, Picked(identity), "chassis_code");
    EnrichedKeeps(t, Picked(identity), "vid");
  }

  /** The table of identities has one per vid. */
  ghost predicate OnePerVid(t: Tools, known: seq<Row>) {
    forall i, j :: 0 <= i < j < |known| ==> VidOf(t, known[i]) != VidOf(t, known[j])
  }

  predicate DueFor(t: Tools, r: Scraped, identity: Row) {
    !Skipped(t, identity) && Due(t, r, VidOf(t, identity), IdentityHints(t, identity))
  }

  /** One row after every identity was applied, in order. */
  function After(t: Tools, r: Scraped, known: seq<Row>): Scraped {
    if known == [] then r
    else
      var before, identity := After(t, r, known[..|known| - 1]), known[|known| - 1];
      if Skipped(t, identity) then before else Visited(t, before, VidOf(t, identity), IdentityHints(t, identity))
  }

  lemma VisitForSettles(t: Tools, r: Scraped, identity: Row, other: Row)
    requires !Skipped(t, identity) && VidOf(t, identity) != VidOf(t, other)
    ensures !DueFor(t, Visited(t, r, VidOf(t, identity), IdentityHints(t, identity)), identity)
    ensures DueFor(t, Visited(t, r, VidOf(t, identity), IdentityHints(t, identity)), other) ==> DueFor(t, r, other)
  {
    HintsIdentify(t, identity);
    VisitSettles(t, r, VidOf(t, identity), IdentityHints(t, identity));
  }

  /** No identity has anything left to stamp on the row. */
  lemma {:induction false} NothingLeft(t: Tools, r: Scraped, known: seq<Row>, i: nat)
    requires OnePerVid(t, known) && i < |known|
    ensures !DueFor(t, After(t, r, known), known[i])
  {
    var init, last := known[..|known| - 1], known[|known| - 1];
    if i == |known| - 1 {
      if !Skipped(t, last) {
        HintsIdentify(t, last);
        VisitSettles(t, After(t, r, init), VidOf(t, last), IdentityHints(t, last));
      }
    } else {
      NothingLeft(t, r, init, i);
      if !Skipped(t, last) {
        VisitForSettles(t, After(t, r, init), last, known[i]);
      }
    }
  }

  /** A row that no identity is due for stays as it is. */
  lemma {:induction false} UndueStays(t: Tools, r: Scraped, known: seq<Row>)
    requires forall identity :: identity in known ==> !DueFor(t, r, identity)
    ensures After(t, r, known) == r
  {
    if known != [] {
      var init, last := known[..|known| - 1], known[|known| - 1];
      assert !DueFor(t, r, last);
      forall identity | identity in init ensures !DueFor(t, r, identity) {
        assert identity in known;
      }
      UndueStays(t, r, init);
    }
  }

  /** A row is stamped at most once, with the hints of its own vehicle. */
  lemma {:induction false} StampedOnce(t: Tools, r: Scraped, known: seq<Row>, i: nat)
    requires OnePerVid(t, known) && i < |known| && DueFor(t, r, known[i])
    ensures After(t, r, known) == Stamped(t, r, IdentityHints(t, known[i]))
  {
    var init, last := known[..|known| - 1], known[|known| - 1];
    if i == |known| - 1 {
      forall identity | identity in init ensures !DueFor(t, r, identity) {
        var j :| 0 <= j < |init| && init[j] == identity;
        assert VidOf(t, known[j]) != VidOf(t, known[i]);
      }
      UndueStays(t, r, init);
    } else {
      StampedOnce(t, r, init, i);
      if !Skipped(t, last) {
        assert VidOf(t, known[i]) != VidOf(t, last);
        VisitForSettles(t, r, known[i], last);
      }
    }
  }

  /** An identity that a backfill applies, for a row of its vehicle. */
  predicate Owns(t: Tools, identity: Row, r: Scraped) {
    && SetIn(Some(identity), "chassis_code") && SetIn(Some(identity), "vid")
    && ReadsAs(t, identity["vid"], VidOf(t, identity)) && VidOf(t, identity) != ""
    && OfVehicle(t, r, VidOf(t, identity))
  }

  /** The hints of such an identity have its own chassis, and its own VIN prefix if it has one. */
  lemma HintsOfOwner(t: Tools, identity: Row, r: Scraped)
    requires Owns(t, identity, r)
    ensures !Skipped(t, identity)
    ensures var hints := IdentityHints(t, identity);
            && SetIn(Some(hints), "chassis_code") && hints["chassis_code"] == identity["chassis_code"]
            && (SetIn(Some(identity), "vin_prefix") ==>
                  SetIn(Some(hints), "vin_prefix") && hints["vin_prefix"] == identity["vin_prefix"])
  {
    assert HINT_KEYS[0] == "chassis_code" && HINT_KEYS[8] == "vin_prefix";
    EnrichedKeeps(t, Picked(identity), "chassis_code");
    if SetIn(Some(identity), "vin_prefix") {
      EnrichedKeeps(t, Picked(identity), "vin_prefix");
    }
  }

  /** What a backfill makes of a row of a known vehicle: both of its blobs carry the identity, and it
      changes only if one of them did not. */
  lemma OwnedRow(t: Tools, r: Scraped, known: seq<Row>, i: nat)
    requires OnePerVid(t, known) && i < |known| && Owns(t, known[i], r)
    ensures SetIn(Some(IdentityHints(t, known[i])), "chassis_code")
    ensures Named(t, After(t, r, known), IdentityHints(t, known[i]))
    ensures Named(t, r, IdentityHints(t, known[i])) ==> After(t, r, known) == r
    ensures After(t, r, known) == r || StampedBy(t, r, After(t, r, known), IdentityHints(t, known[i]))
  {
    var vid, hints := VidOf(t, known[i]), IdentityHints(t, known[i]);
    HintsOfOwner(t, known[i], r);
    DueIs(t, r, vid, hints);
    VisitNames(t, r, vid, hints);
    if Due(t, r, vid, hints) {
      StampedOnce(t, r, known, i);
    } else {
      UndueOwned(t, r, known, i, vid);
    }
  }

  /** No other identity is due for a row of this vehicle. */
  lemma UndueOwned(t: Tools, r: Scraped, known: seq<Row>, i: nat, vid: Vid)
    requires OnePerVid(t, known) && i < |known| && VidOf(t, known[i]) == vid
    requires OfVehicle(t, r, vid) && !DueFor(t, r, known[i])
    ensures After(t, r, known) == r
  {
    assert RowVid(t, r) == Some(vid);
    forall identity | identity in known ensures !DueFor(t, r, identity) {
      var j :| 0 <= j < |known| && known[j] == identity;
      assert j != i ==> VidOf(t, known[j]) != vid;
    }
    UndueStays(t, r, known);
  }

  /** A row of no known vehicle stays as it is. */
  lemma UnownedRow(t: Tools, r: Scraped, known: seq<Row>)
    requires forall identity :: identity in known ==> !Owns(t, identity, r)
    ensures After(t, r, known) == r
  {
    forall identity | identity in known ensures !DueFor(t, r, identity) {
      if DueFor(t, r, identity) {
        HintsIdentify(t, identity);
        DueIs(t, r, VidOf(t, identity), IdentityHints(t, identity));
        assert Owns(t, identity, r);
      }
    }
    UndueStays(t, r, known);
  }

  /** An identity is due for a row exactly when the row is of its vehicle and a backfill changes it. */
  lemma DueIsChanged(t: Tools, r: Scraped, known: seq<Row>, i: nat)
    requires OnePerVid(t, known) && i < |known|
    ensures DueFor(t, r, known[i]) <==> Owns(t, known[i], r) && After(t, r, known) != r
  {
    if Owns(t, known[i], r) {
      HintsOfOwner(t, known[i], r);
      OwnedRow(t, r, known, i);
      DueIs(t, r, VidOf(t, known[i]), IdentityHints(t, known[i]));
    }
    if DueFor(t, r, known[i]) {
      HintsIdentify(t, known[i]);
      DueIs(t, r, VidOf(t, known[i]), IdentityHints(t, known[i]));
    }
  }

  // ----- The table of scraped rows -----

  /** After the backfill of one vehicle its rows carry the hints and keep what else they had, and the
      others are as before. */
  ghost predicate RowsNamed(t: Tools, before: seq<Scraped>, after: seq<Scraped>, vid: Vid, hints: Row) {
    && |after| == |before| && SetIn(Some(hints), "chassis_code")
    && forall k :: 0 <= k < |before| ==>
         && (OfVehicle(t, before[k], vid) ==> Named(t, after[k], hints))
         && (after[k] == before[k] || (OfVehicle(t, before[k], vid) && StampedBy(t, before[k], after[k], hints)))
  }

  lemma VisitedAreNamed(t: Tools, rows: seq<Scraped>, vid: Vid, hints: Row)
    requires SetIn(Some(hints), "chassis_code")
    ensures RowsNamed(t, rows, VisitedAll(t, rows, vid, hints), vid, hints)
  {
    forall k | 0 <= k < |rows|
      ensures OfVehicle(t, rows[k], vid) ==> Named(t, Visited(t, rows[k], vid, hints), hints)
      ensures Visited(t, rows[k], vid, hints) == rows[k]
           || (OfVehicle(t, rows[k], vid) && StampedBy(t, rows[k], Visited(t, rows[k], vid, hints), hints))
    {
      VisitNames(t, rows[k], vid, hints);
    }
  }

  /** The row carries the identity. */
  predicate Carries(t: Tools, r: Scraped, identity: Row) {
    SetIn(Some(IdentityHints(t, identity)), "chassis_code") && Named(t, r, IdentityHints(t, identity))
  }

  /** After the backfill of all vehicles every row carries the identity of its own one, if that is
      known; a row that did before, or has no known one, is as before. */
  ghost predicate AllNamed(t: Tools, before: seq<Scraped>, after: seq<Scraped>, known: seq<Row>) {
    && |after| == |before|
    && (forall k, i :: 0 <= k < |before| && 0 <= i < |known| && Owns(t, known[i], before[k]) ==>
          && Carries(t, after[k], known[i]) && (Carries(t, before[k], known[i]) ==> after[k] == before[k])
          && (after[k] == before[k] || StampedBy(t, before[k], after[k], IdentityHints(t, known[i]))))
    && forall k :: 0 <= k < |before| && (forall i :: 0 <= i < |known| ==> !Owns(t, known[i], before[k])) ==>
         after[k] == before[k]
  }

  lemma AfterAllAreNamed(t: Tools, rows: seq<Scraped>, known: seq<Row>)
    requires OnePerVid(t, known)
    ensures AllNamed(t, rows, AfterAll(t, rows, known), known)
  {
    var after := AfterAll(t, rows, known);
    forall k, i | 0 <= k < |rows| && 0 <= i < |known| && Owns(t, known[i], rows[k])
      ensures Carries(t, after[k], known[i]) && (Carries(t, rows[k], known[i]) ==> after[k] == rows[k])
      ensures after[k] == rows[k] || StampedBy(t, rows[k], after[k], IdentityHints(t, known[i]))
    {
      OwnedRow(t, rows[k], known, i);
    }
    forall k | 0 <= k < |rows| && (forall i :: 0 <= i < |known| ==> !Owns(t, known[i], rows[k]))
      ensures after[k] == rows[k]
    {
      UnownedRow(t, rows[k], known);
    }
  }

  function VisitedAll(t: Tools, rows: seq<Scraped>, vid: Vid, hints: Row): (s: seq<Scraped>)
    ensures |s| == |rows|
  {
    seq(|rows|, i requires 0 <= i < |rows| => Visited(t, rows[i], vid, hints))
  }

  function DueCount(t: Tools, rows: seq<Scraped>, vid: Vid, hints: Row): nat {
    if rows == [] then 0
    else DueCount(t, rows[..|rows| - 1], vid, hints) + if Due(t, rows[|rows| - 1], vid, hints) then 1 else 0
  }

  function AfterAll(t: Tools, rows: seq<Scraped>, known: seq<Row>): (s: seq<Scraped>)
    ensures |s| == |rows|
  {
    seq(|rows|, i requires 0 <= i < |rows| => After(t, rows[i], known))
  }

  /** The stored identity of a vid, as the table would return it. */
  function Known(t: Tools, known: seq<Row>, vid: Vid): Option<Row> {
    if known == [] then None
    else if VidOf(t, known[0]) == vid then Some(known[0])
    else Known(t, known[1..], vid)
  }

  /** The hints that a backfill of one vid uses, if it has any. */
  function Resolved(t: Tools, known: seq<Row>, vid: Vid, hints: Option<Row>): Option<Row> {
    var found :=
      if hints.Some? && !Falsy(Get(hints.value, "chassis_code")) then hints
      else if Known(t, known, vid).Some? then Some(IdentityHints(t, Known(t, known, vid).value))
      else None;
    if found.Some? && !Falsy(Get(found.value, "chassis_code")) then found else None
  }

  /** They are the given ones if those name a chassis, else those of the stored identity if they do. */
  lemma ResolvedIs(t: Tools, known: seq<Row>, vid: Vid, hints: Option<Row>)
    requires OnePerVid(t, known)
    ensures SetIn(hints, "chassis_code") ==> Resolved(t, known, vid, hints) == hints
    ensures !SetIn(hints, "chassis_code") ==>
              forall i :: 0 <= i < |known| && VidOf(t, known[i]) == vid ==>
                var stored := Some(IdentityHints(t, known[i]));
                Resolved(t, known, vid, hints) == if SetIn(stored, "chassis_code") then stored else None
    ensures !SetIn(hints, "chassis_code") && (forall i :: 0 <= i < |known| ==> VidOf(t, known[i]) != vid) ==>
              Resolved(t, known, vid, hints) == None
  {
    KnownIs(t, known, vid);
  }

  lemma {:induction false} KnownIs(t: Tools, known: seq<Row>, vid: Vid)
    requires OnePerVid(t, known)
    ensures forall i :: 0 <= i < |known| && VidOf(t, known[i]) == vid ==> Known(t, known, vid) == Some(known[i])
    ensures (forall i :: 0 <= i < |known| ==> VidOf(t, known[i]) != vid) ==> Known(t, known, vid) == None
  {
    if known != [] {
      var rest := known[1..];
      assert forall i :: 0 <= i < |rest| ==> rest[i] == known[i + 1];
      KnownIs(t, rest, vid);
      forall i | 0 <= i < |known| && VidOf(t, known[i]) == vid ensures Known(t, known, vid) == Some(known[i]) {
        if i > 0 {
          assert rest[i - 1] == known[i];
        }
      }
    }
  }

  lemma {:induction false} NoneDue(t: Tools, rows: seq<Scraped>, vid: Vid, hints: Row)
    ensures DueCount(t, rows, vid, hints) == 0 <==> forall r :: r in rows ==> !Due(t, r, vid, hints)
  {
    if rows != [] {
      var init, last := rows[..|rows| - 1], rows[|rows| - 1];
      NoneDue(t, init, vid, hints);
      assert rows == init + [last];
    }
  }

  /** How many of the rows an identity is due for. */
  function DueRows(t: Tools, rows: seq<Scraped>, identity: Row): nat {
    if Skipped(t, identity) then 0 else DueCount(t, rows, VidOf(t, identity), IdentityHints(t, identity))
  }

  function DueTotal(t: Tools, rows: seq<Scraped>, known: seq<Row>): nat {
    if known == [] then 0 else DueTotal(t, rows, known[..|known| - 1]) + DueRows(t, rows, known[|known| - 1])
  }

  function DueVids(t: Tools, rows: seq<Scraped>, known: seq<Row>): nat {
    if known == [] then 0
    else DueVids(t, rows, known[..|known| - 1]) + if DueRows(t, rows, known[|known| - 1]) > 0 then 1 else 0
  }

  /** The identities applied before leave a later one due for the same rows. */
  lemma {:induction false} DueUntouched(t: Tools, r: Scraped, known: seq<Row>, identity: Row)
    requires !Skipped(t, identity) && forall other :: other in known ==> VidOf(t, other) != VidOf(t, identity)
    ensures DueFor(t, After(t, r, known), identity) == DueFor(t, r, identity)
    ensures DueFor(t, r, identity) ==> After(t, r, known) == r
  {
    if known != [] {
      var init, last := known[..|known| - 1], known[|known| - 1];
      assert last in known;
      forall other | other in init ensures VidOf(t, other) != VidOf(t, identity) {
        assert other in known;
      }
      DueUntouched(t, r, init, identity);
      if !Skipped(t, last) {
        VisitForSettles(t, After(t, r, init), last, identity);
      }
    }
  }

  lemma {:induction false} DueCountUntouched(t: Tools, rows: seq<Scraped>, known: seq<Row>, identity: Row)
    requires forall other :: other in known ==> VidOf(t, other) != VidOf(t, identity)
    ensures DueRows(t, AfterAll(t, rows, known), identity) == DueRows(t, rows, identity)
  {
    if rows != [] {
      var init, last := rows[..|rows| - 1], rows[|rows| - 1];
      DueCountUntouched(t, init, known, identity);
      var after := AfterAll(t, rows, known);
      assert after[..|after| - 1] == AfterAll(t, init, known);
      if !Skipped(t, identity) {
        DueUntouched(t, last, known, identity);
      }
    } else {
      assert AfterAll(t, rows, known) == rows;
    }
  }

  // ----- What the counts count -----

  /** Which rows of a table are no longer as they were. */
  function Changed(before: seq<Scraped>, after: seq<Scraped>): set<nat>
    requires |before| == |after|
  {
    Where(seq(|before|, k requires 0 <= k < |before| => before[k] != after[k]))
  }

  lemma ChangedAt(before: seq<Scraped>, after: seq<Scraped>)
    requires |before| == |after|
    ensures forall k: nat :: k in Changed(before, after) <==> k < |before| && before[k] != after[k]
  {
  }

  lemma NoneChanged(rows: seq<Scraped>)
    ensures |Changed(rows, rows)| == 0
  {
    assert Changed(rows, rows) == {};
  }

  lemma OneMoreChanged(before: seq<Scraped>, after: seq<Scraped>, r: Scraped, s: Scraped)
    requires |before| == |after|
    ensures |Changed(before + [r], after + [s])| == |Changed(before, after)| + if r != s then 1 else 0
  {
    var flags := seq(|before|, k requires 0 <= k < |before| => before[k] != after[k]);
    var b, a := before + [r], after + [s];
    assert seq(|b|, k requires 0 <= k < |b| => b[k] != a[k]) == flags + [r != s];
    WhereOneMore(flags, r != s);
  }

  /** The count of one vehicle's backfill is the number of rows that it changes. */
  lemma {:induction false} DueCountIs(t: Tools, rows: seq<Scraped>, vid: Vid, hints: Row)
    requires SetIn(Some(hints), "chassis_code")
    ensures DueCount(t, rows, vid, hints) == |Changed(rows, VisitedAll(t, rows, vid, hints))|
  {
    if rows != [] {
      var init, last := rows[..|rows| - 1], rows[|rows| - 1];
      DueCountIs(t, init, vid, hints);
      VisitNames(t, last, vid, hints);
      DueIs(t, last, vid, hints);
      OneMoreChanged(init, VisitedAll(t, init, vid, hints), last, Visited(t, last, vid, hints));
      assert init + [last] == rows;
      assert VisitedAll(t, init, vid, hints) + [Visited(t, last, vid, hints)] == VisitedAll(t, rows, vid, hints);
    }
  }

  function DueFlags(t: Tools, rows: seq<Scraped>, identity: Row): (flags: seq<bool>)
    ensures |flags| == |rows|
  {
    seq(|rows|, k requires 0 <= k < |rows| => DueFor(t, rows[k], identity))
  }

  /** The rows an identity is due for. */
  function DueSet(t: Tools, rows: seq<Scraped>, identity: Row): set<nat> {
    Where(DueFlags(t, rows, identity))
  }

  lemma {:induction false} DueRowsIs(t: Tools, rows: seq<Scraped>, identity: Row)
    ensures DueRows(t, rows, identity) == |DueSet(t, rows, identity)|
  {
    if rows == [] {
    } else {
      var init, last := rows[..|rows| - 1], rows[|rows| - 1];
      DueRowsIs(t, init, identity);
      assert DueFlags(t, rows, identity) == DueFlags(t, init, identity) + [DueFor(t, last, identity)];
      WhereOneMore(DueFlags(t, init, identity), DueFor(t, last, identity));
    }
  }

  lemma ChangedOnce(t: Tools, r: Scraped, known: seq<Row>, identity: Row)
    requires forall other :: other in known ==> VidOf(t, other) != VidOf(t, identity)
    ensures After(t, r, known + [identity]) != r <==> After(t, r, known) != r || DueFor(t, r, identity)
    ensures DueFor(t, r, identity) ==> After(t, r, known) == r
  {
    assert (known + [identity])[..|known|] == known;
    if !Skipped(t, identity) {
      var vid, hints := VidOf(t, identity), IdentityHints(t, identity);
      DueUntouched(t, r, known, identity);
      HintsIdentify(t, identity);
      DueIs(t, r, vid, hints);
      VisitNames(t, r, vid, hints);
    }
  }

  /** One more identity changes, besides the rows changed before, exactly those it is due for. */
  lemma ChangedByLast(t: Tools, rows: seq<Scraped>, known: seq<Row>, identity: Row)
    requires forall other :: other in known ==> VidOf(t, other) != VidOf(t, identity)
    ensures Changed(rows, AfterAll(t, rows, known + [identity])) == Changed(rows, AfterAll(t, rows, known)) + DueSet(t, rows, identity)
    ensures Changed(rows, AfterAll(t, rows, known)) !! DueSet(t, rows, identity)
  {
    forall k | 0 <= k < |rows|
      ensures After(t, rows[k], known + [identity]) != rows[k]
         <==> After(t, rows[k], known) != rows[k] || DueFor(t, rows[k], identity)
      ensures DueFor(t, rows[k], identity) ==> After(t, rows[k], known) == rows[k]
    {
      ChangedOnce(t, rows[k], known, identity);
    }
  }

  /** The count of rows of a backfill of all vehicles is the number of rows that it changes, and no row
      is counted twice. */
  lemma {:induction false} DueTotalIs(t: Tools, rows: seq<Scraped>, known: seq<Row>)
    requires OnePerVid(t, known)
    ensures DueTotal(t, rows, known) == |Changed(rows, AfterAll(t, rows, known))|
  {
    if known == [] {
      assert AfterAll(t, rows, known) == rows;
      NoneChanged(rows);
    } else {
      var init, last := known[..|known| - 1], known[|known| - 1];
      DueTotalIs(t, rows, init);
      EarlierVidsDiffer(t, known, |known| - 1);
      DueTotalMore(t, rows, init, last);
      assert init + [last] == known;
    }
  }

  lemma DueTotalMore(t: Tools, rows: seq<Scraped>, known: seq<Row>, identity: Row)
    requires forall other :: other in known ==> VidOf(t, other) != VidOf(t, identity)
    requires DueTotal(t, rows, known) == |Changed(rows, AfterAll(t, rows, known))|
    ensures DueTotal(t, rows, known + [identity]) == |Changed(rows, AfterAll(t, rows, known + [identity]))|
  {
    var more := known + [identity];
    assert more[..|more| - 1] == known && more[|more| - 1] == identity;
    ChangesMore(t, rows, known, identity);
  }

  lemma ChangesMore(t: Tools, rows: seq<Scraped>, known: seq<Row>, identity: Row)
    requires forall other :: other in known ==> VidOf(t, other) != VidOf(t, identity)
    ensures |Changed(rows, AfterAll(t, rows, known + [identity]))|
         == |Changed(rows, AfterAll(t, rows, known))| + DueRows(t, rows, identity)
  {
    DueRowsIs(t, rows, identity);
    ChangedByLast(t, rows, known, identity);
  }

  /** The identity is the one of a row that changes. */
  ghost predicate Stamps(t: Tools, before: seq<Scraped>, after: seq<Scraped>, identity: Row)
    requires |before| == |after|
  {
    exists k :: k in Changed(before, after) && Owns(t, identity, before[k])
  }

  ghost function Stamping(t: Tools, before: seq<Scraped>, after: seq<Scraped>, known: seq<Row>): set<nat>
    requires |before| == |after|
  {
    set i: nat | 0 <= i < |known| && Stamps(t, before, after, known[i])
  }

  function DueAny(t: Tools, rows: seq<Scraped>, known: seq<Row>): (flags: seq<bool>)
    ensures |flags| == |known|
  {
    seq(|known|, i requires 0 <= i < |known| => DueRows(t, rows, known[i]) > 0)
  }

  lemma DueAnyOneMore(t: Tools, rows: seq<Scraped>, known: seq<Row>, identity: Row)
    ensures DueAny(t, rows, known + [identity]) == DueAny(t, rows, known) + [DueRows(t, rows, identity) > 0]
  {
  }

  ghost predicate DueVidsCounted(t: Tools, rows: seq<Scraped>, known: seq<Row>) {
    DueVids(t, rows, known) == |Where(DueAny(t, rows, known))|
  }

  lemma DueVidsNone(t: Tools, rows: seq<Scraped>)
    ensures DueVidsCounted(t, rows, [])
  {
    WhereNothing(DueAny(t, rows, []));
  }

  lemma DueVidsMore(t: Tools, rows: seq<Scraped>, known: seq<Row>, identity: Row)
    requires DueVidsCounted(t, rows, known)
    ensures DueVidsCounted(t, rows, known + [identity])
  {
    var more := known + [identity];
    assert more[..|more| - 1] == known && more[|more| - 1] == identity;
    DueAnyOneMore(t, rows, known, identity);
    WhereOneMore(DueAny(t, rows, known), DueRows(t, rows, identity) > 0);
  }

  lemma {:induction false} DueVidsAre(t: Tools, rows: seq<Scraped>, known: seq<Row>)
    ensures DueVidsCounted(t, rows, known)
  {
    if known == [] {
      DueVidsNone(t, rows);
    } else {
      var init, last := known[..|known| - 1], known[|known| - 1];
      DueVidsAre(t, rows, init);
      DueVidsMore(t, rows, init, last);
      assert init + [last] == known;
    }
  }

  lemma DueRowsStamp(t: Tools, rows: seq<Scraped>, known: seq<Row>, i: nat)
    requires OnePerVid(t, known) && i < |known|
    ensures DueRows(t, rows, known[i]) > 0 <==> Stamps(t, rows, AfterAll(t, rows, known), known[i])
  {
    var after := AfterAll(t, rows, known);
    DueRowsIs(t, rows, known[i]);
    ChangedAt(rows, after);
    forall k: nat | k < |rows|
      ensures k in DueSet(t, rows, known[i]) <==> k in Changed(rows, after) && Owns(t, known[i], rows[k])
    {
      DueIsChanged(t, rows[k], known, i);
    }
    if DueRows(t, rows, known[i]) > 0 {
      var k :| k in DueSet(t, rows, known[i]);
    } else {
      assert DueSet(t, rows, known[i]) == {};
    }
  }

  /** Its count of vehicles is the number of known ones of which some row changes. */
  lemma DueVidsIs(t: Tools, rows: seq<Scraped>, known: seq<Row>)
    requires OnePerVid(t, known)
    ensures DueVids(t, rows, known) == |Stamping(t, rows, AfterAll(t, rows, known), known)|
  {
    DueVidsAre(t, rows, known);
    forall i: nat | i < |known|
      ensures DueRows(t, rows, known[i]) > 0 <==> Stamps(t, rows, AfterAll(t, rows, known), known[i])
    {
      DueRowsStamp(t, rows, known, i);
    }
    assert Stamping(t, rows, AfterAll(t, rows, known), known) == Where(DueAny(t, rows, known));
  }

  lemma CountsAre(t: Tools, rows: seq<Scraped>, known: seq<Row>)
    requires OnePerVid(t, known)
    ensures var after := AfterAll(t, rows, known);
            && AllNamed(t, rows, after, known)
            && DueTotal(t, rows, known) == |Changed(rows, after)|
            && DueVids(t, rows, known) == |Stamping(t, rows, after, known)|
  {
    AfterAllAreNamed(t, rows, known);
    DueTotalIs(t, rows, known);
    DueVidsIs(t, rows, known);
  }

  lemma EarlierVidsDiffer(t: Tools, known: seq<Row>, i: nat)
    requires OnePerVid(t, known) && i < |known|
    ensures forall other :: other in known[..i] ==> VidOf(t, other) != VidOf(t, known[i])
  {
  }

  /** One more identity applied to the rows. */
  lemma OneMoreIdentity(t: Tools, rows: seq<Scraped>, known: seq<Row>, i: nat)
    requires OnePerVid(t, known) && i < |known|
    ensures var now, identity := AfterAll(t, rows, known[..i]), known[i];
            && DueRows(t, now, identity) == DueRows(t, rows, identity)
            && AfterAll(t, rows, known[..i + 1])
               == if Skipped(t, identity) then now else VisitedAll(t, now, VidOf(t, identity), IdentityHints(t, identity))
    ensures DueTotal(t, rows, known[..i + 1]) == DueTotal(t, rows, known[..i]) + DueRows(t, rows, known[i])
    ensures DueVids(t, rows, known[..i + 1]) == DueVids(t, rows, known[..i]) + if DueRows(t, rows, known[i]) > 0 then 1 else 0
  {
    assert known[..i + 1][..i] == known[..i];
    EarlierVidsDiffer(t, known, i);
    DueCountUntouched(t, rows, known[..i], known[i]);
  }

  lemma {:induction false} NoneDueAtAll(t: Tools, rows: seq<Scraped>, known: seq<Row>)
    requires forall r, identity :: r in rows && identity in known ==> !DueFor(t, r, identity)
    ensures DueTotal(t, rows, known) == 0 && DueVids(t, rows, known) == 0 && AfterAll(t, rows, known) == rows
  {
    forall i | 0 <= i < |rows| ensures After(t, rows[i], known) == rows[i] {
      assert rows[i] in rows;
      UndueStays(t, rows[i], known);
    }
    NoneToCount(t, rows, known);
  }

  lemma {:induction false} NoneToCount(t: Tools, rows: seq<Scraped>, known: seq<Row>)
    requires forall r, identity :: r in rows && identity in known ==> !DueFor(t, r, identity)
    ensures DueTotal(t, rows, known) == 0 && DueVids(t, rows, known) == 0
  {
    if known != [] {
      var init, last := known[..|known| - 1], known[|known| - 1];
      assert last in known && forall k :: k in init ==> k in known;
      NoneToCount(t, rows, init);
      if !Skipped(t, last) {
        forall r | r in rows ensures !Due(t, r, VidOf(t, last), IdentityHints(t, last)) {
          assert !DueFor(t, r, last);
        }
        NoneDue(t, rows, VidOf(t, last), IdentityHints(t, last));
      }
    }
  }

  /** After a backfill of all identities, a second one with the same identities updates no row. */
  lemma SecondBackfillUpdatesNothing(t: Tools, rows: seq<Scraped>, known: seq<Row>)
    requires OnePerVid(t, known)
    ensures var after := AfterAll(t, rows, known);
            DueTotal(t, after, known) == 0 && DueVids(t, after, known) == 0 && AfterAll(t, after, known) == after
  {
    var after := AfterAll(t, rows, known);
    forall r, identity | r in after && identity in known ensures !DueFor(t, r, identity) {
      var k :| 0 <= k < |rows| && After(t, rows[k], known) == r;
      var i :| 0 <= i < |known| && known[i] == identity;
      NothingLeft(t, rows[k], known, i);
    }
    NoneDueAtAll(t, after, known);
  }

  lemma OneMoreVisited(t: Tools, rows: seq<Scraped>, i: nat, vid: Vid, hints: Row)
    requires i < |rows|
    ensures VisitedAll(t, rows[..i + 1], vid, hints) == VisitedAll(t, rows[..i], vid, hints) + [Visited(t, rows[i], vid, hints)]
    ensures DueCount(t, rows[..i + 1], vid, hints) == DueCount(t, rows[..i], vid, hints) + if Due(t, rows[i], vid, hints) then 1 else 0
  {
    assert rows[..i + 1][..i] == rows[..i];
  }

  lemma NextInPlace<T>(rows: seq<T>, done: seq<T>, was: seq<T>, x: T)
    requires |done| < |was| && rows == done + was[|done|..]
    ensures rows[|done|] == was[|done|]
    ensures rows[|done| := x] == done + [x] + was[|done| + 1..]
  {
  }

  /** The first n rows are visited, and so many of them were due. */
  ghost predicate VisitedUpTo(t: Tools, was: seq<Scraped>, rows: seq<Scraped>, updated: nat, n: nat, vid: Vid, hints: Row) {
    n <= |was| && rows == VisitedAll(t, was[..n], vid, hints) + was[n..] && updated == DueCount(t, was[..n], vid, hints)
  }

  lemma VisitNext(t: Tools, was: seq<Scraped>, rows: seq<Scraped>, updated: nat, n: nat, vid: Vid, hints: Row)
    requires VisitedUpTo(t, was, rows, updated, n, vid, hints) && n < |was|
    ensures n < |rows| == |was| && rows[n] == was[n]
    ensures VisitedUpTo(t, was, rows[n := Visited(t, was[n], vid, hints)], updated + if Due(t, was[n], vid, hints) then 1 else 0,
                        n + 1, vid, hints)
  {
    OneMoreVisited(t, was, n, vid, hints);
    NextInPlace(rows, VisitedAll(t, was[..n], vid, hints), was, Visited(t, was[n], vid, hints));
  }

  lemma VisitEnds(t: Tools, was: seq<Scraped>, rows: seq<Scraped>, updated: nat, vid: Vid, hints: Row)
    ensures VisitedUpTo(t, was, was, 0, 0, vid, hints)
    ensures VisitedUpTo(t, was, rows, updated, |was|, vid, hints) ==>
              rows == VisitedAll(t, was, vid, hints) && updated == DueCount(t, was, vid, hints)
  {
    assert was[..0] == [] && was[..|was|] == was;
    assert VisitedAll(t, was[..0], vid, hints) + was[0..] == was;
  }

  method Stamp(t: Tools, r: Scraped, hints: Row) returns (stamped: Scraped)
    requires r.payload.Readable?
    ensures stamped == Stamped(t, r, hints)
  {
    var vehicle := MergeIdentityInto(t, OrEmpty(r.payload.vehicle), hints);
    var context := MergeIdentityInto(t, OrEmpty(r.context), hints);
    stamped := Scraped(r.url, r.payload.(vehicle := Some(vehicle)), Some(context));
  }

  class Backfiller {
    const tools: Tools
    var rows: seq<Scraped>
    var known: seq<Row>

    constructor (tools: Tools, rows: seq<Scraped>, known: seq<Row>)
      ensures this.tools == tools && this.rows == rows && this.known == known
    {
      this.tools, this.rows, this.known := tools, rows, known;
    }

    method StampRow(i: nat, vid: Vid, hints: Row) returns (n: nat)
      requires i < |rows|
      modifies this`rows
      ensures rows == old(rows)[i := Visited(tools, old(rows)[i], vid, hints)]
      ensures n == if Due(tools, old(rows)[i], vid, hints) then 1 else 0
    {
      n := 0;
      if Due(tools, rows[i], vid, hints) {
        var stamped := Stamp(tools, rows[i], hints);
        rows := rows[i := stamped];
        n := 1;
      }
    }

    /** Stamps the rows that are due and counts them. */
    method StampDue(vid: Vid, hints: Row) returns (updated: nat)
      modifies this`rows
      ensures rows == VisitedAll(tools, old(rows), vid, hints) && updated == DueCount(tools, old(rows), vid, hints)
    {
      updated := 0;
      ghost var was := rows;
      VisitEnds(tools, was, rows, updated, vid, hints);
      for i := 0 to |rows|
        invariant |rows| == |was| && VisitedUpTo(tools, was, rows, updated, i, vid, hints)
      {
        VisitNext(tools, was, rows, updated, i, vid, hints);
        var n := StampRow(i, vid, hints);
        updated := updated + n;
      }
      VisitEnds(tools, was, rows, updated, vid, hints);
    }

    /** Stamps the rows of one vehicle and counts them. */
    method BackfillVid(vid: Vid, hints: Option<Row>) returns (updated: nat)
      modifies this`rows
      ensures var found := Resolved(tools, known, vid, hints);
              if vid == "" || found.None? then updated == 0 && rows == old(rows)
              else rows == VisitedAll(tools, old(rows), vid, found.value) && updated == DueCount(tools, old(rows), vid, found.value)
      // Every row of the vehicle then carries the hints, and no other row has changed.
      ensures var found := Resolved(tools, known, vid, hints);
              vid != "" && found.Some? ==> RowsNamed(tools, old(rows), rows, vid, found.value)
      ensures |rows| == |old(rows)| && updated == |Changed(old(rows), rows)|
    {
      var found := Resolved(tools, known, vid, hints);
      if vid == "" || found.None? {
        NoneChanged(rows);
        return 0;
      }
      ghost var was := rows;
      updated := StampDue(vid, found.value);
      VisitedAreNamed(tools, was, vid, found.value);
      DueCountIs(tools, was, vid, found.value);
    }

    /** Applies one identity, unless it is to be skipped. */
    method BackfillIdentity(identity: Row) returns (n: nat)
      modifies this`rows
      ensures rows == if Skipped(tools, identity) then old(rows)
                      else VisitedAll(tools, old(rows), VidOf(tools, identity), IdentityHints(tools, identity))
      ensures n == DueRows(tools, old(rows), identity)
    {
      n := 0;
      var vid := VidOf(tools, identity);
      if vid != "" && !Falsy(Get(identity, "chassis_code")) {
        HintsIdentify(tools, identity);
        n := BackfillVid(vid, Some(IdentityHints(tools, identity)));
      }
    }

    /** Applies every identity, and counts the vehicles and rows it stamped. */
    method BackfillAll() returns (vids: nat, total: nat)
      requires OnePerVid(tools, known)
      modifies this`rows
      ensures rows == AfterAll(tools, old(rows), known)
      ensures vids == DueVids(tools, old(rows), known) && total == DueTotal(tools, old(rows), known)
      // Every row of a known vehicle then carries its identity, and no other row has changed.
      ensures AllNamed(tools, old(rows), rows, known)
      // The counts are of the rows that changed, and of the vehicles they belong to.
      ensures |rows| == |old(rows)|
      ensures total == |Changed(old(rows), rows)| && vids == |Stamping(tools, old(rows), rows, known)|
    {
      vids, total := 0, 0;
      ghost var was := rows;
      for i := 0 to |known|
        invariant rows == AfterAll(tools, was, known[..i])
        invariant vids == DueVids(tools, was, known[..i]) && total == DueTotal(tools, was, known[..i])
      {
        var identity := known[i];
        OneMoreIdentity(tools, was, known, i);
        var n := BackfillIdentity(identity);
        if n > 0 {
          vids := vids + 1;
          total := total + n;
        }
      }
      assert known[..|known|] == known;
      CountsAre(tools, was, known);
    }
  }
}
