/** Catalog records as the import sees them: JSON objects, their natural keys, and projections. */
module CatalogRows {
  datatype Value = Null | Str(text: string) | Num(number: int)

  type Column = string
  type Row = map<Column, Value>
  type Key = seq<Value>

  /** A column's value; an absent column reads as null. */
  function Get(r: Row, c: Column): Value {
    if c in r then r[c] else Null
  }

  predicate Falsy(v: Value) {
    v == Null || v == Str("") || v == Num(0)
  }

  /** How a key column is normalised, to match the expression of its unique index. */
  datatype Rule = NullAsEmpty | FalsyAsEmpty | NullAsZero

  function Part(rule: Rule, v: Value): Value {
    match rule
    case NullAsEmpty => if v == Null then Str("") else v
    case FalsyAsEmpty => if Falsy(v) then Str("") else v
    case NullAsZero => if v == Null then Num(0) else v
  }

  datatype KeyPart = KeyPart(column: Column, rule: Rule)
  type KeySpec = seq<KeyPart>

  function RawKey(spec: KeySpec, r: Row): Key {
    seq(|spec|, i requires 0 <= i < |spec| => Get(r, spec[i].column))
  }

  function Normalised(spec: KeySpec, raw: Key): Key
    requires |raw| == |spec|
  {
    seq(|spec|, i requires 0 <= i < |spec| => Part(spec[i].rule, raw[i]))
  }

  /** The key under which the live table is unique. */
  function KeyOf(spec: KeySpec, r: Row): Key {
    Normalised(spec, RawKey(spec, r))
  }

  /** The columns written to the live table: the accepted ones that are not null. */
  function Project(r: Row, cols: set<Column>): Row {
    map c | c in cols && c in r && r[c] != Null :: r[c]
  }

  ghost predicate KeyColumnsIn(spec: KeySpec, cols: set<Column>) {
    forall i :: 0 <= i < |spec| ==> spec[i].column in cols
  }

  const VEHICLE_KEY: KeySpec := [
    KeyPart("vin_prefix", NullAsEmpty), KeyPart("chassis_code", FalsyAsEmpty), KeyPart("engine_code", NullAsEmpty),
    KeyPart("production_year", NullAsZero), KeyPart("model_variant", FalsyAsEmpty)]

  const VEHICLE_COLS: set<Column> := {"vin_prefix", "chassis_code", "engine_code", "production_year", "model_variant"}

  const FITMENT_KEY: KeySpec := [
    KeyPart("oem_part_number", FalsyAsEmpty), KeyPart("chassis_code", NullAsEmpty), KeyPart("engine_code", NullAsEmpty),
    KeyPart("pnc_code", NullAsEmpty)]

  const FITMENT_COLS: set<Column> := {"oem_part_number", "pnc_code", "chassis_code", "engine_code", "superseded_by",
    "bbox_x", "bbox_y", "bbox_width", "bbox_height", "diagram_path"}

  // ----- What a key distinguishes -----

  /** The values of a key column that the unique index takes for the same nothing. */
  function Nothings(rule: Rule): set<Value> {
    match rule
    case NullAsEmpty => {Null, Str("")}
    case FalsyAsEmpty => {Null, Str(""), Num(0)}
    case NullAsZero => {Null, Num(0)}
  }

  predicate Alike(nothings: set<Value>, a: Value, b: Value) {
    a == b || (a in nothings && b in nothings)
  }

  /** Two rows that differ in their key columns at most in how they leave them empty. */
  ghost predicate SameButNothing(spec: KeySpec, a: Row, b: Row) {
    forall i :: 0 <= i < |spec| ==> AlikeAt(spec[i], a, b)
  }

  lemma PartIs(rule: Rule, a: Value, b: Value)
    ensures Part(rule, a) == Part(rule, b) <==> Alike(Nothings(rule), a, b)
  {
  }

  ghost predicate AlikeAt(part: KeyPart, a: Row, b: Row) {
    Alike(Nothings(part.rule), Get(a, part.column), Get(b, part.column))
  }

  /** Rows have the same key exactly when each key column has the same value or is left empty in both. */
  lemma SameKey(spec: KeySpec, a: Row, b: Row)
    ensures KeyOf(spec, a) == KeyOf(spec, b) <==> SameButNothing(spec, a, b)
  {
    forall i | 0 <= i < |spec|
      ensures KeyOf(spec, a)[i] == KeyOf(spec, b)[i] <==> AlikeAt(spec[i], a, b)
    {
      PartIs(spec[i].rule, Get(a, spec[i].column), Get(b, spec[i].column));
    }
    if SameButNothing(spec, a, b) {
      assert KeyOf(spec, a) == KeyOf(spec, b);
    }
  }

  /** Which vehicles and which fitments are the same to the live tables. */
  lemma SameVehicle(a: Row, b: Row)
    ensures KeyOf(VEHICLE_KEY, a) == KeyOf(VEHICLE_KEY, b)
       <==> && Alike({Null, Str("")}, Get(a, "vin_prefix"), Get(b, "vin_prefix"))
            && Alike({Null, Str(""), Num(0)}, Get(a, "chassis_code"), Get(b, "chassis_code"))
            && Alike({Null, Str("")}, Get(a, "engine_code"), Get(b, "engine_code"))
            && Alike({Null, Num(0)}, Get(a, "production_year"), Get(b, "production_year"))
            && Alike({Null, Str(""), Num(0)}, Get(a, "model_variant"), Get(b, "model_variant"))
  {
    SameKey(VEHICLE_KEY, a, b);
    var k := VEHICLE_KEY;
    assert |k| == 5 && (SameButNothing(k, a, b)
           <==> AlikeAt(k[0], a, b) && AlikeAt(k[1], a, b) && AlikeAt(k[2], a, b) && AlikeAt(k[3], a, b) && AlikeAt(k[4], a, b));
  }

  lemma SameFitment(a: Row, b: Row)
    ensures KeyOf(FITMENT_KEY, a) == KeyOf(FITMENT_KEY, b)
       <==> && Alike({Null, Str(""), Num(0)}, Get(a, "oem_part_number"), Get(b, "oem_part_number"))
            && Alike({Null, Str("")}, Get(a, "chassis_code"), Get(b, "chassis_code"))
            && Alike({Null, Str("")}, Get(a, "engine_code"), Get(b, "engine_code"))
            && Alike({Null, Str("")}, Get(a, "pnc_code"), Get(b, "pnc_code"))
  {
    SameKey(FITMENT_KEY, a, b);
    var k := FITMENT_KEY;
    assert |k| == 4 && (SameButNothing(k, a, b)
           <==> AlikeAt(k[0], a, b) && AlikeAt(k[1], a, b) && AlikeAt(k[2], a, b) && AlikeAt(k[3], a, b));
  }

  /** What is written of a row: every accepted column that is set, with its value, and nothing else. */
  lemma ProjectIs(r: Row, cols: set<Column>, c: Column)
    ensures Get(Project(r, cols), c) == if c in cols then Get(r, c) else Null
    ensures c in Project(r, cols) ==> Project(r, cols)[c] != Null
  {
  }

  /** What an update leaves: the written columns as written, every other one as it was or empty. */
  lemma LandedIs(before: Row, payload: Row, nulled: set<Column>, c: Column)
    ensures Get(Landed(before, payload, nulled), c)
         == if c in payload then payload[c] else if c in nulled then Null else Get(before, c)
  {
  }

  /** Projection drops only columns that normalise as null, so it keeps the key. */
  lemma ProjectKeepsKey(spec: KeySpec, r: Row, cols: set<Column>)
    requires KeyColumnsIn(spec, cols)
    ensures KeyOf(spec, Project(r, cols)) == KeyOf(spec, r)
  {
    forall i | 0 <= i < |spec| ensures Get(Project(r, cols), spec[i].column) == Get(r, spec[i].column) {
    }
  }

  /** The row an update leaves: the written columns, and each other column either kept or nulled,
      as the client decides. */
  function Landed(before: Row, payload: Row, nulled: set<Column>): Row {
    (map c | c in before && c !in nulled :: before[c]) + payload
  }

  /** Whatever an update does to the columns it does not write, the key stays. */
  lemma LandedKeepsKey(spec: KeySpec, before: Row, r: Row, cols: set<Column>, nulled: set<Column>)
    requires KeyColumnsIn(spec, cols) && KeyOf(spec, before) == KeyOf(spec, r)
    ensures KeyOf(spec, Landed(before, Project(r, cols), nulled)) == KeyOf(spec, r)
  {
    var after := Landed(before, Project(r, cols), nulled);
    forall i | 0 <= i < |spec|
      ensures Part(spec[i].rule, Get(after, spec[i].column)) == Part(spec[i].rule, Get(r, spec[i].column))
    {
      var c := spec[i].column;
      assert KeyOf(spec, before)[i] == KeyOf(spec, r)[i];
      assert c in after ==> after[c] == if c in Project(r, cols) then r[c] else before[c];
    }
    assert KeyOf(spec, after) == KeyOf(spec, r);
  }

  // ----- The last row of each key -----

  function LastRows(spec: KeySpec, rows: seq<Row>): map<Key, Row> {
    if rows == [] then map[]
    else LastRows(spec, rows[..|rows| - 1])[KeyOf(spec, rows[|rows| - 1]) := rows[|rows| - 1]]
  }

  function LastRaw(spec: KeySpec, rows: seq<Row>): map<Key, Row> {
    if rows == [] then map[]
    else LastRaw(spec, rows[..|rows| - 1])[RawKey(spec, rows[|rows| - 1]) := rows[|rows| - 1]]
  }

  function KeySet(spec: KeySpec, rows: seq<Row>): set<Key> {
    set r | r in rows :: KeyOf(spec, r)
  }

  function RawKeysOf(spec: KeySpec, rows: seq<Row>): set<Key> {
    set r | r in rows :: RawKey(spec, r)
  }

  lemma {:induction false} LastRowsKeys(spec: KeySpec, rows: seq<Row>)
    ensures LastRows(spec, rows).Keys == KeySet(spec, rows)
    ensures forall k :: k in LastRows(spec, rows) ==> LastRows(spec, rows)[k] in rows && KeyOf(spec, LastRows(spec, rows)[k]) == k
  {
    if rows != [] {
      var init, last := rows[..|rows| - 1], rows[|rows| - 1];
      LastRowsKeys(spec, init);
      assert rows == init + [last];
      assert KeySet(spec, rows) == KeySet(spec, init) + {KeyOf(spec, last)};
    }
  }

  lemma {:induction false} LastRawKeys(spec: KeySpec, rows: seq<Row>)
    ensures LastRaw(spec, rows).Keys == RawKeysOf(spec, rows)
    ensures forall k :: k in LastRaw(spec, rows) ==> LastRaw(spec, rows)[k] in rows && RawKey(spec, LastRaw(spec, rows)[k]) == k
  {
    if rows != [] {
      var init, last := rows[..|rows| - 1], rows[|rows| - 1];
      LastRawKeys(spec, init);
      assert rows == init + [last];
      assert RawKeysOf(spec, rows) == RawKeysOf(spec, init) + {RawKey(spec, last)};
    }
  }
}
