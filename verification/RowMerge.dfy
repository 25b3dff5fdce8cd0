/** scripts/build_profile_supplement_from_external_profiles.py: merging recovered source rows into the rows
    already held, keyed by fighter identity and source. A row is a dictionary of cleaned text; a missing value
    is "" (or "nan" in the name and source columns, where the source turns it into that text). */
module RowMerge {
  import opened Common

  type Row = map<string, string>

  const TARGET_FIELDS := {"height", "reach", "weight", "stance", "dob"}
  const STRICT_CARRIERS := {"stable_ufcstats_id", "fighter_id", "ufcstats_url"}
  const KEY_COLUMNS := {"source", "source_entity_id", "source_observation_id"}

  /** The helpers the merge calls on text: name normalisation, UFCStats id extraction ("" for none), whether a
      URL is on the UFCStats host, and the stance and birth date readers. */
  datatype Reader = Reader(normal: string -> string, id: string -> string, official: string -> bool,
                           stance: string -> bool, dob: string -> bool)

  predicate Blank(v: string) {
    v in {"", "-", "--", "N/A", "nan", "??"}
  }

  predicate Present(t: Reader, field: string, v: string) {
    !Blank(v) && (field == "stance" ==> t.stance(v)) && (field == "dob" ==> t.dob(v))
  }

  /** The field holds something the merge will not replace. */
  predicate Held(t: Reader, field: string, v: string) {
    if field in TARGET_FIELDS then Present(t, field, v) else !Blank(v)
  }

  function Get(row: Row, field: string): string {
    if field in row then row[field] else ""
  }

  // ---- keys ----

  datatype Identity = ById(id: string) | ByName(name: string)

  /** An unkeyed row is filed under the number of rows before it. */
  datatype Key = Keyed(identity: Identity, source: string) | Unkeyed(position: nat)

  function Carried(t: Reader, row: Row, column: string): string {
    if Blank(Get(row, column)) then "" else t.id(Get(row, column))
  }

  /** Otherwise the source raises: a malformed or a conflicting identity carrier. */
  predicate Readable(t: Reader, row: Row) {
    && (forall c | c in STRICT_CARRIERS && !Blank(Get(row, c)) :: Carried(t, row, c) != "")
    && (!Blank(Get(row, "fighter_url")) && t.official(Get(row, "fighter_url")) ==> Carried(t, row, "fighter_url") != "")
    && (forall c, d | c in STRICT_CARRIERS + {"fighter_url"} && d in STRICT_CARRIERS + {"fighter_url"}
                      && Carried(t, row, c) != "" && Carried(t, row, d) != "" :: Carried(t, row, c) == Carried(t, row, d))
  }

  function StableId(t: Reader, row: Row): string {
    if Carried(t, row, "stable_ufcstats_id") != "" then Carried(t, row, "stable_ufcstats_id")
    else if Carried(t, row, "fighter_id") != "" then Carried(t, row, "fighter_id")
    else if Carried(t, row, "ufcstats_url") != "" then Carried(t, row, "ufcstats_url")
    else Carried(t, row, "fighter_url")
  }

  function IdentityOf(t: Reader, row: Row): Identity {
    if StableId(t, row) != "" then ById(StableId(t, row)) else ByName(t.normal(Get(row, "name")))
  }

  function SourceText(row: Row): string {
    var entity, observation := Get(row, "source_entity_id"), Get(row, "source_observation_id");
    Lower(Get(row, "source")) + (if entity != "" then ":" + entity else "")
    + (if observation != "" then ":observation:" + observation else "")
  }

  // ---- what is read of a row ----

  /** Which values the merge holds on to: those that are none of the placeholders, and of a stance or birth date those
      that can be read. */
  lemma HeldExactly(t: Reader, field: string, v: string)
    ensures Held(t, field, v) <==> && v != "" && v != "-" && v != "--" && v != "N/A" && v != "nan" && v != "??"
                                   && (field == "stance" ==> t.stance(v)) && (field == "dob" ==> t.dob(v))
    ensures field in TARGET_FIELDS ==> (Held(t, field, v) <==> Present(t, field, v))
  {
  }

  const ID_COLUMNS := ["stable_ufcstats_id", "fighter_id", "ufcstats_url", "fighter_url"]

  predicate NoValue(v: string) {
    v == "" || v == "-" || v == "--" || v == "N/A" || v == "nan" || v == "??"
  }

  /** The column names the UFCStats id. */
  predicate Names(t: Reader, row: Row, column: string, id: string) {
    id != "" && !NoValue(Get(row, column)) && t.id(Get(row, column)) == id
  }

  /** Whose row it is: that of the id in the first of the four columns that has one, otherwise that of the name. */
  lemma IdentityExactly(t: Reader, row: Row)
    ensures forall k, id | 0 <= k < 4 && Names(t, row, ID_COLUMNS[k], id) && (forall j, other | 0 <= j < k :: !Names(t, row, ID_COLUMNS[j], other)) ::
              IdentityOf(t, row) == ById(id)
    ensures (forall k, id | 0 <= k < 4 :: !Names(t, row, ID_COLUMNS[k], id)) ==> IdentityOf(t, row) == ByName(t.normal(Get(row, "name")))
  {
    hide Get;
    assert ID_COLUMNS[0] == "stable_ufcstats_id" && ID_COLUMNS[1] == "fighter_id" && ID_COLUMNS[2] == "ufcstats_url" && ID_COLUMNS[3] == "fighter_url";
    forall column: string ensures Names(t, row, column, Carried(t, row, column)) <==> Carried(t, row, column) != "" {}
  }

  lemma CarriedExactly(t: Reader, row: Row, column: string)
    ensures Carried(t, row, column) == if NoValue(Get(row, column)) then "" else t.id(Get(row, column))
    ensures forall id :: Names(t, row, column, id) <==> id != "" && Carried(t, row, column) == id
  {
    hide Get;
  }

  /** No two of the columns name different ids. */
  ghost predicate OneName(t: Reader, row: Row) {
    forall c, d, x, y | c in ID_COLUMNS && d in ID_COLUMNS && Names(t, row, c, x) && Names(t, row, d, y) :: x == y
  }

  lemma OneNameExactly(t: Reader, row: Row)
    ensures OneName(t, row) <==> forall c, d | c in ID_COLUMNS && d in ID_COLUMNS && Carried(t, row, c) != "" && Carried(t, row, d) != "" ::
                                   Carried(t, row, c) == Carried(t, row, d)
  {
    hide Names, Carried;
    forall column: string, id ensures Names(t, row, column, id) <==> id != "" && Carried(t, row, column) == id { CarriedExactly(t, row, column); }
    if OneName(t, row) {
      forall c, d | c in ID_COLUMNS && d in ID_COLUMNS && Carried(t, row, c) != "" && Carried(t, row, d) != ""
        ensures Carried(t, row, c) == Carried(t, row, d)
      {
        assert Names(t, row, c, Carried(t, row, c)) && Names(t, row, d, Carried(t, row, d));
      }
    }
  }

  /** Exactly which rows the merge can read: a value in one of the first three columns, or a UFCStats address in the
      fourth, names an id, and no two columns name different ones. */
  lemma ReadableExactly(t: Reader, row: Row)
    ensures Readable(t, row)
            <==> && (forall c | c in {"stable_ufcstats_id", "fighter_id", "ufcstats_url"} && !NoValue(Get(row, c)) :: t.id(Get(row, c)) != "")
                 && (var url := Get(row, "fighter_url"); !NoValue(url) && t.official(url) ==> t.id(url) != "")
                 && OneName(t, row)
  {
    hide Get, OneName;
    OneNameExactly(t, row);
    forall c: string ensures c in ID_COLUMNS <==> c in STRICT_CARRIERS + {"fighter_url"} { IdColumn(c); }
    hide Blank, NoValue;
    forall v ensures Blank(v) <==> NoValue(v) { BlankIsNoValue(v); }
  }

  lemma BlankIsNoValue(v: string)
    ensures Blank(v) <==> NoValue(v)
  {
  }

  lemma IdColumn(c: string)
    ensures c in ID_COLUMNS <==> c in STRICT_CARRIERS + {"fighter_url"}
  {
  }

  predicate HasKey(t: Reader, row: Row) {
    IdentityOf(t, row) != ByName("") && SourceText(row) != ""
  }

  function KeyAt(t: Reader, row: Row, position: nat): Key {
    if HasKey(t, row) then Keyed(IdentityOf(t, row), SourceText(row)) else Unkeyed(position)
  }

  // ---- the merge ----

  function Clean(t: Reader, row: Row): Row {
    map f | f in row.Keys + TARGET_FIELDS ::
      if f in TARGET_FIELDS && !Present(t, f, Get(row, f)) then "" else Get(row, f)
  }

  predicate Fills(t: Reader, target: Row, row: Row, field: string) {
    !Held(t, field, Get(target, field)) && Held(t, field, Get(row, field))
  }

  function Fill(t: Reader, target: Row, row: Row): Row {
    map f | f in target.Keys + row.Keys && (f in target || Fills(t, target, row, f)) ::
      if Fills(t, target, row, f) then row[f] else target[f]
  }

  datatype Table = Table(order: seq<Key>, rows: map<Key, Row>)

  const EMPTY := Table([], map[])

  function Add(t: Reader, table: Table, row: Row): Table {
    var key, clean := KeyAt(t, row, |table.order|), Clean(t, row);
    if key in table.rows then table.(rows := table.rows[key := Fill(t, table.rows[key], clean)])
    else Table(table.order + [key], table.rows[key := clean])
  }

  function AddAll(t: Reader, table: Table, rows: seq<Row>): Table {
    if rows == [] then table else Add(t, AddAll(t, table, rows[..|rows| - 1]), rows[|rows| - 1])
  }

  ghost predicate Filed(table: Table) {
    forall i | 0 <= i < |table.order| :: table.order[i] in table.rows
  }

  function Listed(table: Table): seq<Row>
    requires Filed(table)
  {
    seq(|table.order|, i requires 0 <= i < |table.order| => table.rows[table.order[i]])
  }

  lemma {:induction false} AddAllFiled(t: Reader, table: Table, rows: seq<Row>)
    requires Filed(table)
    ensures Filed(AddAll(t, table, rows))
  {
    if rows != [] { AddAllFiled(t, table, rows[..|rows| - 1]); }
  }

  predicate AllReadable(t: Reader, rows: seq<Row>) {
    forall i | 0 <= i < |rows| :: Readable(t, rows[i])
  }

  ghost function Merged(t: Reader, existing: seq<Row>, recovered: seq<Row>): seq<Row> {
    AddAllFiled(t, EMPTY, existing + recovered);
    Listed(AddAll(t, EMPTY, existing + recovered))
  }

  /** The target after the fields in `done` have been looked at. */
  function FillOn(t: Reader, target: Row, row: Row, done: set<string>): Row
    requires done <= row.Keys
  {
    map f | f in target.Keys + done && (f in target || Fills(t, target, row, f)) ::
      if f in done && Fills(t, target, row, f) then row[f] else target[f]
  }

  lemma FillOnStep(t: Reader, target: Row, row: Row, done: set<string>, field: string)
    requires done <= row.Keys && field in row && field !in done
    ensures var was := FillOn(t, target, row, done);
            && Fills(t, was, row, field) == Fills(t, target, row, field)
            && FillOn(t, target, row, done + {field})
               == if Fills(t, target, row, field) then was[field := row[field]] else was
  {
    hide Held;
    var was := FillOn(t, target, row, done);
    assert Get(was, field) == Get(target, field);
  }

  lemma FillOnAll(t: Reader, target: Row, row: Row)
    ensures FillOn(t, target, row, row.Keys) == Fill(t, target, row)
  {
    assert forall f | Fills(t, target, row, f) :: f in row;
  }

  method FillFrom(t: Reader, target: Row, row: Row) returns (filled: Row)
    ensures filled == Fill(t, target, row)
  {
    hide Fills, Fill, FillOn;
    filled := target;
    var left := row.Keys;
    FillOnNone(t, target, row);
    while left != {}
      invariant left <= row.Keys && filled == FillOn(t, target, row, row.Keys - left)
      decreases |left|
    {
      var field :| field in left;
      FillOnStep(t, target, row, row.Keys - left, field);
      assert row.Keys - left + {field} == row.Keys - (left - {field});
      if Fills(t, filled, row, field) { filled := filled[field := row[field]]; }
      left := left - {field};
    }
    assert row.Keys - {} == row.Keys;
    FillOnAll(t, target, row);
  }

  lemma FillOnNone(t: Reader, target: Row, row: Row)
    ensures FillOn(t, target, row, row.Keys - row.Keys) == target
  {
  }

  lemma NoRows(t: Reader)
    ensures AddAll(t, EMPTY, []) == EMPTY && AllReadable(t, [])
  {
  }

  lemma OneMoreRow(t: Reader, rows: seq<Row>, i: nat)
    requires i < |rows|
    ensures AddAll(t, EMPTY, rows[..i + 1]) == Add(t, AddAll(t, EMPTY, rows[..i]), rows[i])
    ensures AllReadable(t, rows[..i + 1]) <==> AllReadable(t, rows[..i]) && Readable(t, rows[i])
    ensures !Readable(t, rows[i]) ==> !AllReadable(t, rows)
  {
    hide Add, Readable;
    assert rows[..i + 1][..i] == rows[..i] && rows[..i + 1][i] == rows[i];
  }

  /** `_merge_source_rows`: None where it raises. */
  method MergeSourceRows(t: Reader, existing: seq<Row>, recovered: seq<Row>) returns (out: Option<seq<Row>>)
    ensures out.Some? <==> AllReadable(t, existing + recovered)
    ensures out.Some? ==> out.value == Merged(t, existing, recovered)
  {
    hide Readable, Clean, KeyAt, Fill, Merged, AddAll, AllReadable;
    NoRows(t);
    var rowsBySource: map<Key, Row>, orderedKeys: seq<Key> := map[], [];
    var all := existing + recovered;
    for i := 0 to |all|
      invariant AllReadable(t, all[..i])
      invariant Table(orderedKeys, rowsBySource) == AddAll(t, EMPTY, all[..i])
    {
      var row := all[i];
      OneMoreRow(t, all, i);
      if !Readable(t, row) { return None; }
      var key := KeyAt(t, row, |orderedKeys|);
      var cleanRow := Clean(t, row);
      if key !in rowsBySource {
        rowsBySource := rowsBySource[key := cleanRow];
        orderedKeys := orderedKeys + [key];
      } else {
        var filled := FillFrom(t, rowsBySource[key], cleanRow);
        rowsBySource := rowsBySource[key := filled];
      }
    }
    assert all[..|all|] == all;
    ghost var table := Table(orderedKeys, rowsBySource);
    MergedIs(t, existing, recovered, table);
    var listed := [];
    for i := 0 to |orderedKeys|
      invariant listed == Listed(table)[..i]
    {
      listed := listed + [rowsBySource[orderedKeys[i]]];
    }
    out := Some(listed);
  }

  lemma MergedIs(t: Reader, existing: seq<Row>, recovered: seq<Row>, table: Table)
    requires table == AddAll(t, EMPTY, existing + recovered)
    ensures Filed(table) && Merged(t, existing, recovered) == Listed(table)
  {
    AddAllFiled(t, EMPTY, existing + recovered);
  }

  // ---- what the merged rows hold ----

  ghost predicate Distinct(keys: seq<Key>) {
    forall i, j | 0 <= i < j < |keys| :: keys[i] != keys[j]
  }

  ghost predicate Tabled(table: Table) {
    && Filed(table) && Distinct(table.order)
    && (forall k | k in table.rows :: k in table.order)
    && (forall i | 0 <= i < |table.order| && table.order[i].Unkeyed? :: table.order[i].position == i)
  }

  lemma AppendDistinct(keys: seq<Key>, key: Key)
    requires Distinct(keys) && key !in keys
    ensures Distinct(keys + [key])
  {
  }

  lemma AddTabled(t: Reader, table: Table, row: Row)
    requires Tabled(table)
    ensures Tabled(Add(t, table, row))
    ensures !HasKey(t, row) ==> Unkeyed(|table.order|) !in table.rows
  {
    hide Fill, Clean, HasKey, Distinct, IdentityOf, SourceText;
    var key := KeyAt(t, row, |table.order|);
    assert key.Unkeyed? ==> key !in table.order;
    if key !in table.rows {
      assert key !in table.order by { assert Filed(table); }
      AppendDistinct(table.order, key);
    }
  }

  /** Rows of one table are filed under distinct keys, and every row without a key under a key of its own. */
  lemma {:induction false} AddAllTabled(t: Reader, table: Table, rows: seq<Row>)
    requires Tabled(table)
    ensures Tabled(AddAll(t, table, rows))
  {
    if rows != [] {
      AddAllTabled(t, table, rows[..|rows| - 1]);
      AddTabled(t, AddAll(t, table, rows[..|rows| - 1]), rows[|rows| - 1]);
    }
  }

  ghost predicate HasThisKey(t: Reader, row: Row, key: Key) {
    HasKey(t, row) && KeyAt(t, row, 0) == key
  }

  /** Row i is the first of those with the key to hold the field. */
  ghost predicate FirstHolder(t: Reader, rows: seq<Row>, key: Key, field: string, i: nat) {
    && i < |rows| && HasThisKey(t, rows[i], key) && Held(t, field, Get(rows[i], field))
    && forall j | 0 <= j < i && HasThisKey(t, rows[j], key) :: !Held(t, field, Get(rows[j], field))
  }

  lemma FillHolds(t: Reader, target: Row, row: Row, field: string)
    ensures var clean := Clean(t, row);
            && Held(t, field, Get(clean, field)) == Held(t, field, Get(row, field))
            && (Held(t, field, Get(row, field)) ==> Get(clean, field) == Get(row, field))
            && Get(Fill(t, target, clean), field)
               == if !Held(t, field, Get(target, field)) && Held(t, field, Get(row, field)) then Get(row, field) else Get(target, field)
  {
    assert !Held(t, field, "");
  }

  ghost function FirstHeld(t: Reader, rows: seq<Row>, key: Key, field: string): Option<string> {
    if rows == [] then None else
      var first, row := FirstHeld(t, rows[..|rows| - 1], key, field), rows[|rows| - 1];
      if first.None? && HasThisKey(t, row, key) && Held(t, field, Get(row, field)) then Some(Get(row, field)) else first
  }

  /** A key's row holds in a field what `first` says. */
  ghost predicate Shows(t: Reader, row: Row, field: string, first: Option<string>) {
    match first
    case None => !Held(t, field, Get(row, field))
    case Some(v) => Get(row, field) == v && Held(t, field, v)
  }

  lemma AddShows(t: Reader, table: Table, row: Row, key: Key, field: string, first: Option<string>)
    requires key.Keyed? && (key in table.rows ==> Shows(t, table.rows[key], field, first))
    requires key !in table.rows ==> first.None?
    ensures var table' := Add(t, table, row);
            && (key in table'.rows <==> key in table.rows || HasThisKey(t, row, key))
            && (key in table'.rows ==> Shows(t, table'.rows[key], field,
                  if first.None? && HasThisKey(t, row, key) && Held(t, field, Get(row, field)) then Some(Get(row, field)) else first))
  {
    hide HasKey, Fill, Clean, Held;
    var target: Row := if key in table.rows then table.rows[key] else map[];
    FillHolds(t, target, row, field);
  }

  lemma {:induction false} AddAllShows(t: Reader, rows: seq<Row>, key: Key, field: string)
    requires key.Keyed?
    ensures var table := AddAll(t, EMPTY, rows);
            && (key in table.rows <==> exists i :: 0 <= i < |rows| && HasThisKey(t, rows[i], key))
            && (key in table.rows ==> Shows(t, table.rows[key], field, FirstHeld(t, rows, key, field)))
            && (key !in table.rows ==> FirstHeld(t, rows, key, field).None?)
  {
    hide HasThisKey, Add, Shows, Held;
    if rows != [] {
      var n := |rows| - 1;
      AddAllShows(t, rows[..n], key, field);
      AddShows(t, AddAll(t, EMPTY, rows[..n]), rows[n], key, field, FirstHeld(t, rows[..n], key, field));
      assert forall i | 0 <= i < n :: rows[..n][i] == rows[i];
    }
  }

  lemma {:induction false} FirstHeldMeans(t: Reader, rows: seq<Row>, key: Key, field: string)
    ensures match FirstHeld(t, rows, key, field)
            case None => forall i | 0 <= i < |rows| && HasThisKey(t, rows[i], key) :: !Held(t, field, Get(rows[i], field))
            case Some(v) => exists i: nat :: FirstHolder(t, rows, key, field, i) && Get(rows[i], field) == v
  {
    hide HasThisKey, Held;
    if rows != [] {
      var n := |rows| - 1;
      FirstHeldMeans(t, rows[..n], key, field);
      assert forall i | 0 <= i < n :: rows[..n][i] == rows[i];
      var before := FirstHeld(t, rows[..n], key, field);
      if before.Some? {
        var i: nat :| FirstHolder(t, rows[..n], key, field, i) && Get(rows[..n][i], field) == before.value;
        assert FirstHolder(t, rows, key, field, i);
      } else if HasThisKey(t, rows[n], key) && Held(t, field, Get(rows[n], field)) {
        assert FirstHolder(t, rows, key, field, n);
      }
    }
  }

  /** The merge keeps, for every key and field, exactly what the first row with that key to hold the field
      holds; nothing later changes it, and nothing appears that no row held. */
  lemma FirstHolderWins(t: Reader, rows: seq<Row>, key: Key, field: string)
    requires key.Keyed?
    ensures var table := AddAll(t, EMPTY, rows);
            && (key in table.rows <==> exists i :: 0 <= i < |rows| && HasThisKey(t, rows[i], key))
            && (key in table.rows ==>
                 && (forall i: nat | FirstHolder(t, rows, key, field, i) :: Get(table.rows[key], field) == Get(rows[i], field))
                 && (Held(t, field, Get(table.rows[key], field)) ==> exists i: nat :: FirstHolder(t, rows, key, field, i)))
  {
    hide HasThisKey, Held, AddAll, FirstHeld;
    AddAllShows(t, rows, key, field);
    FirstHeldMeans(t, rows, key, field);
    forall i: nat, j: nat | FirstHolder(t, rows, key, field, i) && FirstHolder(t, rows, key, field, j) ensures i == j {
    }
  }

  /** The rows filed under keys of their own, in order. */
  ghost function Loose(order: seq<Key>, rows: map<Key, Row>): seq<Row>
    requires forall i | 0 <= i < |order| :: order[i] in rows
  {
    if order == [] then [] else
      var last := order[|order| - 1];
      Loose(order[..|order| - 1], rows) + if last.Unkeyed? then [rows[last]] else []
  }

  ghost function Keyless(t: Reader, rows: seq<Row>): seq<Row> {
    if rows == [] then [] else
      var last := rows[|rows| - 1];
      Keyless(t, rows[..|rows| - 1]) + if HasKey(t, last) then [] else [Clean(t, last)]
  }

  lemma {:induction false} LooseSame(order: seq<Key>, rows: map<Key, Row>, rows': map<Key, Row>)
    requires forall i | 0 <= i < |order| :: order[i] in rows && order[i] in rows'
    requires forall i | 0 <= i < |order| && order[i].Unkeyed? :: rows[order[i]] == rows'[order[i]]
    ensures Loose(order, rows) == Loose(order, rows')
  {
    if order != [] { LooseSame(order[..|order| - 1], rows, rows'); }
  }

  lemma LooseAppend(order: seq<Key>, rows: map<Key, Row>, key: Key, row: Row)
    requires key !in rows && forall i | 0 <= i < |order| :: order[i] in rows
    ensures Loose(order + [key], rows[key := row]) == Loose(order, rows) + if key.Unkeyed? then [row] else []
  {
    assert (order + [key])[..|order|] == order;
    LooseSame(order, rows, rows[key := row]);
  }

  lemma LooseReplace(order: seq<Key>, rows: map<Key, Row>, key: Key, row: Row)
    requires key.Keyed? && key in rows && forall i | 0 <= i < |order| :: order[i] in rows
    ensures Loose(order, rows[key := row]) == Loose(order, rows)
  {
    hide Loose;
    LooseSame(order, rows, rows[key := row]);
  }

  lemma AddLoose(t: Reader, table: Table, row: Row)
    requires Tabled(table)
    ensures var table' := Add(t, table, row);
            && Tabled(table')
            && Loose(table'.order, table'.rows)
               == Loose(table.order, table.rows) + if HasKey(t, row) then [] else [Clean(t, row)]
  {
    hide HasKey, Fill, Clean, Loose, Distinct;
    AddTabled(t, table, row);
    var key, clean := KeyAt(t, row, |table.order|), Clean(t, row);
    if key in table.rows {
      LooseReplace(table.order, table.rows, key, Fill(t, table.rows[key], clean));
    } else {
      LooseAppend(table.order, table.rows, key, clean);
    }
  }

  /** Rows without a key come out one for one, in order, changed only by the cleaning of their target fields. */
  lemma {:induction false} KeylessRowsKept(t: Reader, rows: seq<Row>)
    ensures var table := AddAll(t, EMPTY, rows);
            Tabled(table) && Loose(table.order, table.rows) == Keyless(t, rows)
  {
    hide HasKey, Clean, Add;
    if rows != [] {
      KeylessRowsKept(t, rows[..|rows| - 1]);
      AddLoose(t, AddAll(t, EMPTY, rows[..|rows| - 1]), rows[|rows| - 1]);
    }
  }

  /** Recovered rows never move an existing one. */
  lemma {:induction false} ExistingRowsKeepTheirPlaces(t: Reader, existing: seq<Row>, recovered: seq<Row>)
    ensures AddAll(t, EMPTY, existing).order <= AddAll(t, EMPTY, existing + recovered).order
  {
    hide Clean, Fill, KeyAt;
    if recovered == [] {
      assert existing + recovered == existing;
    } else {
      var n := |recovered| - 1;
      ExistingRowsKeepTheirPlaces(t, existing, recovered[..n]);
      assert (existing + recovered)[..|existing + recovered| - 1] == existing + recovered[..n];
    }
  }
}
