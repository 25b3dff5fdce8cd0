/** When the merge of source rows is stable: merging its own output again, or merging in two steps, gives what
    one merge gives. This rests on a merged row still having the key it is filed under. */
module RowMergeLaws {
  import opened Common
  import opened RowMerge
  import opened RowKeys

  lemma {:induction false} AddAllConcat(t: Reader, table: Table, a: seq<Row>, b: seq<Row>)
    ensures AddAll(t, table, a + b) == AddAll(t, AddAll(t, table, a), b)
  {
    hide Add;
    if b == [] {
      assert a + b == a;
    } else {
      AddAllConcat(t, table, a, b[..|b| - 1]);
      assert (a + b)[..|a + b| - 1] == a + b[..|b| - 1];
    }
  }

  // ---- whose row a table holds ----

  /** The row filed under the key: nothing is left to clean, and it belongs to the key's fighter. */
  ghost predicate Kept(t: Reader, row: Row, key: Key) {
    && Readable(t, row) && Clean(t, row) == row
    && match key
       case Keyed(identity, source) => IdentityOf(t, row) == identity && identity != ByName("") && source != ""
       case Unkeyed(_) => !HasKey(t, row)
  }

  ghost predicate AllKept(t: Reader, table: Table) {
    Tabled(table) && forall k | k in table.rows :: Kept(t, table.rows[k], k)
  }

  lemma FillIsClean(t: Reader, target: Row, row: Row)
    requires Clean(t, target) == target && Clean(t, row) == row
    ensures Clean(t, Fill(t, target, row)) == Fill(t, target, row)
  {
    hide Present;
    var filled := Fill(t, target, row);
    forall f | f in TARGET_FIELDS ensures f in filled && (Present(t, f, filled[f]) || filled[f] == "") {
      assert f in Clean(t, target);
      assert Clean(t, row)[f] == row[f];
      assert Clean(t, target)[f] == target[f];
    }
  }

  lemma FillKept(t: Reader, target: Row, row: Row, key: Key)
    requires Kept(t, target, key) && Kept(t, row, key) && key.Keyed?
    ensures Kept(t, Fill(t, target, row), key)
  {
    hide Readable, IdentityOf, SourceText, Clean, Fill;
    FillKeepsIdentity(t, target, row);
    FillIsClean(t, target, row);
  }

  lemma CleanKept(t: Reader, row: Row, n: nat)
    requires Readable(t, row)
    ensures Kept(t, Clean(t, row), KeyAt(t, row, n)) && KeyAt(t, Clean(t, row), n) == KeyAt(t, row, n)
  {
    hide Readable, IdentityOf, SourceText, Clean;
    CleanKeepsKey(t, row);
    CleanTwice(t, row);
  }

  lemma AddKept(t: Reader, table: Table, row: Row)
    requires AllKept(t, table) && Readable(t, row)
    ensures AllKept(t, Add(t, table, row))
  {
    hide Readable, Kept, Clean, Fill, HasKey, Tabled, IdentityOf, SourceText;
    var key := KeyAt(t, row, |table.order|);
    AddTabled(t, table, row);
    CleanKept(t, row, |table.order|);
    if key in table.rows { FillKept(t, table.rows[key], Clean(t, row), key); }
  }

  lemma {:induction false} AddAllKept(t: Reader, rows: seq<Row>)
    requires AllReadable(t, rows)
    ensures AllKept(t, AddAll(t, EMPTY, rows))
  {
    hide Readable, Kept, Add;
    if rows != [] {
      AddAllKept(t, rows[..|rows| - 1]);
      AddKept(t, AddAll(t, EMPTY, rows[..|rows| - 1]), rows[|rows| - 1]);
    }
  }

  // ---- keys that hold ----

  /** Every keyed row computes the source key it is filed under. */
  ghost predicate KeysHold(table: Table) {
    forall k | k in table.rows && k.Keyed? :: SourceText(table.rows[k]) == k.source
  }

  ghost predicate Stable(t: Reader, table: Table) {
    AllKept(t, table) && KeysHold(table)
  }

  lemma SourceOfClean(t: Reader, row: Row)
    ensures SourceText(Clean(t, row)) == SourceText(row)
    ensures forall c | c in KEY_COLUMNS :: Get(Clean(t, row), c) == Get(row, c)
  {
    hide Clean, Readable, KeyAt, HasKey;
    CleanKeepsKey(t, row);
    assert forall c | c in KEY_COLUMNS :: c !in TARGET_FIELDS;
    assert "source" in KEY_COLUMNS && "source_entity_id" in KEY_COLUMNS && "source_observation_id" in KEY_COLUMNS;
  }

  lemma AddHolds(t: Reader, table: Table, row: Row)
    requires KeysHold(table)
    requires var key := KeyAt(t, row, |table.order|);
             key.Keyed? && key in table.rows ==> SourceText(Fill(t, table.rows[key], Clean(t, row))) == key.source
    ensures KeysHold(Add(t, table, row))
  {
    hide Clean, Fill, HasKey, IdentityOf, SourceText;
    SourceOfClean(t, row);
  }

  lemma EmptyTable()
    ensures Tabled(EMPTY) && KeysHold(EMPTY)
  {
  }

  /** Row j brings a key column that every earlier row of its key lacks, and there is an earlier one. */
  ghost predicate Brings(t: Reader, rows: seq<Row>, j: nat, c: string) {
    && j < |rows| && HasKey(t, rows[j]) && c in KEY_COLUMNS && !Blank(Get(rows[j], c))
    && (exists i :: 0 <= i < j && HasThisKey(t, rows[i], KeyAt(t, rows[j], 0)))
    && (forall i | 0 <= i < j && HasThisKey(t, rows[i], KeyAt(t, rows[j], 0)) :: Blank(Get(rows[i], c)))
  }

  /** And its text is not the one that stands there: a source that differs only in case from the placeholder
      before it changes nothing. */
  ghost predicate Rewrites(t: Reader, rows: seq<Row>, j: nat, c: string) {
    Brings(t, rows, j, c)
    && exists i :: 0 <= i < j && HasThisKey(t, rows[i], KeyAt(t, rows[j], 0)) && KeyPart(c, Get(rows[i], c)) != KeyPart(c, Get(rows[j], c))
  }

  /** No row rewrites a key column of the rows filed before it under the same key. */
  ghost predicate NothingRewritten(t: Reader, rows: seq<Row>) {
    forall j: nat, c :: !Rewrites(t, rows, j, c)
  }

  lemma RewritesBefore(t: Reader, rows: seq<Row>, n: nat, j: nat, c: string)
    requires j < n <= |rows|
    ensures Rewrites(t, rows[..n], j, c) == Rewrites(t, rows, j, c)
  {
    hide HasKey, HasThisKey, Blank, KeyPart, Get;
    assert forall i | 0 <= i <= j :: rows[..n][i] == rows[i];
  }

  lemma RewritesInside(t: Reader, rows: seq<Row>, j: nat, c: string)
    ensures Rewrites(t, rows, j, c) ==> j < |rows| && HasKey(t, rows[j]) && c in KEY_COLUMNS
  {
    hide HasKey, HasThisKey, Blank, KeyPart, Get;
  }

  // ---- how a row's key grows ----

  /** The row under the key has a source that leads it, and computes the key or one that weighs more. */
  ghost predicate Grown(table: Table, key: Key) {
    && key in table.rows && key.Keyed? && Leads(Lower(Get(table.rows[key], "source")), key.source)
    && (SourceText(table.rows[key]) == key.source || Heavier(table, key))
  }

  ghost predicate Heavier(table: Table, key: Key) {
    key in table.rows && key.Keyed? && Weight(SourceText(table.rows[key])) > Weight(key.source)
  }

  lemma SourceLeads(t: Reader, row: Row, key: Key)
    requires HasThisKey(t, row, key)
    ensures key.Keyed? && SourceText(row) == key.source && Leads(Lower(Get(row, "source")), key.source)
    ensures SourceText(Clean(t, row)) == key.source && Leads(Lower(Get(Clean(t, row), "source")), key.source)
  {
    hide IdentityOf, SourceText, Clean, Leads, Get;
    KeyLeads(row);
    SourceOfClean(t, row);
    assert "source" in KEY_COLUMNS;
  }

  lemma RewritesClean(t: Reader, target: Row, row: Row)
    ensures RewritesColumn(target, Clean(t, row)) <==> RewritesColumn(target, row)
    ensures forall c :: RewritesAt(target, Clean(t, row), c) <==> RewritesAt(target, row, c)
  {
    hide Clean, Get, Blank, KeyPart;
    SourceOfClean(t, row);
    assert forall c :: RewritesAt(target, Clean(t, row), c) <==> RewritesAt(target, row, c);
  }

  lemma AddGrows(t: Reader, table: Table, row: Row, key: Key)
    requires key.Keyed? && (key in table.rows ==> Grown(table, key))
    ensures var table' := Add(t, table, row);
            && (key in table'.rows ==> Grown(table', key)) && (Heavier(table, key) ==> Heavier(table', key))
            && (key in table.rows && HasThisKey(t, row, key) && RewritesColumn(table.rows[key], row) ==> Heavier(table', key))
  {
    hide Clean, Fill, IdentityOf, SourceText, Get, Leads, Weight, RewritesColumn;
    if HasThisKey(t, row, key) {
      SourceLeads(t, row, key);
      if key in table.rows {
        FillWeighs(t, table.rows[key], Clean(t, row), key.source);
        RewritesClean(t, table.rows[key], row);
      }
    }
  }

  lemma {:induction false} AllGrown(t: Reader, rows: seq<Row>, key: Key)
    requires key.Keyed?
    ensures var table := AddAll(t, EMPTY, rows); key in table.rows ==> Grown(table, key)
  {
    hide Grown, Add;
    if rows != [] {
      AllGrown(t, rows[..|rows| - 1], key);
      AddGrows(t, AddAll(t, EMPTY, rows[..|rows| - 1]), rows[|rows| - 1], key);
    }
  }

  /** Blank sources of one key are spelled alike. */
  lemma BlankSourcesAgree(a: string, b: string, text: string)
    requires Blank(a) && Blank(b) && Leads(Lower(a), text) && Leads(Lower(b), text)
    ensures Lower(a) == Lower(b)
  {
    hide Blank, Lower, Leads, Weight;
    BlankWeighs(a);
    BlankWeighs(b);
    if Lower(a) != Lower(b) {
      LeadsApart(Lower(a), Lower(b), text);
      LeadsApart(Lower(b), Lower(a), text);
    }
  }

  /** What the row under the key shows in a column: blank exactly where all rows filed so far are. */
  lemma ShownSoFar(t: Reader, rows: seq<Row>, n: nat, key: Key, c: string)
    requires n <= |rows| && key.Keyed? && c in KEY_COLUMNS
    ensures var table := AddAll(t, EMPTY, rows[..n]);
            && (key in table.rows <==> exists i :: 0 <= i < n && HasThisKey(t, rows[i], key))
            && (key in table.rows ==>
                  (Blank(Get(table.rows[key], c)) <==> forall i | 0 <= i < n && HasThisKey(t, rows[i], key) :: Blank(Get(rows[i], c))))
  {
    hide HasThisKey, Blank, AddAll, FirstHeld, Get;
    assert c !in TARGET_FIELDS;
    AddAllShows(t, rows[..n], key, c);
    FirstHeldMeans(t, rows[..n], key, c);
    assert forall i | 0 <= i < n :: rows[..n][i] == rows[i];
  }

  /** A row rewrites a column exactly when it would rewrite it in the table so far. */
  lemma RewritesToTable(t: Reader, rows: seq<Row>, n: nat, c: string)
    requires n < |rows| && HasKey(t, rows[n]) && c in KEY_COLUMNS
    ensures var key, table := KeyAt(t, rows[n], 0), AddAll(t, EMPTY, rows[..n]);
            && (Rewrites(t, rows, n, c) ==> key in table.rows)
            && (key in table.rows ==> (Rewrites(t, rows, n, c) <==> RewritesAt(table.rows[key], rows[n], c)))
  {
    hide HasThisKey, Blank, AddAll, IdentityOf, SourceText, Get, Grown, KeyPart;
    var key, table := KeyAt(t, rows[n], 0), AddAll(t, EMPTY, rows[..n]);
    ShownSoFar(t, rows, n, key, c);
    AllGrown(t, rows[..n], key);
    if key in table.rows && Blank(Get(table.rows[key], c)) {
      forall i | 0 <= i < n && HasThisKey(t, rows[i], key) ensures KeyPart(c, Get(rows[i], c)) == KeyPart(c, Get(table.rows[key], c)) || c != "source" {
        if c == "source" { SameBlankSource(t, table, rows[i], key); }
      }
      BlankOrNot(c, Get(table.rows[key], c), Get(rows[n], c));
      forall i | 0 <= i < n && HasThisKey(t, rows[i], key) ensures c != "source" && !Blank(Get(rows[n], c)) ==> KeyPart(c, Get(rows[i], c)) != KeyPart(c, Get(rows[n], c)) {
        BlankOrNot(c, Get(rows[i], c), Get(rows[n], c));
      }
    }
  }

  lemma BlankOrNot(c: string, a: string, b: string)
    requires Blank(a)
    ensures c != "source" && !Blank(b) ==> KeyPart(c, a) != KeyPart(c, b)
  {
  }

  lemma SameBlankSource(t: Reader, table: Table, row: Row, key: Key)
    requires Grown(table, key) && HasThisKey(t, row, key) && Blank(Get(table.rows[key], "source")) && Blank(Get(row, "source"))
    ensures KeyPart("source", Get(row, "source")) == KeyPart("source", Get(table.rows[key], "source"))
  {
    hide Blank, Leads, IdentityOf, SourceText, Get, Lower;
    SourceLeads(t, row, key);
    BlankSourcesAgree(Get(row, "source"), Get(table.rows[key], "source"), key.source);
  }

  // ---- exactly when the keys hold ----

  lemma {:induction false} UnrewrittenKeysHold(t: Reader, rows: seq<Row>)
    requires NothingRewritten(t, rows)
    ensures KeysHold(AddAll(t, EMPTY, rows))
  {
    hide Rewrites, Add, KeysHold, HasKey, SourceText, IdentityOf;
    EmptyTable();
    if rows != [] {
      var n := |rows| - 1;
      forall j: nat, c ensures !Rewrites(t, rows[..n], j, c) {
        if j < n { RewritesBefore(t, rows, n, j, c); } else { RewritesInside(t, rows[..n], j, c); }
      }
      UnrewrittenKeysHold(t, rows[..n]);
      UnrewrittenFills(t, rows);
      AddHolds(t, AddAll(t, EMPTY, rows[..n]), rows[n]);
    }
  }

  lemma UnrewrittenFills(t: Reader, rows: seq<Row>)
    requires rows != [] && NothingRewritten(t, rows) && KeysHold(AddAll(t, EMPTY, rows[..|rows| - 1]))
    ensures var n := |rows| - 1; var table := AddAll(t, EMPTY, rows[..n]); var key := KeyAt(t, rows[n], |table.order|);
            key.Keyed? && key in table.rows ==> SourceText(Fill(t, table.rows[key], Clean(t, rows[n]))) == key.source
  {
    hide Rewrites, AddAll, SourceText, Fill, Clean, IdentityOf, RewritesAt;
    var n := |rows| - 1;
    var table, row := AddAll(t, EMPTY, rows[..n]), rows[n];
    var key := KeyAt(t, row, |table.order|);
    if key.Keyed? && key in table.rows {
      forall c ensures !RewritesAt(table.rows[key], row, c) {
        if c in KEY_COLUMNS { RewritesToTable(t, rows, n, c); } else { NoKeyColumn(table.rows[key], row, c); }
      }
      RewritesClean(t, table.rows[key], row);
      NothingRewrittenKeeps(t, table.rows[key], Clean(t, row));
    }
  }

  lemma NoKeyColumn(target: Row, row: Row, c: string)
    ensures RewritesAt(target, row, c) ==> c in KEY_COLUMNS
  {
  }

  /** Once a key column has been rewritten, the row's key stays heavier than the one it is filed under. */
  lemma {:induction false} RewrittenStays(t: Reader, rows: seq<Row>, j: nat, c: string)
    requires Rewrites(t, rows, j, c)
    ensures j < |rows| && Heavier(AddAll(t, EMPTY, rows), KeyAt(t, rows[j], 0))
    decreases |rows|
  {
    hide Grown, Heavier, Add, IdentityOf, SourceText, Rewrites, RewritesAt;
    RewritesInside(t, rows, j, c);
    var n, key := |rows| - 1, KeyAt(t, rows[j], 0);
    var table := AddAll(t, EMPTY, rows[..n]);
    AllGrown(t, rows[..n], key);
    AddGrows(t, table, rows[n], key);
    if j < n {
      RewritesBefore(t, rows, n, j, c);
      RewrittenStays(t, rows[..n], j, c);
    } else {
      RewritesToTable(t, rows, n, c);
      assert RewritesColumn(table.rows[key], rows[n]);
    }
  }

  lemma SomethingRewritten(t: Reader, rows: seq<Row>) returns (key: Key)
    requires !NothingRewritten(t, rows)
    ensures Heavier(AddAll(t, EMPTY, rows), key)
  {
    hide Rewrites, AddAll, Heavier;
    var j: nat, c :| Rewrites(t, rows, j, c);
    RewritesInside(t, rows, j, c);
    key := KeyAt(t, rows[j], 0);
    RewrittenStays(t, rows, j, c);
  }

  /** Exactly when the rows of a merge compute the keys they are filed under: no row rewrites a key column of the
      rows before it under the same key. */
  lemma KeysHoldExactly(t: Reader, rows: seq<Row>)
    ensures KeysHold(AddAll(t, EMPTY, rows)) <==> NothingRewritten(t, rows)
  {
    hide NothingRewritten, AddAll;
    if NothingRewritten(t, rows) { UnrewrittenKeysHold(t, rows); } else { var _ := SomethingRewritten(t, rows); }
  }

  /** Keys that can be taken apart hold: rows that share one agree in all its parts. */
  lemma PlainIsNotRewritten(t: Reader, rows: seq<Row>)
    requires AllPlain(rows)
    ensures NothingRewritten(t, rows)
  {
    hide Plain, Blank, HasKey;
    forall j: nat, c ensures !Rewrites(t, rows, j, c) {
      PlainRowKeeps(t, rows, j, c);
    }
  }

  lemma PlainRowKeeps(t: Reader, rows: seq<Row>, j: nat, c: string)
    requires AllPlain(rows)
    ensures !Rewrites(t, rows, j, c)
  {
    hide Plain, Blank, Get, Lower, SourceText, IdentityOf;
    if Rewrites(t, rows, j, c) {
      var i :| 0 <= i < j && HasThisKey(t, rows[i], KeyAt(t, rows[j], 0)) && KeyPart(c, Get(rows[i], c)) != KeyPart(c, Get(rows[j], c));
      PlainKeyParts(rows[i], rows[j]);
    }
  }

  /** So do those of the rows that the refresh writes, numbered or with URLs. */
  lemma WrittenRowsKeepTheirKeys(t: Reader, rows: seq<Row>)
    requires forall i | 0 <= i < |rows| :: Written(rows[i])
    ensures AllPlain(rows) && NothingRewritten(t, rows) && KeysHold(AddAll(t, EMPTY, rows))
  {
    hide Written, Plain, NothingRewritten, AddAll;
    forall i | 0 <= i < |rows| ensures Plain(rows[i]) { WrittenIsPlain(rows[i]); }
    PlainIsNotRewritten(t, rows);
    KeysHoldExactly(t, rows);
  }

  /** When nothing is rewritten every row of a merge, keyed or not, computes the key it is filed under, and the
      keys are distinct. */
  lemma MergedRowsKeepTheirKeys(t: Reader, rows: seq<Row>)
    requires AllReadable(t, rows) && NothingRewritten(t, rows)
    ensures var table := AddAll(t, EMPTY, rows);
            Stable(t, table) && forall i | 0 <= i < |table.order| :: KeyAt(t, table.rows[table.order[i]], i) == table.order[i]
  {
    hide Readable, AddAll, NothingRewritten, Kept;
    AddAllKept(t, rows);
    UnrewrittenKeysHold(t, rows);
    var table := AddAll(t, EMPTY, rows);
    forall i | 0 <= i < |table.order| ensures KeyAt(t, table.rows[table.order[i]], i) == table.order[i] {
      StableKey(t, table, i);
    }
  }

  lemma StableKey(t: Reader, table: Table, i: nat)
    requires Stable(t, table) && i < |table.order|
    ensures var key := table.order[i]; key in table.rows && KeyAt(t, table.rows[key], i) == key
    ensures Readable(t, table.rows[table.order[i]]) && Clean(t, table.rows[table.order[i]]) == table.rows[table.order[i]]
  {
    hide Readable, IdentityOf, SourceText, Clean, Distinct;
    assert Kept(t, table.rows[table.order[i]], table.order[i]);
  }

  // ---- merging again ----

  function FirstKeys(table: Table, n: nat): Table
    requires n <= |table.order|
  {
    Table(table.order[..n], map k | k in table.rows && k in table.order[..n] :: table.rows[k])
  }

  lemma NextKey(t: Reader, table: Table, n: nat)
    requires Stable(t, table) && n < |table.order|
    ensures Add(t, FirstKeys(table, n), table.rows[table.order[n]]) == FirstKeys(table, n + 1)
  {
    hide Readable, Kept, KeysHold, KeyAt, Clean, Fill;
    StableKey(t, table, n);
    var key := table.order[n];
    assert key !in table.order[..n];
    assert table.order[..n + 1] == table.order[..n] + [key];
  }

  /** Merging the rows of a table gives the table back. */
  lemma {:induction false} Rebuilt(t: Reader, table: Table, n: nat)
    requires Stable(t, table) && n <= |table.order|
    ensures AddAll(t, EMPTY, Listed(table)[..n]) == FirstKeys(table, n)
  {
    hide Kept, KeysHold, Add;
    if n > 0 {
      Rebuilt(t, table, n - 1);
      NextKey(t, table, n - 1);
      assert Listed(table)[..n][..n - 1] == Listed(table)[..n - 1];
    }
  }

  lemma AllFirstKeys(table: Table)
    ensures (forall k | k in table.rows :: k in table.order) ==> FirstKeys(table, |table.order|) == table
  {
    assert table.order[..|table.order|] == table.order;
  }

  lemma TableOfMerge(t: Reader, rows: seq<Row>)
    requires AllReadable(t, rows) && NothingRewritten(t, rows)
    ensures var table := AddAll(t, EMPTY, rows);
            Stable(t, table) && AddAll(t, EMPTY, Listed(table)) == table && AllReadable(t, Listed(table))
  {
    hide Add, Readable, Kept, KeysHold, AddAll, FirstKeys, NothingRewritten, KeyAt;
    MergedRowsKeepTheirKeys(t, rows);
    var table := AddAll(t, EMPTY, rows);
    Rebuilt(t, table, |table.order|);
    AllFirstKeys(table);
    assert Listed(table)[..|table.order|] == Listed(table);
    forall i | 0 <= i < |table.order| ensures Readable(t, Listed(table)[i]) {
      StableKey(t, table, i);
    }
  }

  lemma Readables(t: Reader, a: seq<Row>, b: seq<Row>)
    ensures AllReadable(t, a + b) <==> AllReadable(t, a) && AllReadable(t, b)
  {
    hide Readable;
    assert forall i | 0 <= i < |a| :: (a + b)[i] == a[i];
    assert forall i | 0 <= i < |b| :: (a + b)[|a| + i] == b[i];
  }

  /** Merging in two steps is merging once, whatever comes in the second. */
  lemma MergeInTwoSteps(t: Reader, a: seq<Row>, b: seq<Row>, c: seq<Row>)
    requires AllReadable(t, a + b + c) && NothingRewritten(t, a + b)
    ensures AllReadable(t, Merged(t, a, b) + c)
    ensures Merged(t, Merged(t, a, b), c) == Merged(t, a, b + c)
  {
    hide AllReadable, AddAll, Stable, Merged, NothingRewritten;
    Readables(t, a + b, c);
    TableOfMerge(t, a + b);
    var table := AddAll(t, EMPTY, a + b);
    MergedIs(t, a, b, table);
    var first := Listed(table);
    Readables(t, first, c);
    AddAllConcat(t, EMPTY, first, c);
    AddAllConcat(t, EMPTY, a + b, c);
    assert a + b + c == a + (b + c);
    MergedIs(t, first, c, AddAll(t, EMPTY, first + c));
    MergedIs(t, a, b + c, AddAll(t, EMPTY, a + (b + c)));
  }

  /** Merging what came out changes nothing. */
  lemma MergeOfMerged(t: Reader, a: seq<Row>, b: seq<Row>)
    requires AllReadable(t, a + b) && NothingRewritten(t, a + b)
    ensures Merged(t, Merged(t, a, b), []) == Merged(t, a, b)
  {
    assert a + b + [] == a + b && b + [] == b;
    MergeInTwoSteps(t, a, b, []);
  }

  // ---- nothing new to merge ----

  ghost predicate Absorbs(t: Reader, table: Table, row: Row) {
    && HasKey(t, row) && KeyAt(t, row, 0) in table.rows
    && forall f | Held(t, f, Get(row, f)) :: Held(t, f, Get(table.rows[KeyAt(t, row, 0)], f))
  }

  lemma AddAbsorbs(t: Reader, table: Table, row: Row)
    requires HasKey(t, row)
    ensures Absorbs(t, Add(t, table, row), row)
  {
    hide HasKey, Held, Fill, Clean;
    var key := KeyAt(t, row, 0);
    forall f | Held(t, f, Get(row, f)) ensures Held(t, f, Get(Add(t, table, row).rows[key], f)) {
      FillHolds(t, if key in table.rows then table.rows[key] else map[], row, f);
    }
  }

  lemma AddKeepsAbsorbed(t: Reader, table: Table, row: Row, other: Row)
    requires Absorbs(t, table, row)
    ensures Absorbs(t, Add(t, table, other), row)
  {
    hide HasKey, Held, Fill, Clean;
    var key := KeyAt(t, row, 0);
    forall f | Held(t, f, Get(row, f)) ensures Held(t, f, Get(Add(t, table, other).rows[key], f)) {
      FillHolds(t, table.rows[key], other, f);
    }
  }

  lemma NoFillIsSame(t: Reader, target: Row, row: Row)
    requires forall f :: !Fills(t, target, row, f)
    ensures Fill(t, target, row) == target
  {
    hide Fills;
  }

  lemma AbsorbedAddsNothing(t: Reader, table: Table, row: Row)
    requires Absorbs(t, table, row)
    ensures Add(t, table, row) == table
  {
    hide HasKey, Held, Fill, Clean;
    var key, target, clean := KeyAt(t, row, 0), table.rows[KeyAt(t, row, 0)], Clean(t, row);
    forall f ensures !Fills(t, target, clean, f) {
      FillHolds(t, target, row, f);
    }
    NoFillIsSame(t, target, clean);
  }

  lemma {:induction false} Absorbed(t: Reader, rows: seq<Row>, j: nat)
    requires j < |rows| && HasKey(t, rows[j])
    ensures Absorbs(t, AddAll(t, EMPTY, rows), rows[j])
    decreases |rows|
  {
    hide Absorbs, Add, HasKey;
    var n := |rows| - 1;
    if j == n {
      AddAbsorbs(t, AddAll(t, EMPTY, rows[..n]), rows[n]);
    } else {
      Absorbed(t, rows[..n], j);
      AddKeepsAbsorbed(t, AddAll(t, EMPTY, rows[..n]), rows[j], rows[n]);
    }
  }

  lemma {:induction false} AbsorbedAddNothing(t: Reader, table: Table, rows: seq<Row>)
    requires forall i | 0 <= i < |rows| :: Absorbs(t, table, rows[i])
    ensures AddAll(t, table, rows) == table
  {
    hide Absorbs, Add;
    if rows != [] {
      AbsorbedAddNothing(t, table, rows[..|rows| - 1]);
      AbsorbedAddsNothing(t, table, rows[|rows| - 1]);
    }
  }

  /** Rows of the first merge, merged again behind it, change nothing. */
  lemma AgainIsNothing(t: Reader, a: seq<Row>, b: seq<Row>, c: seq<Row>)
    requires AllReadable(t, a + b) && NothingRewritten(t, a + b)
    requires forall i | 0 <= i < |c| :: HasKey(t, c[i]) && c[i] in a + b
    ensures Merged(t, Merged(t, a, b), c) == Merged(t, a, b)
  {
    hide Absorbs, Add, HasKey, NothingRewritten, Readable;
    var rows := a + b;
    assert forall i | 0 <= i < |c| :: Readable(t, c[i]);
    Readables(t, rows, c);
    MergeInTwoSteps(t, a, b, c);
    forall i | 0 <= i < |c| ensures Absorbs(t, AddAll(t, EMPTY, rows), c[i]) {
      var j :| 0 <= j < |rows| && rows[j] == c[i];
      Absorbed(t, rows, j);
    }
    AddAllConcat(t, EMPTY, rows, c);
    AbsorbedAddNothing(t, AddAll(t, EMPTY, rows), c);
    assert rows + c == a + (b + c);
    MergedIs(t, a, b, AddAll(t, EMPTY, rows));
    MergedIs(t, a, b + c, AddAll(t, EMPTY, a + (b + c)));
  }

  /** Publishing the same keyed recoveries again changes nothing. */
  lemma MergeIsIdempotent(t: Reader, a: seq<Row>, b: seq<Row>)
    requires AllReadable(t, a + b) && NothingRewritten(t, a + b)
    requires forall i | 0 <= i < |b| :: HasKey(t, b[i])
    ensures Merged(t, Merged(t, a, b), b) == Merged(t, a, b)
  {
    hide HasKey, NothingRewritten, Readable;
    assert forall i | 0 <= i < |b| :: (a + b)[|a| + i] == b[i];
    AgainIsNothing(t, a, b, b);
  }

  // ---- and exactly when ----

  function KeyLoad(key: Key): nat {
    if key.Keyed? then Weight(key.source) else 0
  }

  lemma {:induction false} Lightest(keys: set<Key>, some: Key) returns (key: Key)
    requires some in keys
    ensures key in keys && forall k | k in keys :: KeyLoad(key) <= KeyLoad(k)
    decreases KeyLoad(some)
  {
    hide KeyLoad;
    if k :| k in keys && KeyLoad(k) < KeyLoad(some) { key := Lightest(keys, k); } else { key := some; }
  }

  /** With the lightest of the keys that do not hold, no row of the table computes that key. */
  lemma NobodyComputes(t: Reader, table: Table, key: Key, i: nat)
    requires AllKept(t, table) && Heavier(table, key) && i < |table.order|
    requires forall k | k in table.rows && k.Keyed? :: Grown(table, k)
    requires forall k | Heavier(table, k) :: KeyLoad(key) <= KeyLoad(k)
    ensures !HasThisKey(t, table.rows[table.order[i]], key)
  {
    hide Readable, IdentityOf, SourceText, Clean, Distinct, Weight, Leads;
    var other := table.order[i];
    assert Kept(t, table.rows[other], other);
    if other.Keyed? { assert Grown(table, other); }
  }

  lemma LightestBroken(t: Reader, rows: seq<Row>) returns (key: Key)
    requires AllReadable(t, rows) && !NothingRewritten(t, rows)
    ensures var table := AddAll(t, EMPTY, rows);
            Heavier(table, key) && Filed(table) && forall i | 0 <= i < |table.order| :: !HasThisKey(t, Listed(table)[i], key)
  {
    hide Readable, NothingRewritten, AddAll, Heavier, Kept, HasThisKey, Grown, KeyLoad;
    var some := SomethingRewritten(t, rows);
    var table := AddAll(t, EMPTY, rows);
    assert table.rows.Keys >= {some} by { HeavierFiled(table, some); }
    var keys := set k | k in table.rows && Heavier(table, k);
    key := Lightest(keys, some);
    AddAllKept(t, rows);
    forall k | k in table.rows && k.Keyed? ensures Grown(table, k) { AllGrown(t, rows, k); }
    forall k | Heavier(table, k) ensures KeyLoad(key) <= KeyLoad(k) { HeavierFiled(table, k); }
    forall i | 0 <= i < |table.order| ensures !HasThisKey(t, Listed(table)[i], key) {
      NobodyComputes(t, table, key, i);
    }
  }

  lemma HeavierFiled(table: Table, key: Key)
    requires Heavier(table, key)
    ensures key in table.rows && key.Keyed?
  {
  }

  /** A row whose key none of the others has comes out last. */
  lemma LastIsNew(t: Reader, rows: seq<Row>, row: Row, key: Key)
    requires HasThisKey(t, row, key) && forall i | 0 <= i < |rows| :: !HasThisKey(t, rows[i], key)
    ensures var out := Merged(t, rows, [row]); out != [] && HasThisKey(t, out[|out| - 1], key)
  {
    hide AddAll, IdentityOf, SourceText, Clean, FirstHeld, Shows;
    var table := AddAll(t, EMPTY, rows);
    AddAllShows(t, rows, key, "name");
    AddAllConcat(t, EMPTY, rows, [row]);
    OneRow(t, table, row);
    MergedIs(t, rows, [row], Add(t, table, row));
    CleanKeepsKey(t, row);
  }

  lemma OneRow(t: Reader, table: Table, row: Row)
    ensures AddAll(t, table, [row]) == Add(t, table, row)
  {
    hide Add;
    assert [row][..0] == [];
  }

  /** Exactly when every keyed row can be merged again behind what the merge gave, and changes nothing. */
  lemma RemergeExactly(t: Reader, rows: seq<Row>)
    requires AllReadable(t, rows)
    ensures (forall j | 0 <= j < |rows| && HasKey(t, rows[j]) :: Merged(t, Merged(t, rows, []), [rows[j]]) == Merged(t, rows, []))
            <==> NothingRewritten(t, rows)
  {
    hide Readable, HasKey, Merged, NothingRewritten, AddAll;
    assert rows + [] == rows;
    if NothingRewritten(t, rows) {
      forall j | 0 <= j < |rows| && HasKey(t, rows[j]) ensures Merged(t, Merged(t, rows, []), [rows[j]]) == Merged(t, rows, []) {
        AgainIsNothing(t, rows, [], [rows[j]]);
      }
    } else {
      var j := SplitRow(t, rows);
    }
  }

  /** Otherwise one of the rows, merged again, comes out once more. */
  lemma SplitRow(t: Reader, rows: seq<Row>) returns (j: nat)
    requires AllReadable(t, rows) && !NothingRewritten(t, rows)
    ensures j < |rows| && HasKey(t, rows[j]) && Merged(t, Merged(t, rows, []), [rows[j]]) != Merged(t, rows, [])
  {
    hide Readable, HasKey, KeyAt, Merged, NothingRewritten, AddAll, Heavier, FirstHeld, Shows;
    assert rows + [] == rows;
    var key := LightestBroken(t, rows);
    var table := AddAll(t, EMPTY, rows);
    HeavierFiled(table, key);
    AddAllShows(t, rows, key, "name");
    j :| 0 <= j < |rows| && HasThisKey(t, rows[j], key);
    MergedIs(t, rows, [], table);
    LastIsNew(t, Listed(table), rows[j], key);
  }

  // ---- rows that break a key ----

  lemma AddTwo(t: Reader, a: Row, b: Row)
    requires KeyAt(t, a, 0).Keyed? && KeyAt(t, b, 0).Keyed?
    ensures var k, l := KeyAt(t, a, 0), KeyAt(t, b, 0);
            AddAll(t, EMPTY, [a, b]) == if k == l then Table([k], map[k := Fill(t, Clean(t, a), Clean(t, b))])
                                        else Table([k, l], map[k := Clean(t, a), l := Clean(t, b)])
  {
    hide HasKey, Fill, Clean, AddAll, IdentityOf, SourceText;
    assert [a, b] == [a] + [b];
    AddAllConcat(t, EMPTY, [a], [b]);
    OneRow(t, EMPTY, a);
    OneRow(t, Add(t, EMPTY, a), b);
    assert Add(t, EMPTY, a) == Table([KeyAt(t, a, 0)], map[KeyAt(t, a, 0) := Clean(t, a)]);
  }

  lemma ClashOfTwo(t: Reader, a: Row, b: Row)
    requires Readable(t, a) && Readable(t, b) && HasKey(t, a) && KeyAt(t, a, 0) == KeyAt(t, b, 0) && RewritesColumn(a, b)
    ensures var joined := Fill(t, Clean(t, a), Clean(t, b)); HasKey(t, joined) && KeyAt(t, joined, 0) != KeyAt(t, b, 0)
  {
    hide Readable, Clean, Fill, SourceText, StableId, Get, RewritesColumn, Leads, Weight;
    var target, row, key := Clean(t, a), Clean(t, b), KeyAt(t, a, 0);
    CleanKeepsKey(t, a);
    CleanKeepsKey(t, b);
    SourceLeads(t, a, key);
    SourceLeads(t, b, key);
    RewritesClean(t, target, b);
    RewritesOfClean(t, a, b);
    FillWeighs(t, target, row, key.source);
    NoWeight();
    FillKeepsIdentity(t, target, row);
  }

  lemma NoWeight()
    ensures Weight("") == 1
  {
  }

  lemma RewritesOfClean(t: Reader, target: Row, row: Row)
    ensures RewritesColumn(Clean(t, target), row) <==> RewritesColumn(target, row)
  {
    hide Clean, Get, Blank, KeyPart;
    SourceOfClean(t, target);
    assert forall c :: RewritesAt(Clean(t, target), row, c) <==> RewritesAt(target, row, c);
  }

  /** Two rows that share a key of which the second rewrites a column of the first: merged they are filed under
      a key their row no longer computes, and merging the second again splits what one merge joined. */
  lemma BrokenKeySplits(t: Reader, a: Row, b: Row)
    requires Readable(t, a) && Readable(t, b) && HasKey(t, a) && KeyAt(t, a, 0) == KeyAt(t, b, 0) && RewritesColumn(a, b)
    ensures |Merged(t, [a], [b])| == 1 && |Merged(t, Merged(t, [a], [b]), [b])| == 2
  {
    hide Readable, Clean, Fill, Merged, AddAll, IdentityOf, SourceText, RewritesColumn;
    ClashOfTwo(t, a, b);
    var joined := Fill(t, Clean(t, a), Clean(t, b));
    AddTwo(t, a, b);
    assert [a] + [b] == [a, b] && [joined] + [b] == [joined, b];
    var first := AddAll(t, EMPTY, [a, b]);
    MergedIs(t, [a], [b], first);
    assert Listed(first) == [joined];
    AddTwo(t, joined, b);
    MergedIs(t, [joined], [b], AddAll(t, EMPTY, [joined, b]));
  }

  lemma NameOnly(t: Reader, row: Row)
    requires forall c | c in STRICT_CARRIERS + {"fighter_url"} :: c !in row
    ensures Readable(t, row) && IdentityOf(t, row) == ByName(t.normal(Get(row, "name")))
  {
    assert "stable_ufcstats_id" in STRICT_CARRIERS && "fighter_id" in STRICT_CARRIERS && "ufcstats_url" in STRICT_CARRIERS;
  }

  /** Such rows exist: source "espn:1" with no entity, and source "espn" with entity "1". The refresh itself
      never writes the first; it can only be in a table that another program wrote. */
  lemma ColonsBreakKeys(t: Reader, name: string)
    requires t.normal(name) != ""
    ensures var whole := map["name" := name, "source" := "espn:1"];
            var parted := map["name" := name, "source" := "espn", "source_entity_id" := "1"];
            |Merged(t, [whole], [parted])| == 1 && |Merged(t, Merged(t, [whole], [parted]), [parted])| == 2
  {
    hide Merged, Readable, IdentityOf;
    var whole := map["name" := name, "source" := "espn:1"];
    var parted := map["name" := name, "source" := "espn", "source_entity_id" := "1"];
    NameOnly(t, whole);
    NameOnly(t, parted);
    assert Lower("espn:1") == "espn:1" && Lower("espn") == "espn";
    assert "espn" + ":" + "1" == "espn:1";
    assert SourceText(whole) == "espn:1" == SourceText(parted);
    assert RewritesAt(whole, parted, "source_entity_id");
    BrokenKeySplits(t, whole, parted);
  }

  /** With a placeholder in a key column the key may hold although something is brought: a missing source is read
      as "nan", and one in capitals replaces it. */
  lemma PlaceholderKeepsKey(t: Reader, name: string)
    requires t.normal(name) != ""
    ensures var rows := [map["name" := name, "source" := "nan"], map["name" := name, "source" := "NAN"]];
            Brings(t, rows, 1, "source") && KeysHold(AddAll(t, EMPTY, rows))
  {
    hide Readable, IdentityOf, AddAll, Clean, Fill, SourceText;
    var missing, named := map["name" := name, "source" := "nan"], map["name" := name, "source" := "NAN"];
    NameOnly(t, missing);
    NameOnly(t, named);
    SourceOnly(missing);
    SourceOnly(named);
    assert Lower("nan") == "nan" == Lower("NAN");
    AddTwo(t, missing, named);
    assert "source" in KEY_COLUMNS && HasThisKey(t, [missing, named][0], KeyAt(t, named, 0));
    SourceOfClean(t, missing);
    SourceOfClean(t, named);
    FillKeepsText(t, Clean(t, missing), Clean(t, named));
  }

  lemma SourceOnly(row: Row)
    requires "source_entity_id" !in row && "source_observation_id" !in row
    ensures SourceText(row) == Lower(Get(row, "source"))
  {
    assert Lower(Get(row, "source")) + "" + "" == Lower(Get(row, "source"));
  }

  lemma FillKeepsText(t: Reader, target: Row, row: Row)
    requires Get(target, "source") == "nan" && Get(row, "source") == "NAN"
    requires forall c | c in KEY_COLUMNS && c != "source" :: Get(target, c) == "" == Get(row, c)
    ensures SourceText(Fill(t, target, row)) == "nan"
  {
    hide Fill, Get;
    assert "source" in KEY_COLUMNS && "source_entity_id" in KEY_COLUMNS && "source_observation_id" in KEY_COLUMNS;
    FillsColumn(t, target, row, "source");
    FillsColumn(t, target, row, "source_entity_id");
    FillsColumn(t, target, row, "source_observation_id");
    assert Lower("NAN") == "nan";
  }
}
