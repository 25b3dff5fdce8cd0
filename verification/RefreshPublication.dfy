/** scripts/build_profile_supplement_from_external_profiles.py: the end of a refresh run, where the recovered
    rows are merged into the output, sorted and written, or nothing is. */
module RefreshPublication {
  import opened Common
  import opened RowMerge
  import opened RowKeys
  import opened RowMergeLaws
  import opened RefreshRun

  // ---- the sort by name and source ----

  /** `less` compares two rows by name and source, with missing values last. */
  ghost predicate Ordering(less: (Row, Row) -> bool) {
    && (forall a :: !less(a, a))
    && (forall a, b, c :: less(a, b) && less(b, c) ==> less(a, c))
    && (forall a, b, c :: less(a, c) ==> less(a, b) || less(b, c))
  }

  ghost predicate Sorted(rows: seq<Row>, less: (Row, Row) -> bool) {
    forall i, j | 0 <= i < j < |rows| :: !less(rows[j], rows[i])
  }

  function Insert(rows: seq<Row>, row: Row, less: (Row, Row) -> bool): seq<Row> {
    if rows != [] && less(row, rows[|rows| - 1]) then Insert(rows[..|rows| - 1], row, less) + [rows[|rows| - 1]] else rows + [row]
  }

  /** Rows that compare equal stay in the order they had. */
  function Sort(rows: seq<Row>, less: (Row, Row) -> bool): seq<Row> {
    if rows == [] then [] else Insert(Sort(rows[..|rows| - 1], less), rows[|rows| - 1], less)
  }

  lemma {:induction false} InsertSorted(rows: seq<Row>, row: Row, less: (Row, Row) -> bool)
    requires Ordering(less) && Sorted(rows, less)
    ensures Sorted(Insert(rows, row, less), less)
    ensures multiset(Insert(rows, row, less)) == multiset(rows) + multiset{row}
  {
    if rows != [] && less(row, rows[|rows| - 1]) {
      var front, last := rows[..|rows| - 1], rows[|rows| - 1];
      assert rows == front + [last];
      InsertSorted(front, row, less);
      var inserted := Insert(front, row, less);
      forall i | 0 <= i < |inserted| ensures !less(last, inserted[i]) {
        assert inserted[i] in multiset(inserted);
        assert inserted[i] in front || inserted[i] == row;
      }
    } else {
      AppendSorted(rows, row, less);
    }
  }

  lemma AppendSorted(rows: seq<Row>, row: Row, less: (Row, Row) -> bool)
    requires Ordering(less) && Sorted(rows, less) && (rows != [] ==> !less(row, rows[|rows| - 1]))
    ensures Sorted(rows + [row], less)
  {
    forall i | 0 <= i < |rows| ensures !less(row, rows[i]) {
      assert i == |rows| - 1 || !less(rows[|rows| - 1], rows[i]);
    }
  }

  lemma NothingToSort(less: (Row, Row) -> bool)
    ensures Sorted([], less)
  {
  }

  /** The sort loses and invents no row, and puts them in order. */
  lemma {:induction false} SortSorts(rows: seq<Row>, less: (Row, Row) -> bool)
    requires Ordering(less)
    ensures Sorted(Sort(rows, less), less) && multiset(Sort(rows, less)) == multiset(rows)
  {
    hide Insert, Ordering, Sorted;
    if rows == [] {
      NothingToSort(less);
    } else {
      SortSorts(rows[..|rows| - 1], less);
      InsertSorted(Sort(rows[..|rows| - 1], less), rows[|rows| - 1], less);
      assert rows == rows[..|rows| - 1] + [rows[|rows| - 1]];
    }
  }

  lemma {:induction false} SortOfSorted(rows: seq<Row>, less: (Row, Row) -> bool)
    requires Sorted(rows, less)
    ensures Sort(rows, less) == rows
  {
    if rows != [] { SortOfSorted(rows[..|rows| - 1], less); }
  }

  // ---- publication ----

  datatype Action = ProcessingErrors | SourceErrors | IdentityRejections | NoChanges | Updated | IncompleteReferences

  function Rows(results: seq<Recovery>): seq<Row> {
    seq(|results|, i requires 0 <= i < |results| => results[i].row)
  }

  predicate Publishable(run: Run) {
    run.processing == 0 && run.failures == 0 && run.rejections == 0 && run.results != []
  }

  /** The end of `run_profile_supplement_refresh`: what the output holds afterwards, and what of the run is
      reported as published. None where the merge raises, which leaves the output alone too. When the rows
      are written but recording their references fails, they stay written and nothing is reported. */
  method Publish(t: Reader, run: Run, existing: seq<Row>, output: Option<seq<Row>>, less: (Row, Row) -> bool, recorded: bool)
    returns (action: Option<Action>, output': Option<seq<Row>>, published: seq<Recovery>)
    requires Ordering(less)
    ensures var written := Publishable(run) && AllReadable(t, existing + Rows(run.results));
            && (written ==>
                  && action == Some(if recorded then Updated else IncompleteReferences)
                  && output'.Some? && Sorted(output'.value, less)
                  && multiset(output'.value) == multiset(Merged(t, existing, Rows(run.results)))
                  && output' == Some(Sort(Merged(t, existing, Rows(run.results)), less)))
            && (!written ==> output' == output && action !in {Some(Updated), Some(IncompleteReferences)})
            && published == (if written && recorded then run.results else [])
    ensures action == Some(ProcessingErrors) <==> run.processing > 0
    ensures action == Some(SourceErrors) <==> run.processing == 0 && run.failures > 0
    ensures action == Some(IdentityRejections) <==> run.processing == 0 && run.failures == 0 && run.rejections > 0
    ensures action == Some(NoChanges) <==> run.processing == 0 && run.failures == 0 && run.rejections == 0 && run.results == []
    ensures action == None <==> Publishable(run) && !AllReadable(t, existing + Rows(run.results))
  {
    hide AllReadable, Merged, Sort, Sorted, Ordering;
    output', published := output, [];
    if run.processing > 0 { return Some(ProcessingErrors), output', published; }
    if run.failures > 0 { return Some(SourceErrors), output', published; }
    if run.rejections > 0 { return Some(IdentityRejections), output', published; }
    if run.results == [] { return Some(NoChanges), output', published; }
    var combined := MergeSourceRows(t, existing, Rows(run.results));
    if combined.None? { return None, output', published; }
    SortSorts(combined.value, less);
    output' := Some(Sort(combined.value, less));
    if recorded { return Some(Updated), output', run.results; }
    return Some(IncompleteReferences), output', [];
  }

  /** `run_profile_supplement_refresh` from the first candidate to the output. One turn that counts against the
      run, whichever and wherever, leaves the output as it was and reports nothing; a run without any, and with
      a recovery, writes the merge. */
  method RunRefresh(t: Reader, state: map<string, Profile>, keys: seq<string>, sources: seq<string>, ask: (nat, string) -> Answer,
                    existing: seq<Row>, output: Option<seq<Row>>, less: (Row, Row) -> bool, recorded: bool)
    returns (action: Option<Action>, output': Option<seq<Row>>, published: seq<Recovery>)
    requires Ordering(less)
    ensures var turns := AllTurns(keys, sources, ask, |keys|);
            && (action == Some(ProcessingErrors) <==> Counted(t, state, turns, Processing) != {})
            && (action == Some(SourceErrors) <==> Counted(t, state, turns, Processing) == {} && Counted(t, state, turns, Failure) != {})
            && (action == Some(IdentityRejections) <==>
                  Counted(t, state, turns, Processing) == {} == Counted(t, state, turns, Failure) && Counted(t, state, turns, Rejection) != {})
            && (action == Some(NoChanges) <==>
                  Counted(t, state, turns, Processing) == Counted(t, state, turns, Failure) == Counted(t, state, turns, Rejection) == {}
                  && Recovering(t, state, turns) == {})
            && (action in {Some(Updated), Some(IncompleteReferences), None} ==>
                  exists recovered ::
                    && AreRecoveries(t, state, turns, recovered) && (action == None <==> !AllReadable(t, existing + Rows(recovered)))
                    && (action.Some? ==>
                          && action == Some(if recorded then Updated else IncompleteReferences)
                          && output'.Some? && Sorted(output'.value, less)
                          && multiset(output'.value) == multiset(Merged(t, existing, Rows(recovered)))
                          && published == if recorded then recovered else []))
            && (action !in {Some(Updated), Some(IncompleteReferences)} ==> output' == output && published == [])
    ensures forall k: nat, veto | Counts(t, state, AllTurns(keys, sources, ask, |keys|), k, veto) :: output' == output && published == []
  {
    hide Over, Counted, Recovering, Merged, AllReadable, Sort, Sorted, Ordering, RecoveredIn, EspnOut, Asked, Adds;
    var run := Refresh(t, state, keys, sources, ask);
    ghost var turns := AllTurns(keys, sources, ask, |keys|);
    CandidatesInTurn(t, Start(state), keys, sources, ask, |keys|);
    RunIsItsTurns(t, state, turns);
    action, output', published := Publish(t, run, existing, output, less, recorded);
    assert AreRecoveries(t, state, turns, run.results);
    forall k: nat, veto | Counts(t, state, turns, k, veto) ensures Counted(t, state, turns, veto) != {} {
      CountedAtAll(t, state, turns, k, veto);
    }
  }

  /** The recoveries of the turns that recover, one for each and in their order. */
  ghost predicate AreRecoveries(t: Reader, start: map<string, Profile>, turns: seq<Turn>, recovered: seq<Recovery>) {
    && |recovered| == |Recovering(t, start, turns)|
    && forall i | 0 <= i < |recovered| :: RecoveredIn(t, start, turns, recovered[i], i)
  }

  lemma CountedAtAll(t: Reader, start: map<string, Profile>, turns: seq<Turn>, k: nat, veto: Veto)
    requires Counts(t, start, turns, k, veto)
    ensures Counted(t, start, turns, veto) != {}
  {
    hide Over, Has, ProfileOf, RecoverableFields, Adds;
    assert k in Counted(t, start, turns, veto);
  }

  /** Publishing never touches what the first holder of a field in the existing rows put there. */
  lemma PublishedRowsKeepHeldFields(t: Reader, existing: seq<Row>, results: seq<Recovery>, key: Key, field: string, i: nat)
    requires key.Keyed? && FirstHolder(t, existing, key, field, i)
    ensures var table := AddAll(t, EMPTY, existing + Rows(results));
            key in table.rows && Get(table.rows[key], field) == Get(existing[i], field)
  {
    hide HasThisKey, Held;
    var all := existing + Rows(results);
    FirstHolderWins(t, all, key, field);
    assert forall j | 0 <= j <= i :: all[j] == existing[j];
    assert FirstHolder(t, all, key, field, i);
  }

  // ---- publishing again over the sorted output ----

  /** Rows that a merge leaves as they are: cleaned, and with keys of their own. */
  ghost predicate Apart(t: Reader, rows: seq<Row>) {
    && (forall i | 0 <= i < |rows| :: Readable(t, rows[i]) && Clean(t, rows[i]) == rows[i])
    && (forall i, j | 0 <= i < j < |rows| && HasKey(t, rows[i]) && HasKey(t, rows[j]) :: KeyAt(t, rows[i], 0) != KeyAt(t, rows[j], 0))
  }

  /** The table of rows that are apart: each under the key it computes where it stands. */
  ghost predicate FiledAsIs(t: Reader, table: Table, rows: seq<Row>) {
    && |table.order| == |rows|
    && (forall i | 0 <= i < |rows| :: table.order[i] == KeyAt(t, rows[i], i) && table.order[i] in table.rows && table.rows[table.order[i]] == rows[i])
    && (forall k | k in table.rows :: k in table.order)
  }

  lemma NotFiledYet(t: Reader, table: Table, rows: seq<Row>, n: nat)
    requires n < |rows| && Apart(t, rows) && FiledAsIs(t, table, rows[..n])
    ensures KeyAt(t, rows[n], n) !in table.rows
  {
    hide HasKey, Readable, Clean, IdentityOf, SourceText;
    assert forall i | 0 <= i < n :: rows[..n][i] == rows[i];
  }

  lemma {:induction false} ApartFiles(t: Reader, rows: seq<Row>, n: nat)
    requires Apart(t, rows) && n <= |rows|
    ensures FiledAsIs(t, AddAll(t, EMPTY, rows[..n]), rows[..n])
  {
    hide Apart, Readable, KeyAt, Clean, FiledAsIs, Add;
    if n == 0 {
      assert FiledAsIs(t, EMPTY, rows[..0]) by { NothingFiled(t); }
    } else {
      ApartFiles(t, rows, n - 1);
      var table, row := AddAll(t, EMPTY, rows[..n - 1]), rows[n - 1];
      OneMoreRow(t, rows, n - 1);
      NotFiledYet(t, table, rows, n - 1);
      CleanApart(t, rows, n - 1);
      FileOne(t, table, rows[..n - 1], row);
      assert rows[..n] == rows[..n - 1] + [row];
    }
  }

  lemma NothingFiled(t: Reader)
    ensures FiledAsIs(t, EMPTY, [])
  {
  }

  lemma CleanApart(t: Reader, rows: seq<Row>, i: nat)
    requires Apart(t, rows) && i < |rows|
    ensures Clean(t, rows[i]) == rows[i] && Readable(t, rows[i])
  {
    hide Clean, Readable, KeyAt, HasKey;
  }

  lemma FileOne(t: Reader, table: Table, rows: seq<Row>, row: Row)
    requires FiledAsIs(t, table, rows) && Clean(t, row) == row && KeyAt(t, row, |rows|) !in table.rows
    ensures FiledAsIs(t, Add(t, table, row), rows + [row])
  {
    hide Clean, KeyAt;
  }

  // ---- the same rows in another order ----

  lemma {:induction false} Occurs(rows: seq<Row>, i: nat, j: nat)
    requires i < j < |rows| && rows[i] == rows[j]
    ensures multiset(rows)[rows[i]] >= 2
  {
    assert rows == rows[..j] + [rows[j]] + rows[j + 1..];
    assert rows[..j][i] in rows[..j];
  }

  lemma {:induction false} OccursTwice(rows: seq<Row>, row: Row) returns (i: nat, j: nat)
    requires multiset(rows)[row] >= 2
    ensures i < j < |rows| && rows[i] == row == rows[j]
  {
    var n := |rows| - 1;
    assert rows == rows[..n] + [rows[n]];
    if rows[n] == row {
      assert row in multiset(rows[..n]);
      i :| 0 <= i < n && rows[..n][i] == row;
      j := n;
    } else {
      i, j := OccursTwice(rows[..n], row);
    }
  }

  /** What a stable table lists is apart, in whatever order. */
  lemma ListedApart(t: Reader, table: Table, rows: seq<Row>)
    requires Stable(t, table) && multiset(rows) == multiset(Listed(table))
    ensures Apart(t, rows)
  {
    hide Readable, RowMergeLaws.Kept, KeysHold, KeyAt, Clean, HasKey;
    forall i | 0 <= i < |rows| ensures Readable(t, rows[i]) && Clean(t, rows[i]) == rows[i] {
      var k := PlaceOf(t, table, rows, i);
    }
    forall i, j | 0 <= i < j < |rows| && HasKey(t, rows[i]) && HasKey(t, rows[j]) ensures KeyAt(t, rows[i], 0) != KeyAt(t, rows[j], 0) {
      var k := PlaceOf(t, table, rows, i);
      var l := PlaceOf(t, table, rows, j);
      if KeyAt(t, rows[i], 0) == KeyAt(t, rows[j], 0) {
        KeyAnywhere(t, rows[i], k);
        KeyAnywhere(t, rows[j], l);
        Occurs(rows, i, j);
        var a, b := OccursTwice(Listed(table), rows[i]);
        StableKey(t, table, a);
        StableKey(t, table, b);
        KeyAnywhere(t, rows[i], a);
        KeyAnywhere(t, rows[i], b);
      }
    }
  }

  lemma KeyAnywhere(t: Reader, row: Row, n: nat)
    ensures HasKey(t, row) ==> KeyAt(t, row, n) == KeyAt(t, row, 0)
  {
  }

  lemma PlaceOf(t: Reader, table: Table, rows: seq<Row>, i: nat) returns (k: nat)
    requires Stable(t, table) && multiset(rows) == multiset(Listed(table)) && i < |rows|
    ensures k < |table.order| && table.order[k] in table.rows && rows[i] == table.rows[table.order[k]]
    ensures Readable(t, rows[i]) && Clean(t, rows[i]) == rows[i] && KeyAt(t, rows[i], k) == table.order[k]
  {
    hide Readable, RowMergeLaws.Kept, KeysHold, KeyAt, Clean;
    assert rows[i] in multiset(rows);
    assert rows[i] in Listed(table);
    k :| 0 <= k < |table.order| && Listed(table)[k] == rows[i];
    StableKey(t, table, k);
  }

  /** What the table absorbs, the table of the same rows in another order absorbs. */
  lemma StillAbsorbs(t: Reader, table: Table, rows: seq<Row>, table': Table, row: Row)
    requires Stable(t, table) && multiset(rows) == multiset(Listed(table)) && FiledAsIs(t, table', rows)
    requires Absorbs(t, table, row)
    ensures Absorbs(t, table', row)
  {
    hide Readable, RowMergeLaws.Kept, KeysHold, Clean, Held, IdentityOf, SourceText;
    var key := KeyAt(t, row, 0);
    var k :| 0 <= k < |table.order| && table.order[k] == key;
    assert Listed(table)[k] in multiset(Listed(table));
    assert table.rows[key] in multiset(rows);
    var i :| 0 <= i < |rows| && rows[i] == table.rows[key];
    StableKey(t, table, k);
    assert table'.order[i] == key;
  }

  /** Publishing the same keyed recoveries over what was published, in whatever order the rows are now, merges
      into exactly those rows. */
  lemma MergedInAnyOrder(t: Reader, existing: seq<Row>, recovered: seq<Row>, rows: seq<Row>)
    requires AllReadable(t, existing + recovered) && NothingRewritten(t, existing + recovered)
    requires forall i | 0 <= i < |recovered| :: HasKey(t, recovered[i])
    requires multiset(rows) == multiset(Merged(t, existing, recovered))
    ensures AllReadable(t, rows + recovered) && Merged(t, rows, recovered) == rows
  {
    hide Readable, RowMergeLaws.Kept, KeysHold, Clean, HasKey, Absorbs, Add, NothingRewritten, Apart, Tabled, KeyAt, Merged;
    var all := existing + recovered;
    var table := AddAll(t, EMPTY, all);
    MergedIs(t, existing, recovered, table);
    MergedRowsKeepTheirKeys(t, all);
    ListedApart(t, table, rows);
    ApartFiles(t, rows, |rows|);
    assert rows[..|rows|] == rows;
    var table' := AddAll(t, EMPTY, rows);
    forall i | 0 <= i < |recovered| ensures Absorbs(t, table', recovered[i]) {
      assert all[|existing| + i] == recovered[i];
      Absorbed(t, all, |existing| + i);
      StillAbsorbs(t, table, rows, table', recovered[i]);
    }
    AddAllConcat(t, EMPTY, rows, recovered);
    AbsorbedAddNothing(t, table', recovered);
    MergedIs(t, rows, recovered, table');
    forall i | 0 <= i < |rows| ensures Readable(t, rows[i]) { CleanApart(t, rows, i); }
    Readables(t, existing, recovered);
    Readables(t, rows, recovered);
  }

  /** A refresh that recovers what was published before writes the very file that is there. */
  lemma PublishAgain(t: Reader, existing: seq<Row>, recovered: seq<Row>, less: (Row, Row) -> bool)
    requires Ordering(less) && AllReadable(t, existing + recovered) && NothingRewritten(t, existing + recovered)
    requires forall i | 0 <= i < |recovered| :: HasKey(t, recovered[i])
    ensures var output := Sort(Merged(t, existing, recovered), less);
            AllReadable(t, output + recovered) && Sort(Merged(t, output, recovered), less) == output
  {
    hide Merged, HasKey, Readable, NothingRewritten, Ordering, Sorted, Sort;
    var output := Sort(Merged(t, existing, recovered), less);
    SortSorts(Merged(t, existing, recovered), less);
    MergedInAnyOrder(t, existing, recovered, output);
    SortOfSorted(output, less);
  }
}
