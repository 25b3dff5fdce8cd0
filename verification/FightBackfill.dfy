/** scripts/backfill_active_roster_ufcstats.py: deferring fights whose source has no round statistics, sorting a
    run's fights by outcome, and merging the complete ones into the canonical files. */
module FightBackfill {
  import opened Common
  import opened FightAdmission

  datatype StatsStatus = Available | ExplicitlyUnavailable | MissingUnexplained

  /** What the page says about its statistics. */
  datatype PageFacts = PageFacts(status: StatsStatus, tables: nat)

  // ---- deferral ----

  /** `_explicit_source_limited_fight_reason`, over the reasons found. */
  method SourceLimited(result: Row, stats: seq<Row>, reasons: set<Reason>, facts: PageFacts) returns (deferred: bool)
    ensures deferred <==> facts.status == ExplicitlyUnavailable && facts.tables == 0 && stats == [] && Finish(result).Some?
                          && forall reason :: reason in reasons <==> ExpectedWithoutStats(Finish(result).value, reason)
  {
    hide RoundNumber;
    if facts.status != ExplicitlyUnavailable || facts.tables != 0 || stats != [] { return false; }
    var finish := Finish(result);
    if finish.None? { return false; }
    var expected := {IncompleteRoundSet};
    for n := 1 to finish.value + 1
      invariant forall reason :: reason in expected <==> reason.IncompleteRoundSet? || (reason.IncompleteRound? && 1 <= reason.round < n)
    {
      expected := expected + {IncompleteRound(n)};
    }
    deferred := reasons == expected;
    assert forall reason :: reason in expected <==> ExpectedWithoutStats(finish.value, reason);
  }

  predicate ExpectedWithoutStats(last: nat, reason: Reason) {
    reason.IncompleteRoundSet? || (reason.IncompleteRound? && 1 <= reason.round <= last)
  }

  /** A fight is deferred to its source exactly when the page positively says it has no round statistics and
      shows none, and nothing at all is wrong with the result. */
  ghost predicate Deferred(rd: Reader, result: Row, stats: seq<Row>, facts: PageFacts) {
    && facts.status == ExplicitlyUnavailable && facts.tables == 0 && stats == []
    && forall reason | OfResult(reason) :: !Applies(rd, result, stats, reason)
  }

  lemma NoStatsReasons(rd: Reader, result: Row, reason: Reason)
    requires Finish(result).Some?
    ensures !OfResult(reason) ==> (Applies(rd, result, [], reason) <==> ExpectedWithoutStats(Finish(result).value, reason))
    ensures OfResult(reason) ==> !ExpectedWithoutStats(Finish(result).value, reason)
  {
    hide RoundNumber, RequiredResultFields, RequiredStatFields, Participants;
    assert forall r: nat :: RowsOf([], r) == [];
    if reason.IncompleteRoundSet? { assert RowsOf([], 1) == []; }
  }

  lemma DeferredExactly(rd: Reader, result: Row, stats: seq<Row>, reasons: set<Reason>, facts: PageFacts)
    requires forall reason :: reason in reasons <==> Applies(rd, result, stats, reason)
    ensures Deferred(rd, result, stats, facts) <==>
              facts.status == ExplicitlyUnavailable && facts.tables == 0 && stats == [] && Finish(result).Some?
              && forall reason :: reason in reasons <==> ExpectedWithoutStats(Finish(result).value, reason)
  {
    hide RoundNumber, RequiredResultFields, RequiredStatFields;
    if facts.status == ExplicitlyUnavailable && facts.tables == 0 && stats == [] {
      assert Applies(rd, result, stats, InvalidResultRound) <==> Finish(result).None?;
      assert OfResult(InvalidResultRound);
      if Finish(result).Some? {
        forall reason
          ensures !OfResult(reason) ==> (Applies(rd, result, [], reason) <==> ExpectedWithoutStats(Finish(result).value, reason))
          ensures OfResult(reason) ==> !ExpectedWithoutStats(Finish(result).value, reason)
        {
          NoStatsReasons(rd, result, reason);
        }
      }
    }
  }

  // ---- keep-first merges ----

  /** `drop_duplicates(keep="first")`. */
  function KeepFirst<K(==, !new)>(rows: seq<Row>, key: Row -> K): seq<Row> {
    if rows == [] then [] else
      var kept, last := KeepFirst(rows[..|rows| - 1], key), rows[|rows| - 1];
      if HasKey(kept, key, key(last)) then kept else kept + [last]
  }

  predicate HasKey<K(==, !new)>(rows: seq<Row>, key: Row -> K, k: K) {
    exists i | 0 <= i < |rows| :: key(rows[i]) == k
  }

  function Merge<K(==, !new)>(existing: seq<Row>, added: seq<Row>, key: Row -> K): seq<Row> {
    if added == [] then existing else KeepFirst(existing + added, key)
  }

  predicate Distinct<K(==, !new)>(rows: seq<Row>, key: Row -> K) {
    forall i, j | 0 <= i < j < |rows| :: key(rows[i]) != key(rows[j])
  }

  lemma {:induction false} KeepFirstDistinct<K(!new)>(rows: seq<Row>, key: Row -> K)
    ensures Distinct(KeepFirst(rows, key), key)
    ensures forall k :: HasKey(KeepFirst(rows, key), key, k) <==> HasKey(rows, key, k)
  {
    if rows != [] {
      var n := |rows| - 1;
      KeepFirstDistinct(rows[..n], key);
      var kept := KeepFirst(rows[..n], key);
      assert rows == rows[..n] + [rows[n]];
      forall k ensures HasKey(KeepFirst(rows, key), key, k) <==> HasKey(rows, key, k) {
        HasKeyAppend(rows[..n], rows[n], key, k);
        HasKeyAppend(kept, rows[n], key, k);
      }
    }
  }

  lemma HasKeyAppend<K(!new)>(rows: seq<Row>, row: Row, key: Row -> K, k: K)
    ensures HasKey(rows + [row], key, k) <==> HasKey(rows, key, k) || key(row) == k
  {
    var all := rows + [row];
    assert all[|rows|] == row && forall i | 0 <= i < |rows| :: all[i] == rows[i];
  }

  lemma {:induction false} KeepFirstPrefix<K(!new)>(a: seq<Row>, b: seq<Row>, key: Row -> K)
    ensures KeepFirst(a, key) <= KeepFirst(a + b, key)
  {
    if b == [] {
      assert a + b == a;
    } else {
      KeepFirstPrefix(a, b[..|b| - 1], key);
      assert (a + b)[..|a + b| - 1] == a + b[..|b| - 1];
    }
  }

  lemma {:induction false} KeepFirstOfDistinct<K(!new)>(rows: seq<Row>, key: Row -> K)
    ensures Distinct(rows, key) <==> KeepFirst(rows, key) == rows
  {
    if rows != [] {
      var n := |rows| - 1;
      KeepFirstOfDistinct(rows[..n], key);
      KeepFirstShrinks(rows[..n], key);
      KeepFirstDistinct(rows[..n], key);
      assert rows == rows[..n] + [rows[n]];
      if KeepFirst(rows, key) == rows { KeepFirstDistinct(rows, key); }
    }
  }

  lemma {:induction false} KeepFirstShrinks<K(!new)>(rows: seq<Row>, key: Row -> K)
    ensures |KeepFirst(rows, key)| <= |rows|
  {
    if rows != [] { KeepFirstShrinks(rows[..|rows| - 1], key); }
  }

  /** A merge that adds anything leaves every existing row in place exactly when no two of them share a key;
      either way it adds no duplicate and loses no key. */
  lemma MergeKeepsExisting<K(!new)>(existing: seq<Row>, added: seq<Row>, key: Row -> K)
    requires added != []
    ensures existing <= Merge(existing, added, key) <==> Distinct(existing, key)
    ensures Distinct(Merge(existing, added, key), key)
    ensures forall k :: HasKey(Merge(existing, added, key), key, k) <==> HasKey(existing, key, k) || HasKey(added, key, k)
  {
    KeepFirstPrefix(existing, added, key);
    KeepFirstOfDistinct(existing, key);
    KeepFirstDistinct(existing + added, key);
    var merged := KeepFirst(existing + added, key);
    if existing <= merged {
      assert forall i | 0 <= i < |existing| :: existing[i] == merged[i];
    }
    forall k ensures HasKey(existing + added, key, k) <==> HasKey(existing, key, k) || HasKey(added, key, k) {
      HasKeyConcat(existing, added, key, k);
    }
  }

  lemma HasKeyConcat<K(!new)>(a: seq<Row>, b: seq<Row>, key: Row -> K, k: K)
    ensures HasKey(a + b, key, k) <==> HasKey(a, key, k) || HasKey(b, key, k)
  {
    assert forall i | 0 <= i < |a| :: (a + b)[i] == a[i];
    assert forall i | 0 <= i < |b| :: (a + b)[|a| + i] == b[i];
  }

  // ---- a run over the missing fights ----

  datatype Page = Unreadable | Read(result: Row, stats: seq<Row>, facts: PageFacts)

  datatype Verdict = Complete | DeferredToSource | Partial | Failed

  ghost function VerdictOf(rd: Reader, page: Page): Verdict {
    if page.Unreadable? then Failed
    else if CompleteShape(rd, page.result, page.stats) then Complete
    else if Deferred(rd, page.result, page.stats, page.facts) then DeferredToSource
    else Partial
  }

  /** A partial fight whose result the policy refuses. */
  ghost predicate ResultRefused(rd: Reader, page: Page) {
    && page.Read? && VerdictOf(rd, page) == Partial
    && exists reason: Reason :: (reason.Quarantined? || reason.InvalidPolicy?) && Applies(rd, page.result, page.stats, reason)
  }

  ghost function Where(rd: Reader, urls: seq<string>, fetch: string -> Page, v: Verdict): seq<string> {
    if urls == [] then [] else
      Where(rd, urls[..|urls| - 1], fetch, v) + if VerdictOf(rd, fetch(urls[|urls| - 1])) == v then [urls[|urls| - 1]] else []
  }

  ghost function WhereRefused(rd: Reader, urls: seq<string>, fetch: string -> Page): seq<string> {
    if urls == [] then [] else
      WhereRefused(rd, urls[..|urls| - 1], fetch) + if ResultRefused(rd, fetch(urls[|urls| - 1])) then [urls[|urls| - 1]] else []
  }

  function Results(urls: seq<string>, fetch: string -> Page): seq<Row> {
    if urls == [] then [] else
      var page := fetch(urls[|urls| - 1]);
      Results(urls[..|urls| - 1], fetch) + if page.Read? then [page.result] else []
  }

  function StatRows(urls: seq<string>, fetch: string -> Page): seq<Row> {
    if urls == [] then [] else
      var page := fetch(urls[|urls| - 1]);
      StatRows(urls[..|urls| - 1], fetch) + if page.Read? then page.stats else []
  }

  datatype Outcomes = Outcomes(complete: seq<string>, deferred: seq<string>, partial: seq<string>, refused: seq<string>,
                               failed: seq<string>, results: seq<Row>, stats: seq<Row>)

  ghost predicate Sorted(rd: Reader, urls: seq<string>, fetch: string -> Page, o: Outcomes) {
    && o.complete == Where(rd, urls, fetch, Complete) && o.deferred == Where(rd, urls, fetch, DeferredToSource)
    && o.partial == Where(rd, urls, fetch, Partial) && o.failed == Where(rd, urls, fetch, Failed)
    && o.refused == WhereRefused(rd, urls, fetch)
    && o.results == Results(o.complete, fetch) && o.stats == StatRows(o.complete, fetch)
  }

  /** One fight's place. */
  method Judge(rd: Reader, page: Page) returns (v: Verdict, refused: bool)
    ensures v == VerdictOf(rd, page) && (refused <==> ResultRefused(rd, page))
  {
    hide CompleteShape, Applies, RoundNumber;
    if page.Unreadable? { return Failed, false; }
    var complete, reasons := FightCompleteness(rd, page.result, page.stats);
    CompleteIsFullGrid(rd, page.result, page.stats);
    assert complete <==> forall reason :: !Applies(rd, page.result, page.stats, reason);
    if complete { return Complete, false; }
    DeferredExactly(rd, page.result, page.stats, reasons, page.facts);
    var deferred := SourceLimited(page.result, page.stats, reasons, page.facts);
    if deferred { return DeferredToSource, false; }
    refused := exists reason | reason in reasons :: reason.Quarantined? || reason.InvalidPolicy?;
    v := Partial;
  }

  lemma OneMoreUrl(rd: Reader, urls: seq<string>, fetch: string -> Page, i: nat)
    requires i < |urls|
    ensures forall v :: Where(rd, urls[..i + 1], fetch, v) == Where(rd, urls[..i], fetch, v) + if VerdictOf(rd, fetch(urls[i])) == v then [urls[i]] else []
    ensures WhereRefused(rd, urls[..i + 1], fetch) == WhereRefused(rd, urls[..i], fetch) + if ResultRefused(rd, fetch(urls[i])) then [urls[i]] else []
  {
    hide VerdictOf, ResultRefused;
    assert urls[..i + 1][..i] == urls[..i];
  }

  lemma OneMoreComplete(urls: seq<string>, fetch: string -> Page, url: string)
    requires fetch(url).Read?
    ensures Results(urls + [url], fetch) == Results(urls, fetch) + [fetch(url).result]
    ensures StatRows(urls + [url], fetch) == StatRows(urls, fetch) + fetch(url).stats
  {
    assert (urls + [url])[..|urls|] == urls;
  }

  /** The outcome loop of `run_backfill`. */
  method SortFights(rd: Reader, urls: seq<string>, fetch: string -> Page) returns (o: Outcomes)
    ensures Sorted(rd, urls, fetch, o)
  {
    hide VerdictOf, ResultRefused, Where, WhereRefused, Results, StatRows;
    o := Outcomes([], [], [], [], [], [], []);
    NoUrls(rd, fetch);
    for i := 0 to |urls|
      invariant Sorted(rd, urls[..i], fetch, o)
    {
      var url := urls[i];
      var v, refused := Judge(rd, fetch(url));
      OneMoreUrl(rd, urls, fetch, i);
      CompleteIsRead(rd, fetch(url));
      match v
      case Complete =>
        OneMoreComplete(o.complete, fetch, url);
        o := o.(complete := o.complete + [url], results := o.results + [fetch(url).result], stats := o.stats + fetch(url).stats);
      case DeferredToSource => o := o.(deferred := o.deferred + [url]);
      case Partial =>
        o := o.(partial := o.partial + [url]);
        if refused { o := o.(refused := o.refused + [url]); }
      case Failed => o := o.(failed := o.failed + [url]);
    }
    assert urls[..|urls|] == urls;
  }

  lemma NoUrls(rd: Reader, fetch: string -> Page)
    ensures Sorted(rd, [], fetch, Outcomes([], [], [], [], [], [], []))
  {
  }

  lemma CompleteIsRead(rd: Reader, page: Page)
    ensures VerdictOf(rd, page) == Complete ==> page.Read?
    ensures VerdictOf(rd, page) != Partial ==> !ResultRefused(rd, page)
  {
  }

  lemma {:induction false} WhereIs(rd: Reader, urls: seq<string>, fetch: string -> Page, v: Verdict, url: string)
    ensures url in Where(rd, urls, fetch, v) <==> url in urls && VerdictOf(rd, fetch(url)) == v
    ensures url in WhereRefused(rd, urls, fetch) <==> url in urls && ResultRefused(rd, fetch(url))
  {
    hide VerdictOf, ResultRefused;
    if urls != [] {
      WhereIs(rd, urls[..|urls| - 1], fetch, v, url);
      assert urls == urls[..|urls| - 1] + [urls[|urls| - 1]];
    }
  }

  lemma {:induction false} PlacesAddUp(rd: Reader, urls: seq<string>, fetch: string -> Page)
    ensures |Where(rd, urls, fetch, Complete)| + |Where(rd, urls, fetch, DeferredToSource)|
            + |Where(rd, urls, fetch, Partial)| + |Where(rd, urls, fetch, Failed)| == |urls|
  {
    hide VerdictOf;
    if urls != [] { PlacesAddUp(rd, urls[..|urls| - 1], fetch); }
  }

  /** A fight without any stat row is not complete, so none is both complete and deferred. */
  lemma NotBoth(rd: Reader, result: Row, stats: seq<Row>, facts: PageFacts)
    ensures !(CompleteShape(rd, result, stats) && Deferred(rd, result, stats, facts))
  {
    hide Applies, Lacks, RowsOf, Participants;
  }

  /** Every fight has exactly one of the four places, and only partial fights are refused. */
  lemma EveryFightHasOnePlace(rd: Reader, urls: seq<string>, fetch: string -> Page, o: Outcomes, url: string)
    requires Sorted(rd, urls, fetch, o) && url in urls
    ensures |o.complete| + |o.deferred| + |o.partial| + |o.failed| == |urls|
    ensures var page := fetch(url);
            && (url in o.failed <==> page.Unreadable?)
            && (url in o.complete <==> page.Read? && CompleteShape(rd, page.result, page.stats))
            && (url in o.deferred <==> page.Read? && Deferred(rd, page.result, page.stats, page.facts))
            && (url in o.partial <==>
                  page.Read? && !CompleteShape(rd, page.result, page.stats) && !Deferred(rd, page.result, page.stats, page.facts))
            && (url in o.refused <==>
                  url in o.partial && exists reason: Reason :: (reason.Quarantined? || reason.InvalidPolicy?) && Applies(rd, page.result, page.stats, reason))
  {
    hide Where, WhereRefused, CompleteShape, Deferred, Applies;
    if fetch(url).Read? { NotBoth(rd, fetch(url).result, fetch(url).stats, fetch(url).facts); }
    WhereIs(rd, urls, fetch, Complete, url);
    WhereIs(rd, urls, fetch, DeferredToSource, url);
    WhereIs(rd, urls, fetch, Partial, url);
    WhereIs(rd, urls, fetch, Failed, url);
    PlacesAddUp(rd, urls, fetch);
    CompleteIsRead(rd, fetch(url));
  }

  // ---- admission ----

  datatype StatKey = StatKey(event: string, bout: string, round: string, fighter: string)

  function UrlOf(row: Row): string {
    Trim(Get(row, "URL"))
  }

  function StatKeyOf(row: Row): StatKey {
    StatKey(Trim(Get(row, "EVENT")), Trim(Get(row, "BOUT")), Trim(Get(row, "ROUND")), Trim(Get(row, "FIGHTER")))
  }

  /** Two stat rows that agree, blanks aside, in event, bout, round and fighter. */
  predicate SameStat(a: Row, b: Row) {
    && Trim(Get(a, "EVENT")) == Trim(Get(b, "EVENT")) && Trim(Get(a, "BOUT")) == Trim(Get(b, "BOUT"))
    && Trim(Get(a, "ROUND")) == Trim(Get(b, "ROUND")) && Trim(Get(a, "FIGHTER")) == Trim(Get(b, "FIGHTER"))
  }

  /** A row that agrees with none before it is kept, behind what is kept of those. */
  lemma KeptOrNot<K(!new)>(rows: seq<Row>, row: Row, key: Row -> K)
    ensures KeepFirst(rows + [row], key)
            == KeepFirst(rows, key) + if exists j :: 0 <= j < |rows| && key(rows[j]) == key(row) then [] else [row]
  {
    assert (rows + [row])[..|rows|] == rows;
    KeepFirstDistinct(rows, key);
  }

  lemma KeptOnTheWay<K(!new)>(existing: seq<Row>, added: seq<Row>, key: Row -> K, i: nat)
    requires i < |added|
    ensures KeepFirst(existing + added[..i] + [added[i]], key) <= Merge(existing, added, key)
  {
    hide KeepFirst;
    KeepFirstPrefix(existing + added[..i] + [added[i]], added[i + 1..], key);
    assert existing + added[..i] + [added[i]] + added[i + 1..] == existing + added;
  }

  /** A stat row enters exactly if no existing row and no earlier one of the run is of the same event, bout, round
      and fighter. */
  lemma StatRowEnters(existing: seq<Row>, added: seq<Row>, i: nat)
    requires i < |added|
    ensures var before, row := existing + added[..i], added[i];
            && KeepFirst(before + [row], StatKeyOf) <= Merge(existing, added, StatKeyOf)
            && ((exists j :: 0 <= j < |before| && SameStat(before[j], row)) ==> KeepFirst(before + [row], StatKeyOf) == KeepFirst(before, StatKeyOf))
            && ((forall j | 0 <= j < |before| :: !SameStat(before[j], row)) ==>
                  KeepFirst(before + [row], StatKeyOf) == KeepFirst(before, StatKeyOf) + [row])
  {
    hide KeepFirst, Trim;
    KeptOrNot(existing + added[..i], added[i], StatKeyOf);
    KeptOnTheWay(existing, added, StatKeyOf, i);
    forall a: Row, b: Row ensures StatKeyOf(a) == StatKeyOf(b) <==> SameStat(a, b) {}
  }

  /** And a result row exactly if its address, blanks aside, is not there yet. */
  lemma ResultEnters(existing: seq<Row>, added: seq<Row>, i: nat)
    requires i < |added|
    ensures var before, row := existing + added[..i], added[i];
            && KeepFirst(before + [row], UrlOf) <= Merge(existing, added, UrlOf)
            && KeepFirst(before + [row], UrlOf)
               == KeepFirst(before, UrlOf) + if exists j :: 0 <= j < |before| && Trim(Get(before[j], "URL")) == Trim(Get(row, "URL")) then [] else [row]
  {
    hide KeepFirst, Trim;
    KeptOrNot(existing + added[..i], added[i], UrlOf);
    KeptOnTheWay(existing, added, UrlOf, i);
  }

  datatype Canonical = Canonical(results: seq<Row>, stats: seq<Row>)

  /** The end of `run_backfill`: one refused result keeps out the whole run; None where the guard against losing
      rows raises. */
  method Admit(rd: Reader, files: Canonical, urls: seq<string>, fetch: string -> Page) returns (o: Outcomes, files': Option<Canonical>)
    ensures Sorted(rd, urls, fetch, o)
    ensures o.refused != [] || o.complete == [] ==> files' == Some(files)
    ensures o.refused == [] && o.complete != [] ==>
              var merged := Canonical(Merge(files.results, o.results, UrlOf), Merge(files.stats, o.stats, StatKeyOf));
              files' == if |merged.results| < |files.results| || |merged.stats| < |files.stats| then None else Some(merged)
  {
    hide Sorted, KeepFirst;
    o := SortFights(rd, urls, fetch);
    ResultsOfComplete(rd, urls, fetch, o);
    var results, stats := if o.refused != [] then [] else o.results, if o.refused != [] then [] else o.stats;
    var merged := Canonical(Merge(files.results, results, UrlOf), Merge(files.stats, stats, StatKeyOf));
    if |merged.results| < |files.results| || |merged.stats| < |files.stats| { return o, None; }
    files' := Some(if results != [] then merged else files);
  }

  lemma {:induction false} AllRead(rd: Reader, urls: seq<string>, fetch: string -> Page)
    ensures |Results(Where(rd, urls, fetch, Complete), fetch)| == |Where(rd, urls, fetch, Complete)|
    ensures Where(rd, urls, fetch, Complete) == [] ==> StatRows(Where(rd, urls, fetch, Complete), fetch) == []
  {
    hide CompleteShape, Deferred;
    if urls != [] {
      var n := |urls| - 1;
      AllRead(rd, urls[..n], fetch);
      if VerdictOf(rd, fetch(urls[n])) == Complete {
        CompleteIsRead(rd, fetch(urls[n]));
        OneMoreComplete(Where(rd, urls[..n], fetch, Complete), fetch, urls[n]);
      } else {
        assert Where(rd, urls, fetch, Complete) == Where(rd, urls[..n], fetch, Complete);
      }
    }
  }

  lemma ResultsOfComplete(rd: Reader, urls: seq<string>, fetch: string -> Page, o: Outcomes)
    requires Sorted(rd, urls, fetch, o)
    ensures |o.results| == |o.complete| && (o.complete == [] ==> o.stats == [])
  {
    AllRead(rd, urls, fetch);
  }

  lemma {:induction false} KeepFirstFrom<K(!new)>(rows: seq<Row>, key: Row -> K, row: Row)
    requires row in KeepFirst(rows, key)
    ensures row in rows
  {
    if row in KeepFirst(rows[..|rows| - 1], key) { KeepFirstFrom(rows[..|rows| - 1], key, row); }
  }

  lemma {:induction false} StatRowOf(urls: seq<string>, fetch: string -> Page, row: Row) returns (url: string)
    requires row in StatRows(urls, fetch)
    ensures url in urls && fetch(url).Read? && row in fetch(url).stats
  {
    var n := |urls| - 1;
    if row in StatRows(urls[..n], fetch) { url := StatRowOf(urls[..n], fetch, row); } else { url := urls[n]; }
  }

  /** Every stat row that enters belongs to a fight of this run that is complete. */
  lemma OnlyCompleteFightsEnter(rd: Reader, existing: seq<Row>, urls: seq<string>, fetch: string -> Page, o: Outcomes, row: Row) returns (url: string)
    requires Sorted(rd, urls, fetch, o)
    requires row in Merge(existing, o.stats, StatKeyOf) && row !in existing
    ensures url in urls && fetch(url).Read? && row in fetch(url).stats && CompleteShape(rd, fetch(url).result, fetch(url).stats)
  {
    hide CompleteShape, StatKeyOf;
    KeepFirstFrom(existing + o.stats, StatKeyOf, row);
    url := StatRowOf(o.complete, fetch, row);
    WhereIs(rd, urls, fetch, Complete, url);
  }

  lemma RoundOfTrimmed(a: string, b: string)
    requires Trim(a) == Trim(b)
    ensures RoundNumber(a) == RoundNumber(b)
  {
  }

  /** A complete fight never loses a row to another of its own. */
  lemma CompleteFightHasDistinctKeys(rd: Reader, result: Row, stats: seq<Row>)
    requires forall s :: rd.normal(Trim(s)) == rd.normal(s)
    requires CompleteShape(rd, result, stats)
    ensures Distinct(stats, StatKeyOf)
  {
    hide RoundNumber, Trim, Participants, Applies, Lacks;
    var last := Finish(result).value;
    forall i, j | 0 <= i < j < |stats| ensures StatKeyOf(stats[i]) != StatKeyOf(stats[j]) {
      var round, fighter := RoundNumber(Get(stats[i], "ROUND")), rd.normal(Get(stats[i], "FIGHTER"));
      assert InGrid(rd, result, stats[i], last);
      assert Cell(rd, stats[i], round.value, fighter);
      if StatKeyOf(stats[i]) == StatKeyOf(stats[j]) { SameKeySameCell(rd, stats[i], stats[j], round.value, fighter); }
    }
  }

  lemma SameKeySameCell(rd: Reader, a: Row, b: Row, round: nat, fighter: string)
    requires forall s :: rd.normal(Trim(s)) == rd.normal(s)
    requires StatKeyOf(a) == StatKeyOf(b) && Cell(rd, a, round, fighter)
    ensures Cell(rd, b, round, fighter)
  {
    hide RoundNumber, Trim;
    RoundOfTrimmed(Get(a, "ROUND"), Get(b, "ROUND"));
    assert rd.normal(Trim(Get(a, "FIGHTER"))) == fighter && rd.normal(Trim(Get(b, "FIGHTER"))) == rd.normal(Get(b, "FIGHTER"));
  }

  /** New rows none of whose keys is taken all enter, behind the existing ones. */
  lemma NewKeysEnterWhole<K(!new)>(existing: seq<Row>, added: seq<Row>, key: Row -> K)
    requires Distinct(existing + added, key)
    ensures Merge(existing, added, key) == existing + added
  {
    if added == [] {
      assert existing + added == existing;
    } else {
      KeepFirstOfDistinct(existing + added, key);
    }
  }

  // ---- the guard against losing rows ----

  ghost function Keys<K(!new)>(rows: seq<Row>, key: Row -> K): set<K> {
    set i | 0 <= i < |rows| :: key(rows[i])
  }

  lemma KeysAppend<K(!new)>(a: seq<Row>, b: seq<Row>, key: Row -> K)
    ensures Keys(a + b, key) == Keys(a, key) + Keys(b, key)
  {
    forall k ensures k in Keys(a + b, key) <==> k in Keys(a, key) + Keys(b, key) {
      HasKeyConcat(a, b, key, k);
    }
  }

  lemma KeysOneMore<K(!new)>(rows: seq<Row>, last: Row, key: Row -> K)
    ensures Keys(rows + [last], key) == Keys(rows, key) + {key(last)}
    ensures key(last) in Keys(rows, key) <==> HasKey(rows, key, key(last))
  {
    KeysAppend(rows, [last], key);
    assert Keys([last], key) == {key(last)} by { assert key([last][0]) in Keys([last], key); }
  }

  /** One row is kept for every key; all are kept only if nothing is dropped. */
  lemma {:induction false} KeepFirstCount<K(!new)>(rows: seq<Row>, key: Row -> K)
    ensures |KeepFirst(rows, key)| == |Keys(rows, key)|
    ensures |KeepFirst(rows, key)| <= |rows| && (|KeepFirst(rows, key)| == |rows| ==> KeepFirst(rows, key) == rows)
  {
    hide Keys, HasKey;
    if rows == [] {
      assert Keys(rows, key) == {} by { NoKeys(rows, key); }
    } else {
      var front, last := rows[..|rows| - 1], rows[|rows| - 1];
      assert rows == front + [last];
      KeepFirstCount(front, key);
      KeepFirstDistinct(front, key);
      KeysOneMore(front, last, key);
      assert HasKey(front, key, key(last)) ==> Keys(rows, key) == Keys(front, key);
    }
  }

  lemma NoKeys<K(!new)>(rows: seq<Row>, key: Row -> K)
    requires rows == []
    ensures Keys(rows, key) == {}
  {
  }

  /** A merge holds one row for every key there was and one for every new key. */
  lemma MergeCount<K(!new)>(existing: seq<Row>, added: seq<Row>, key: Row -> K)
    requires added != []
    ensures |Merge(existing, added, key)| == |Keys(existing, key)| + |Keys(added, key) - Keys(existing, key)|
  {
    KeepFirstCount(existing + added, key);
    KeysAppend(existing, added, key);
    assert Keys(existing, key) + Keys(added, key) == Keys(existing, key) + (Keys(added, key) - Keys(existing, key));
  }

  /** The guard against losing rows counts rows only. Exactly when it lets a merge pass that drops existing rows:
      some keys of the existing rows are doubled, and the new keys make up the number. */
  lemma GuardCountsOnly<K(!new)>(existing: seq<Row>, added: seq<Row>, key: Row -> K)
    requires added != []
    ensures var merged := Merge(existing, added, key);
            var doubled := |existing| - |Keys(existing, key)|;
            |merged| >= |existing| && !(existing <= merged) <==> 0 < doubled <= |Keys(added, key) - Keys(existing, key)|
  {
    MergeCount(existing, added, key);
    MergeKeepsExisting(existing, added, key);
    KeepFirstCount(existing, key);
    KeepFirstOfDistinct(existing, key);
  }

  /** Such lists exist: two rows of one key, and a row of another. */
  lemma GuardIsPassed<K(!new)>(a: Row, b: Row, c: Row, key: Row -> K)
    requires key(a) == key(b) && key(c) != key(a)
    ensures var merged := Merge([a, b], [c], key);
            |merged| == 2 && merged == [a, c]
  {
    var rows := [a, b] + [c];
    assert rows[..2] == [a, b] && [a, b][..1] == [a] && [a][..0] == [];
    assert KeepFirst([a], key) == [a];
    assert KeepFirst([a, b], key) == [a] by { assert HasKey([a], key, key(b)); }
    assert !HasKey([a], key, key(c));
  }
}
