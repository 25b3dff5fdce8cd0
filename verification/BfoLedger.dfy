/** scripts/build_staged_production_bundle.py: reconciling a scheduled recovery's ledger with its recovered CSV,
    and the lineage batch derived from the two. */
module BfoLedger {
  import opened Common
  import opened TextLaws
  import opened BfoLineage

  const MINIMUM_BOOKS := 3

  datatype Key = Key(date: string, fighterA: string, fighterB: string, queryDate: string, offsetDays: int)

  datatype Values = Values(aProb: real, bProb: real, aOdds: real, bOdds: real, books: real)

  /** A CSV row; no key where a key column is missing or malformed. */
  datatype CsvRow = CsvRow(key: Option<Key>, values: Values, url: string)

  datatype Quote = Quote(accepted: bool, market: int)

  datatype Verdict = Accepted | Rejected | Other

  /** The recovering scripts: a git head, a digest of what was uncommitted, and the digest of each file. */
  datatype Parser = Parser(head: string, dirty: string, files: map<Path, Option<Bytes>>)

  /** The page a line was read from. */
  datatype Page = Page(url: string, digest: string, fetched: string)

  /** What an accepted line rests on: the page, the consensus and the CSV values. */
  datatype Evidence = Evidence(page: Page, books: int, aProb: real, bProb: real, values: Values)

  /** A ledger line: the names of its fields, the output it names (resolved), and the values the checks read.
      None where a part is missing or malformed; a line that is no JSON object has no fields. */
  datatype Record = Record(verdict: Verdict, schema: int, fields: set<string>, output: Path, parser: Option<Parser>,
                           key: Option<Key>, requested: Option<(string, string)>, threshold: Option<int>,
                           reason: string, quotes: seq<Quote>, evidence: Option<Evidence>)

  /** A file the input inventory lists: whether as a raw input, and its contents. */
  datatype Pin = Pin(raw: bool, content: Bytes)

  /** What every line is checked against: the known bookmakers, the inventory, and the ledger's companion. */
  datatype Context = Context(known: set<int>, inventory: map<Path, Pin>, output: Path)

  const REQUIRED_FIELDS := {"schema_version", "decision", "recovery_key", "requested_fighters", "parser", "thresholds", "event_page",
    "matched_bfo_rows", "paired_quotes", "consensus", "csv_values", "rejection_reason", "output_batch"}
  const PARSER_FILES: set<Path> := {["scripts", "recover_bfo_moneyline_gaps.py"], ["scripts", "revalidate_bfo_recovery_file.py"]}

  predicate Hex(s: string, n: nat) {
    |s| == n && forall i | 0 <= i < |s| :: '0' <= s[i] <= '9' || 'a' <= s[i] <= 'f' || 'A' <= s[i] <= 'F'
  }

  function PinnedContent(inventory: map<Path, Pin>, p: Path): Option<Bytes> {
    if p in inventory then Some(inventory[p].content) else None
  }

  /** The line was written by the very scripts that the inventory pins. */
  predicate ParserKnown(cx: Context, p: Parser) {
    && Hex(p.head, 40) && Hex(p.dirty, 64) && p.files.Keys == PARSER_FILES
    && forall f | f in PARSER_FILES :: PinnedContent(cx.inventory, f) == p.files[f]
  }

  predicate WebAddress(url: string) {
    "http://" <= url || "https://" <= url
  }

  predicate PageKnown(p: Page) {
    WebAddress(p.url) && Hex(p.digest, 64) && Trim(p.fetched) != ""
  }

  /** What is asked of every line, accepted or rejected. */
  predicate Formed(cx: Context, r: Record) {
    && r.schema == 1 && REQUIRED_FIELDS <= r.fields && r.output == cx.output
    && r.parser.Some? && ParserKnown(cx, r.parser.value)
    && r.key.Some? && r.requested == Some((r.key.value.fighterA, r.key.value.fighterB))
    && r.threshold == Some(MINIMUM_BOOKS)
  }

  /** What the validator returns: the two files and their counts. */
  datatype Identity = Identity(ledger: Path, csv: Path, ledgerBytes: Bytes, csvBytes: Bytes, rows: nat, lines: nat,
                               accepted: nat, rejected: nat)

  function Markets(quotes: seq<Quote>): seq<int> {
    if quotes == [] then [] else
      var rest, last := Markets(quotes[..|quotes| - 1]), quotes[|quotes| - 1];
      if last.accepted then rest + [last.market] else rest
  }

  ghost predicate Unique(s: seq<int>) {
    forall i, j | 0 <= i < j < |s| :: s[i] != s[j]
  }

  /** A consensus of at least three distinct known bookmakers, with fair probabilities that add up. */
  ghost predicate Consensus(known: set<int>, quotes: seq<Quote>, e: Evidence) {
    && e.books >= MINIMUM_BOOKS && |Markets(quotes)| == e.books
    && Unique(Markets(quotes)) && (forall m | m in Markets(quotes) :: m in known)
    && 0.0 < e.aProb < 1.0 && 0.0 < e.bProb < 1.0
    && -0.000000001 <= e.aProb + e.bProb - 1.0 <= 0.000000001
  }

  ghost predicate RowsKeyed(rows: seq<CsvRow>) {
    && (forall i | 0 <= i < |rows| :: rows[i].key.Some?)
    && (forall i, j | 0 <= i < j < |rows| :: rows[i].key != rows[j].key)
  }

  ghost predicate InRows(rows: seq<CsvRow>, key: Option<Key>) {
    exists i :: 0 <= i < |rows| && rows[i].key == key
  }

  ghost predicate Matches(row: CsvRow, r: Record) {
    row.key == r.key && r.evidence.Some? && row.values == r.evidence.value.values && row.url == r.evidence.value.page.url
  }

  /** One line reconciles with the CSV. */
  ghost predicate Reconciles(cx: Context, rows: seq<CsvRow>, r: Record) {
    && Formed(cx, r) && !r.verdict.Other?
    && (r.verdict.Rejected? ==> Trim(r.reason) != "" && !InRows(rows, r.key))
    && (r.verdict.Accepted? ==>
          && r.reason == "" && r.evidence.Some? && PageKnown(r.evidence.value.page) && Consensus(cx.known, r.quotes, r.evidence.value)
          && exists i :: 0 <= i < |rows| && Matches(rows[i], r))
  }

  ghost predicate AcceptedAt(records: seq<Record>, i: int) {
    0 <= i < |records| && records[i].verdict.Accepted?
  }

  ghost predicate Accounted(records: seq<Record>, key: Option<Key>) {
    exists j :: AcceptedAt(records, j) && records[j].key == key
  }

  ghost predicate NoRepeat(records: seq<Record>) {
    forall i, j | AcceptedAt(records, i) && AcceptedAt(records, j) && i != j :: records[i].key != records[j].key
  }

  /** What the validator accepts: every line reconciles, no two accepted lines share a key, and every CSV row has
      its accepted line. */
  ghost predicate Balanced(cx: Context, rows: seq<CsvRow>, records: seq<Record>) {
    && RowsKeyed(rows)
    && (forall i | 0 <= i < |records| :: Reconciles(cx, rows, records[i]))
    && NoRepeat(records)
    && (forall i | 0 <= i < |rows| :: Accounted(records, rows[i].key))
  }

  function Count(records: seq<Record>, verdict: Verdict): nat {
    if records == [] then 0
    else Count(records[..|records| - 1], verdict) + if records[|records| - 1].verdict == verdict then 1 else 0
  }

  function AcceptedKeys(records: seq<Record>): set<Option<Key>> {
    set i | 0 <= i < |records| && records[i].verdict.Accepted? :: records[i].key
  }

  function RowKeys(rows: seq<CsvRow>): set<Option<Key>> {
    set i | 0 <= i < |rows| :: rows[i].key
  }

  /** The accepted quotes, and whether their markets are known and distinct. */
  method CheckQuotes(known: set<int>, quotes: seq<Quote>) returns (n: nat, ok: bool)
    ensures n == |Markets(quotes)|
    ensures ok <==> Unique(Markets(quotes)) && forall m | m in Markets(quotes) :: m in known
  {
    n, ok := 0, true;
    var seen: set<int> := {};
    for i := 0 to |quotes|
      invariant n == |Markets(quotes[..i])|
      invariant forall m | m in Markets(quotes[..i]) :: m in seen
      invariant forall m | m in seen :: m in Markets(quotes[..i])
      invariant ok <==> Unique(Markets(quotes[..i])) && forall m | m in Markets(quotes[..i]) :: m in known
    {
      var q := quotes[i];
      assert quotes[..i + 1][..i] == quotes[..i];
      if q.accepted {
        MarketAdded(Markets(quotes[..i]), q.market);
        if q.market in seen || q.market !in known { ok := false; }
        seen := seen + {q.market};
        n := n + 1;
      }
    }
    assert quotes[..|quotes|] == quotes;
  }

  lemma MarketAdded(s: seq<int>, m: int)
    ensures Unique(s + [m]) <==> Unique(s) && m !in s
  {
    var t := s + [m];
    assert forall i | 0 <= i < |s| :: t[i] == s[i];
    assert t[|s|] == m;
    if m in s {
      var i :| 0 <= i < |s| && s[i] == m;
      assert t[i] == t[|s|];
    }
    if Unique(t) { assert forall i, j | 0 <= i < j < |s| :: t[i] != t[j]; }
  }

  /** The CSV by key; None where a row has no key or two have the same. */
  method IndexRows(rows: seq<CsvRow>) returns (index: Option<map<Option<Key>, CsvRow>>)
    ensures index.Some? <==> RowsKeyed(rows)
    ensures index.Some? ==> index.value.Keys == RowKeys(rows) && forall i | 0 <= i < |rows| :: index.value[rows[i].key] == rows[i]
  {
    var m: map<Option<Key>, CsvRow> := map[];
    for i := 0 to |rows|
      invariant RowsKeyed(rows[..i])
      invariant m.Keys == RowKeys(rows[..i]) && forall k | 0 <= k < i :: m[rows[k].key] == rows[k]
    {
      var row := rows[i];
      KeyAdded(rows, i);
      if row.key.None? || row.key in m { return None; }
      m := m[row.key := row];
    }
    assert rows[..|rows|] == rows;
    index := Some(m);
  }

  lemma KeyAdded(rows: seq<CsvRow>, i: nat)
    requires i < |rows|
    ensures RowKeys(rows[..i + 1]) == RowKeys(rows[..i]) + {rows[i].key}
    ensures RowsKeyed(rows[..i]) && rows[i].key.Some? && rows[i].key !in RowKeys(rows[..i]) ==> RowsKeyed(rows[..i + 1])
    ensures rows[i].key in RowKeys(rows[..i]) ==> !RowsKeyed(rows)
    ensures forall k | 0 <= k < i :: rows[k].key in RowKeys(rows[..i])
  {
    var a, b := rows[..i], rows[..i + 1];
    assert b[i] == rows[i] && forall k | 0 <= k < i :: b[k] == rows[k] == a[k];
    forall key | key in RowKeys(a) + {rows[i].key} ensures key in RowKeys(b) {
      if key in RowKeys(a) {
        var k :| 0 <= k < i && a[k].key == key;
        assert b[k].key == key;
      }
    }
    if rows[i].key in RowKeys(a) {
      var k :| 0 <= k < i && a[k].key == rows[i].key;
      assert rows[k].key == rows[i].key;
    }
  }

  /** `_scheduled_bfo_output_path`: the CSV is the ledger's companion under data/raw. */
  predicate LedgerPath(p: Path) {
    && |p| >= 3 && p[..2] == ["data", "raw"]
    && |LEDGER_SUFFIX| <= |p[|p| - 1]| && p[|p| - 1][|p[|p| - 1]| - |LEDGER_SUFFIX|..] == LEDGER_SUFFIX
  }

  function CsvPath(p: Path): Path
    requires LedgerPath(p)
  {
    var name := p[|p| - 1];
    p[..|p| - 1] + [name[..|name| - |LEDGER_SUFFIX|] + ".csv"]
  }

  lemma IndexIsRows(rows: seq<CsvRow>, index: map<Option<Key>, CsvRow>, r: Record)
    requires RowsKeyed(rows) && index.Keys == RowKeys(rows) && forall i | 0 <= i < |rows| :: index[rows[i].key] == rows[i]
    ensures r.key in index <==> InRows(rows, r.key)
    ensures (exists i :: 0 <= i < |rows| && Matches(rows[i], r))
            <==> r.key in index && r.evidence.Some? && index[r.key].values == r.evidence.value.values && index[r.key].url == r.evidence.value.page.url
  {
  }

  /** Whether one line reconciles, as the validator finds out. */
  method CheckRecord(cx: Context, rows: seq<CsvRow>, index: map<Option<Key>, CsvRow>, r: Record) returns (ok: bool)
    requires RowsKeyed(rows) && index.Keys == RowKeys(rows) && forall i | 0 <= i < |rows| :: index[rows[i].key] == rows[i]
    ensures ok <==> Reconciles(cx, rows, r)
  {
    hide RowsKeyed, InRows, Matches, Unique, RowKeys, ParserKnown, PageKnown, Trim;
    IndexIsRows(rows, index, r);
    if r.schema != 1 || !(REQUIRED_FIELDS <= r.fields) || r.verdict.Other? || r.output != cx.output { return false; }
    if r.parser.None? || !ParserKnown(cx, r.parser.value) || r.key.None? || r.requested.None? { return false; }
    if r.requested.value.0 != r.key.value.fighterA || r.requested.value.1 != r.key.value.fighterB { return false; }
    if r.threshold != Some(MINIMUM_BOOKS) { return false; }
    if r.verdict.Rejected? { return Trim(r.reason) != "" && r.key !in index; }
    if r.evidence.None? || !PageKnown(r.evidence.value.page) || r.reason != "" { return false; }
    ok := CheckConsensus(cx.known, r.quotes, r.evidence.value);
    if !ok || r.key !in index { return false; }
    ok := index[r.key].values == r.evidence.value.values && index[r.key].url == r.evidence.value.page.url;
  }

  /** The consensus semantics of an accepted line. */
  method CheckConsensus(known: set<int>, quotes: seq<Quote>, e: Evidence) returns (ok: bool)
    ensures ok <==> Consensus(known, quotes, e)
  {
    hide Unique;
    var n, marketsOk := CheckQuotes(known, quotes);
    if e.books < MINIMUM_BOOKS || n != e.books || !marketsOk { return false; }
    if !(0.0 < e.aProb < 1.0) || !(0.0 < e.bProb < 1.0) { return false; }
    var excess := e.aProb + e.bProb - 1.0;
    ok := -0.000000001 <= excess <= 0.000000001;
  }

  lemma RecordAdded(records: seq<Record>, i: nat)
    requires i < |records|
    ensures records[..i + 1][..i] == records[..i]
    ensures AcceptedKeys(records[..i + 1]) == AcceptedKeys(records[..i]) + if records[i].verdict.Accepted? then {records[i].key} else {}
    ensures NoRepeat(records[..i]) && (records[i].verdict.Accepted? ==> records[i].key !in AcceptedKeys(records[..i])) ==> NoRepeat(records[..i + 1])
    ensures records[i].verdict.Accepted? && records[i].key in AcceptedKeys(records[..i]) ==> !NoRepeat(records)
  {
    var a, b := records[..i], records[..i + 1];
    assert b[i] == records[i] && forall k | 0 <= k < i :: b[k] == records[k] == a[k];
    forall key | key in AcceptedKeys(a) ensures key in AcceptedKeys(b) {
      var k :| 0 <= k < i && a[k].verdict.Accepted? && a[k].key == key;
      assert b[k].verdict.Accepted? && b[k].key == key;
    }
    if records[i].verdict.Accepted? {
      assert b[i].key in AcceptedKeys(b);
      if records[i].key in AcceptedKeys(a) {
        var k :| 0 <= k < i && a[k].verdict.Accepted? && a[k].key == records[i].key;
        assert AcceptedAt(records, k) && AcceptedAt(records, i);
      }
    }
    if NoRepeat(a) && (records[i].verdict.Accepted? ==> records[i].key !in AcceptedKeys(a)) {
      forall k, l | AcceptedAt(b, k) && AcceptedAt(b, l) && k != l ensures b[k].key != b[l].key {
        if k < i && l < i { assert AcceptedAt(a, k) && AcceptedAt(a, l); }
        if k < i { assert a[k].key in AcceptedKeys(a); }
        if l < i { assert a[l].key in AcceptedKeys(a); }
      }
    }
  }

  lemma AccountedKeys(records: seq<Record>, key: Option<Key>)
    ensures Accounted(records, key) <==> key in AcceptedKeys(records)
  {
    if Accounted(records, key) {
      var j :| AcceptedAt(records, j) && records[j].key == key;
      assert records[j].key in AcceptedKeys(records);
    }
    if key in AcceptedKeys(records) {
      var j :| 0 <= j < |records| && records[j].verdict.Accepted? && records[j].key == key;
      assert AcceptedAt(records, j);
    }
  }

  lemma Coverage(cx: Context, rows: seq<CsvRow>, records: seq<Record>)
    requires RowsKeyed(rows) && forall i | 0 <= i < |records| :: Reconciles(cx, rows, records[i])
    ensures AcceptedKeys(records) == RowKeys(rows) <==> forall i | 0 <= i < |rows| :: Accounted(records, rows[i].key)
  {
    hide Consensus, Accounted;
    forall key | key in AcceptedKeys(records) ensures key in RowKeys(rows) {
      var j :| 0 <= j < |records| && records[j].verdict.Accepted? && records[j].key == key;
      var i :| 0 <= i < |rows| && Matches(rows[i], records[j]);
      assert rows[i].key in RowKeys(rows);
    }
    forall key | key in RowKeys(rows) ensures Accounted(records, key) <==> key in AcceptedKeys(records) {
      AccountedKeys(records, key);
    }
    forall i | 0 <= i < |rows| ensures rows[i].key in RowKeys(rows) {
    }
  }

  /** The inventory lists the file as a raw input with these contents. */
  predicate Bound(inventory: map<Path, Pin>, p: Path, content: Bytes) {
    p in inventory && inventory[p] == Pin(true, content)
  }

  /** `_validate_scheduled_bfo_ledger`, the two files already read and parsed. */
  method ValidateLedger(known: set<int>, inventory: map<Path, Pin>, path: Path, rows: seq<CsvRow>, records: seq<Record>,
                        ledgerBytes: Bytes, csvBytes: Bytes)
    returns (r: Option<Identity>)
    ensures r.Some? <==> LedgerPath(path)
                         && path in inventory && inventory[path].raw && inventory[path].content == ledgerBytes
                         && CsvPath(path) in inventory && inventory[CsvPath(path)].raw && inventory[CsvPath(path)].content == csvBytes
                         && Balanced(Context(known, inventory, CsvPath(path)), rows, records)
    ensures r.Some? ==> r.value == Identity(path, CsvPath(path), ledgerBytes, csvBytes, |rows|, |records|,
                                            Count(records, Accepted), Count(records, Rejected))
  {
    hide Reconciles, RowsKeyed, LedgerPath, CsvPath, RowKeys, AcceptedKeys, AcceptedAt, Accounted;
    if !LedgerPath(path) { return None; }
    if !Bound(inventory, path, ledgerBytes) || !Bound(inventory, CsvPath(path), csvBytes) { return None; }
    var cx := Context(known, inventory, CsvPath(path));
    var index := IndexRows(rows);
    if index.None? { return None; }
    var acceptedKeys: set<Option<Key>>, accepted, rejected := {}, 0, 0;
    assert AcceptedKeys([]) == {} && NoRepeat([]) by { NoRecords(); }
    for i := 0 to |records|
      invariant forall k | 0 <= k < i :: Reconciles(cx, rows, records[k])
      invariant NoRepeat(records[..i]) && acceptedKeys == AcceptedKeys(records[..i])
      invariant accepted == Count(records[..i], Accepted) && rejected == Count(records[..i], Rejected)
    {
      hide NoRepeat;
      var record := records[i];
      RecordAdded(records, i);
      var ok := CheckRecord(cx, rows, index.value, record);
      if !ok { return None; }
      if record.verdict.Rejected? {
        rejected := rejected + 1;
        continue;
      }
      assert record.verdict.Accepted? by { VerdictOf(cx, rows, record); }
      if record.key in acceptedKeys {
        assert !NoRepeat(records);
        RepeatIsUnbalanced(cx, rows, records);
        return None;
      }
      acceptedKeys := acceptedKeys + {record.key};
      accepted := accepted + 1;
    }
    assert records[..|records|] == records;
    Coverage(cx, rows, records);
    if acceptedKeys != index.value.Keys { return None; }
    r := Some(Identity(path, CsvPath(path), ledgerBytes, csvBytes, |rows|, |records|, accepted, rejected));
  }

  lemma NoRecords()
    ensures AcceptedKeys([]) == {} && NoRepeat([])
  {
  }

  lemma VerdictOf(cx: Context, rows: seq<CsvRow>, r: Record)
    requires Reconciles(cx, rows, r)
    ensures !r.verdict.Other?
  {
  }

  lemma RepeatIsUnbalanced(cx: Context, rows: seq<CsvRow>, records: seq<Record>)
    requires !NoRepeat(records)
    ensures !Balanced(cx, rows, records)
  {
  }

  // ---- what acceptance means ----

  lemma {:induction false} CountKeys(records: seq<Record>)
    requires NoRepeat(records)
    ensures |AcceptedKeys(records)| == Count(records, Accepted)
  {
    if records == [] {
      NoRecords();
    } else {
      var n := |records| - 1;
      assert NoRepeat(records[..n]) by {
        forall i, j | AcceptedAt(records[..n], i) && AcceptedAt(records[..n], j) && i != j ensures records[..n][i].key != records[..n][j].key {
          assert AcceptedAt(records, i) && AcceptedAt(records, j);
        }
      }
      CountKeys(records[..n]);
      assert records[..n + 1] == records;
      RecordAdded(records, n);
    }
  }

  lemma {:induction false} RowsAreTheirKeys(rows: seq<CsvRow>)
    requires RowsKeyed(rows)
    ensures |RowKeys(rows)| == |rows|
  {
    if rows == [] {
      assert RowKeys(rows) == {};
    } else {
      var n := |rows| - 1;
      RowsAreTheirKeys(rows[..n]);
      assert rows[..n + 1] == rows;
      KeyAdded(rows, n);
      if rows[n].key in RowKeys(rows[..n]) { assert false; }
    }
  }

  lemma {:induction false} CountsAddUp(records: seq<Record>)
    requires forall i | 0 <= i < |records| :: !records[i].verdict.Other?
    ensures Count(records, Accepted) + Count(records, Rejected) == |records|
  {
    if records != [] { CountsAddUp(records[..|records| - 1]); }
  }

  lemma CountsReconcile(cx: Context, rows: seq<CsvRow>, records: seq<Record>)
    requires Balanced(cx, rows, records)
    ensures Count(records, Accepted) == |rows| && Count(records, Accepted) + Count(records, Rejected) == |records|
  {
    hide Consensus, Count, InRows, Matches, AcceptedKeys, RowKeys;
    Coverage(cx, rows, records);
    CountKeys(records);
    RowsAreTheirKeys(rows);
    CountsAddUp(records);
  }

  /** Row i was recovered by accepted line j. */
  ghost predicate Recovered(rows: seq<CsvRow>, records: seq<Record>, i: int, j: int) {
    && 0 <= i < |rows| && AcceptedAt(records, j) && rows[i].key == records[j].key && records[j].evidence.Some?
    && var e := records[j].evidence.value;
       rows[i].url == e.page.url && rows[i].values == e.values
  }

  ghost predicate HasItsLine(rows: seq<CsvRow>, records: seq<Record>, i: int) {
    exists j :: Recovered(rows, records, i, j)
  }

  lemma RecoveredOnce(cx: Context, rows: seq<CsvRow>, records: seq<Record>, i: int, j: int, i': int, j': int)
    requires Balanced(cx, rows, records) && Recovered(rows, records, i, j) && Recovered(rows, records, i', j')
    ensures i == i' <==> j == j'
  {
    hide Reconciles, Accounted;
  }

  /** Accepted lines and CSV rows pair off one to one, with the same key, values and source, and no rejected key
      is in the CSV. */
  lemma AcceptedLinesAreTheRows(cx: Context, rows: seq<CsvRow>, records: seq<Record>)
    requires Balanced(cx, rows, records)
    ensures forall j | AcceptedAt(records, j) :: exists i :: Recovered(rows, records, i, j)
    ensures forall i | 0 <= i < |rows| :: HasItsLine(rows, records, i)
    ensures forall i, j, i', j' | Recovered(rows, records, i, j) && Recovered(rows, records, i', j') :: i == i' <==> j == j'
    ensures forall j | 0 <= j < |records| && records[j].verdict.Rejected? :: !InRows(rows, records[j].key)
  {
    hide Consensus, Accounted, Matches, InRows, Recovered;
    forall j | AcceptedAt(records, j) ensures exists i :: Recovered(rows, records, i, j) {
      LineHasItsRow(cx, rows, records, j);
    }
    forall i: nat | i < |rows| ensures HasItsLine(rows, records, i) {
      RowHasItsLine(cx, rows, records, i);
    }
    forall i, j, i', j' | Recovered(rows, records, i, j) && Recovered(rows, records, i', j') ensures i == i' <==> j == j' {
      RecoveredOnce(cx, rows, records, i, j, i', j');
    }
  }

  lemma LineHasItsRow(cx: Context, rows: seq<CsvRow>, records: seq<Record>, j: int)
    requires Balanced(cx, rows, records) && AcceptedAt(records, j)
    ensures exists i :: Recovered(rows, records, i, j)
  {
    hide Consensus;
    assert Reconciles(cx, rows, records[j]);
    var k :| 0 <= k < |rows| && Matches(rows[k], records[j]);
    assert Recovered(rows, records, k, j);
  }

  lemma RowHasItsLine(cx: Context, rows: seq<CsvRow>, records: seq<Record>, i: nat)
    requires Balanced(cx, rows, records) && i < |rows|
    ensures HasItsLine(rows, records, i)
  {
    hide Consensus;
    assert Accounted(records, rows[i].key);
    var j :| AcceptedAt(records, j) && records[j].key == rows[i].key;
    assert Reconciles(cx, rows, records[j]);
    var k :| 0 <= k < |rows| && Matches(rows[k], records[j]);
    assert rows[k].key == rows[i].key;
    assert Recovered(rows, records, i, j);
  }

  // ---- what is accepted, spelled out ----

  predicate HexText(s: string, n: nat) {
    |s| == n && forall c | c in s :: c in "0123456789abcdefABCDEF"
  }

  predicate SaysSomething(s: string) {
    exists c | c in s :: !Space(c)
  }

  /** Which quotes are accepted, by place. */
  function AcceptedQuotes(quotes: seq<Quote>): set<nat> {
    set i: nat | i < |quotes| && quotes[i].accepted
  }

  predicate NoneTwice(quotes: seq<Quote>) {
    forall i, j | 0 <= i < j < |quotes| && quotes[i].accepted && quotes[j].accepted :: quotes[i].market != quotes[j].market
  }

  /** At least three bookmakers, as many as accepted quotes, all known and no two the same; and fair
      probabilities that add up. */
  ghost predicate Agreed(known: set<int>, quotes: seq<Quote>, e: Evidence) {
    && 3 <= e.books == |AcceptedQuotes(quotes)|
    && (forall q | q in quotes && q.accepted :: q.market in known) && NoneTwice(quotes)
    && 0.0 < e.aProb < 1.0 && 0.0 < e.bProb < 1.0
    && 0.999999999 <= e.aProb + e.bProb <= 1.000000001
  }

  /** The line was written by the two scripts as the inventory has them, at a commit. */
  predicate FromKnownScripts(cx: Context, p: Parser) {
    var recover, revalidate := ["scripts", "recover_bfo_moneyline_gaps.py"], ["scripts", "revalidate_bfo_recovery_file.py"];
    && HexText(p.head, 40) && HexText(p.dirty, 64)
    && p.files == map[recover := if recover in cx.inventory then Some(cx.inventory[recover].content) else None,
                      revalidate := if revalidate in cx.inventory then Some(cx.inventory[revalidate].content) else None]
  }

  /** What a line must say for itself. */
  ghost predicate LineHolds(cx: Context, r: Record) {
    && r.schema == 1 && r.output == cx.output && r.threshold == Some(3) && r.verdict in {Accepted, Rejected}
    && {"schema_version", "decision", "recovery_key", "requested_fighters", "parser", "thresholds", "event_page", "matched_bfo_rows",
        "paired_quotes", "consensus", "csv_values", "rejection_reason", "output_batch"} <= r.fields
    && r.key.Some? && r.requested.Some? && r.requested.value.0 == r.key.value.fighterA && r.requested.value.1 == r.key.value.fighterB
    && r.parser.Some? && FromKnownScripts(cx, r.parser.value)
    && (r.verdict == Rejected ==> SaysSomething(r.reason))
    && (r.verdict == Accepted ==>
          && r.reason == "" && r.evidence.Some?
          && var page := r.evidence.value.page;
             (page.url[..Min(7, |page.url|)] == "http://" || page.url[..Min(8, |page.url|)] == "https://")
             && HexText(page.digest, 64) && SaysSomething(page.fetched)
             && Agreed(cx.known, r.quotes, r.evidence.value))
  }

  function Min(a: nat, b: nat): nat {
    if a < b then a else b
  }

  lemma HexIs(s: string, n: nat)
    ensures Hex(s, n) <==> HexText(s, n)
  {
    forall c ensures c in "0123456789abcdefABCDEF" <==> '0' <= c <= '9' || 'a' <= c <= 'f' || 'A' <= c <= 'F' { HexChar(c); }
    if Hex(s, n) {
      forall c | c in s ensures c in "0123456789abcdefABCDEF" {
        var i :| 0 <= i < |s| && s[i] == c;
      }
    }
    assert forall i | 0 <= i < |s| :: s[i] in s;
  }

  lemma HexChar(c: char)
    ensures c in "0123456789abcdefABCDEF" <==> '0' <= c <= '9' || 'a' <= c <= 'f' || 'A' <= c <= 'F'
  {
    InAlphabet("0123456789", '0', c);
    InAlphabet("abcdef", 'a', c);
    InAlphabet("ABCDEF", 'A', c);
    assert "0123456789abcdefABCDEF" == "0123456789" + "abcdef" + "ABCDEF";
  }

  lemma Says(s: string)
    ensures Trim(s) != "" <==> SaysSomething(s)
  {
    hide Trim;
    var a, b := TrimSplits(s);
    var t := Trim(s);
    if t != "" {
      assert t[0] in s;
    } else {
      assert s == a + b;
    }
  }

  lemma AcceptedMore(quotes: seq<Quote>)
    requires quotes != []
    ensures var n := |quotes| - 1;
            AcceptedQuotes(quotes) == AcceptedQuotes(quotes[..n]) + (if quotes[n].accepted then {n} else {})
  {
    assert forall i | 0 <= i < |quotes| - 1 :: quotes[..|quotes| - 1][i] == quotes[i];
  }

  lemma {:induction false} MarketCount(quotes: seq<Quote>)
    ensures |Markets(quotes)| == |AcceptedQuotes(quotes)|
  {
    if quotes == [] {
      assert AcceptedQuotes(quotes) == {};
    } else {
      MarketCount(quotes[..|quotes| - 1]);
      AcceptedMore(quotes);
      assert |quotes| - 1 !in AcceptedQuotes(quotes[..|quotes| - 1]);
    }
  }

  predicate Offers(quotes: seq<Quote>, m: int) {
    exists i :: 0 <= i < |quotes| && quotes[i].accepted && quotes[i].market == m
  }

  lemma OfferMore(quotes: seq<Quote>, m: int)
    requires quotes != []
    ensures var q := quotes[|quotes| - 1]; Offers(quotes, m) <==> Offers(quotes[..|quotes| - 1], m) || (q.accepted && q.market == m)
  {
    var n := |quotes| - 1;
    assert forall i | 0 <= i < n :: quotes[..n][i] == quotes[i];
  }

  lemma {:induction false} MarketOffered(quotes: seq<Quote>, m: int)
    ensures m in Markets(quotes) <==> Offers(quotes, m)
  {
    hide Offers;
    if quotes != [] {
      MarketOffered(quotes[..|quotes| - 1], m);
      OfferMore(quotes, m);
    } else {
      assert !Offers([], m) by { NoOffers(m); }
    }
  }

  lemma NoOffers(m: int)
    ensures !Offers([], m)
  {
  }

  lemma NoneTwiceMore(quotes: seq<Quote>)
    requires quotes != []
    ensures var n := |quotes| - 1;
            NoneTwice(quotes) <==> NoneTwice(quotes[..n]) && (quotes[n].accepted ==> !Offers(quotes[..n], quotes[n].market))
  {
    var n := |quotes| - 1;
    assert forall i | 0 <= i < n :: quotes[..n][i] == quotes[i];
  }

  lemma {:induction false} MarketsDiffer(quotes: seq<Quote>)
    ensures Unique(Markets(quotes)) <==> NoneTwice(quotes)
  {
    hide Unique, NoneTwice, Offers;
    if quotes == [] {
      assert Unique([]) && NoneTwice([]) by { NothingTwice(); }
    } else {
      var n := |quotes| - 1;
      MarketsDiffer(quotes[..n]);
      NoneTwiceMore(quotes);
      MarketOffered(quotes[..n], quotes[n].market);
      MarketAdded(Markets(quotes[..n]), quotes[n].market);
    }
  }

  lemma NothingTwice()
    ensures Unique([]) && NoneTwice([])
  {
  }

  lemma AgreedIs(known: set<int>, quotes: seq<Quote>, e: Evidence)
    ensures Consensus(known, quotes, e) <==> Agreed(known, quotes, e)
  {
    hide Markets, AcceptedQuotes, Unique, NoneTwice, Offers;
    MarketCount(quotes);
    MarketsDiffer(quotes);
    forall m ensures m in Markets(quotes) <==> Offers(quotes, m) { MarketOffered(quotes, m); }
    KnownOffers(known, quotes);
  }

  lemma KnownOffers(known: set<int>, quotes: seq<Quote>)
    ensures (forall m | Offers(quotes, m) :: m in known) <==> forall q | q in quotes && q.accepted :: q.market in known
  {
    if forall m | Offers(quotes, m) :: m in known {
      forall q | q in quotes && q.accepted ensures q.market in known {
        var i :| 0 <= i < |quotes| && quotes[i] == q;
        assert Offers(quotes, q.market);
      }
    }
  }

  lemma ParserIs(cx: Context, p: Parser)
    ensures ParserKnown(cx, p) <==> FromKnownScripts(cx, p)
  {
    hide Hex, HexText;
    HexIs(p.head, 40);
    HexIs(p.dirty, 64);
  }

  lemma PageIs(p: Page)
    ensures PageKnown(p)
            <==> && (p.url[..Min(7, |p.url|)] == "http://" || p.url[..Min(8, |p.url|)] == "https://")
                 && HexText(p.digest, 64) && SaysSomething(p.fetched)
  {
    hide Hex, HexText, Trim, SaysSomething;
    HexIs(p.digest, 64);
    Says(p.fetched);
  }

  /** Exactly which lines reconcile: those that hold by themselves and are of the CSV, or kept out of it. */
  lemma ReconcilesExactly(cx: Context, rows: seq<CsvRow>, r: Record)
    ensures Reconciles(cx, rows, r)
            <==> && LineHolds(cx, r)
                 && (r.verdict == Rejected ==> forall i | 0 <= i < |rows| :: rows[i].key != r.key)
                 && (r.verdict == Accepted ==> exists i :: 0 <= i < |rows| && Matches(rows[i], r))
  {
    hide ParserKnown, FromKnownScripts, PageKnown, HexText, SaysSomething, Consensus, Agreed, Trim, Matches;
    Says(r.reason);
    if r.parser.Some? { ParserIs(cx, r.parser.value); }
    if r.evidence.Some? {
      PageIs(r.evidence.value.page);
      AgreedIs(cx.known, r.quotes, r.evidence.value);
    }
  }

  /** Rows and accepted lines pair off one to one in key, values and source. */
  ghost predicate Paired(rows: seq<CsvRow>, records: seq<Record>) {
    && (forall i | 0 <= i < |rows| :: HasItsLine(rows, records, i))
    && (forall j | AcceptedAt(records, j) :: HasItsRow(rows, records, j))
    && (forall i, j, i', j' | Recovered(rows, records, i, j) && Recovered(rows, records, i', j') :: i == i' <==> j == j')
  }

  ghost predicate RejectedApart(rows: seq<CsvRow>, records: seq<Record>) {
    forall i, j | 0 <= i < |rows| && 0 <= j < |records| && records[j].verdict == Rejected :: rows[i].key != records[j].key
  }

  ghost predicate OwnKeys(rows: seq<CsvRow>) {
    && (forall row | row in rows :: row.key != None)
    && forall i, j | 0 <= i < |rows| && 0 <= j < |rows| && rows[i].key == rows[j].key :: i == j
  }

  /** Exactly which ledgers are accepted: every line holds, every CSV row has a key of its own, the rows and the
      accepted lines pair off one to one, and no rejected key is in the CSV. */
  lemma BalancedExactly(cx: Context, rows: seq<CsvRow>, records: seq<Record>)
    ensures Balanced(cx, rows, records)
            <==> (forall r | r in records :: LineHolds(cx, r)) && OwnKeys(rows) && Paired(rows, records) && RejectedApart(rows, records)
  {
    hide LineHolds, Balanced, OwnKeys, Paired, RejectedApart;
    if Balanced(cx, rows, records) { BalancedHolds(cx, rows, records); }
    if (forall r | r in records :: LineHolds(cx, r)) && OwnKeys(rows) && Paired(rows, records) && RejectedApart(rows, records) {
      HoldsIsBalanced(cx, rows, records);
    }
  }

  lemma BalancedHolds(cx: Context, rows: seq<CsvRow>, records: seq<Record>)
    requires Balanced(cx, rows, records)
    ensures (forall r | r in records :: LineHolds(cx, r)) && OwnKeys(rows) && Paired(rows, records) && RejectedApart(rows, records)
  {
    hide LineHolds, Matches, Reconciles, Recovered;
    AcceptedLinesAreTheRows(cx, rows, records);
    forall j | 0 <= j < |records| ensures LineHolds(cx, records[j]) { ReconcilesExactly(cx, rows, records[j]); }
    forall j | AcceptedAt(records, j) ensures HasItsRow(rows, records, j) {}
    forall j | 0 <= j < |records| && records[j].verdict.Rejected? ensures forall i | 0 <= i < |rows| :: rows[i].key != records[j].key {
      assert !InRows(rows, records[j].key);
    }
  }

  lemma HoldsIsBalanced(cx: Context, rows: seq<CsvRow>, records: seq<Record>)
    requires forall r | r in records :: LineHolds(cx, r)
    requires OwnKeys(rows) && Paired(rows, records) && RejectedApart(rows, records)
    ensures Balanced(cx, rows, records)
  {
    hide LineHolds, Matches, Reconciles, Recovered;
    PairsAccount(rows, records);
    forall j | 0 <= j < |records| ensures Reconciles(cx, rows, records[j]) {
      ReconcilesExactly(cx, rows, records[j]);
      assert records[j] in records;
      if records[j].verdict == Accepted { assert AcceptedAt(records, j); }
    }
    forall i | 0 <= i < |rows| ensures rows[i].key.Some? { assert rows[i] in rows; }
  }

  lemma PairsAccount(rows: seq<CsvRow>, records: seq<Record>)
    requires OwnKeys(rows) && Paired(rows, records)
    ensures NoRepeat(records) && forall i | 0 <= i < |rows| :: Accounted(records, rows[i].key)
    ensures forall j | AcceptedAt(records, j) :: exists i :: 0 <= i < |rows| && Matches(rows[i], records[j])
  {
    forall i | 0 <= i < |rows| ensures Accounted(records, rows[i].key) {
      assert HasItsLine(rows, records, i);
      var j :| Recovered(rows, records, i, j);
    }
    forall j, j' | AcceptedAt(records, j) && AcceptedAt(records, j') && j != j' ensures records[j].key != records[j'].key {
      assert HasItsRow(rows, records, j) && HasItsRow(rows, records, j');
      var i :| Recovered(rows, records, i, j);
      var i' :| Recovered(rows, records, i', j');
    }
    forall j | AcceptedAt(records, j) ensures exists i :: 0 <= i < |rows| && Matches(rows[i], records[j]) {
      assert HasItsRow(rows, records, j);
      var i :| Recovered(rows, records, i, j);
    }
  }

  ghost predicate HasItsRow(rows: seq<CsvRow>, records: seq<Record>, j: int) {
    exists i :: Recovered(rows, records, i, j)
  }

  /** Which ledgers and companions there are, by their paths. */
  lemma LedgerPathExactly(p: Path)
    ensures LedgerPath(p) <==> exists dirs: Path, stem :: p == ["data", "raw"] + dirs + [stem + ".provenance.jsonl"]
    ensures forall dirs: Path, stem | p == ["data", "raw"] + dirs + [stem + ".provenance.jsonl"] :: LedgerPath(p) && CsvPath(p) == ["data", "raw"] + dirs + [stem + ".csv"]
  {
    forall dirs: Path, stem | p == ["data", "raw"] + dirs + [stem + ".provenance.jsonl"]
      ensures LedgerPath(p) && CsvPath(p) == ["data", "raw"] + dirs + [stem + ".csv"]
    {
      NamedLedger(p, dirs, stem);
    }
    if LedgerPath(p) {
      var name := p[|p| - 1];
      var dirs, stem := p[2..|p| - 1], name[..|name| - |LEDGER_SUFFIX|];
      assert name == stem + ".provenance.jsonl";
      assert p == ["data", "raw"] + dirs + [stem + ".provenance.jsonl"];
    }
  }

  lemma NamedLedger(p: Path, dirs: Path, stem: string)
    requires p == ["data", "raw"] + dirs + [stem + ".provenance.jsonl"]
    ensures LedgerPath(p) && CsvPath(p) == ["data", "raw"] + dirs + [stem + ".csv"]
  {
    var name := stem + ".provenance.jsonl";
    assert p[|p| - 1] == name && p[..2] == ["data", "raw"];
    assert name[|name| - |LEDGER_SUFFIX|..] == LEDGER_SUFFIX && name[..|name| - |LEDGER_SUFFIX|] == stem;
    assert p[..|p| - 1] == ["data", "raw"] + dirs;
  }

  // ---- the derived batch ----

  /** `_current_bfo_lineage_batch`. */
  function CurrentBatch(id: Identity): Option<Batch>
    requires id.ledger != [] && id.csv != []
  {
    if id.accepted == 0 then None
    else Some(Batch(id.accepted, id.rejected,
                    FileRecord(id.csv, ["batches", id.csv[|id.csv| - 1]], id.csvBytes, id.rows),
                    FileRecord(id.ledger, ["batches", id.ledger[|id.ledger| - 1]], id.ledgerBytes, id.lines)))
  }

  /** The batch derived from an accepted ledger always reconciles in count and name; it is a lawful lineage batch
      exactly when the files are not empty and lie directly under the raw odds directory with a recovery's name. */
  lemma DerivedBatchIsLawful(cx: Context, rows: seq<CsvRow>, records: seq<Record>, id: Identity)
    requires Balanced(cx, rows, records) && LedgerPath(id.ledger) && id.csv == CsvPath(id.ledger)
    requires id.rows == |rows| && id.lines == |records|
    requires id.accepted == Count(records, Accepted) && id.rejected == Count(records, Rejected)
    ensures CurrentBatch(id).Some? <==> rows != []
    ensures CurrentBatch(id).Some? ==>
              var b := CurrentBatch(id).value;
              && b.csv.pinned == id.csvBytes && b.ledger.pinned == id.ledgerBytes
              && b.csv.count == b.accepted && b.ledger.count == b.accepted + b.rejected
              && (BatchOK(b) <==> id.ledgerBytes != [] && id.csvBytes != [] && UnderRaw(id.ledger) && CsvName(id.csv[|id.csv| - 1]))
  {
    hide CsvName, Balanced, Count, LedgerPath, LedgerName, CsvPath;
    CountsReconcile(cx, rows, records);
    Companions(id.ledger);
    UnderRawTogether(id.ledger, id.csv);
  }

  lemma UnderRawTogether(p: Path, q: Path)
    requires p != [] && |q| == |p| && q[..|p| - 1] == p[..|p| - 1]
    ensures UnderRaw(p) <==> UnderRaw(q)
  {
  }

  lemma Companions(path: Path)
    requires LedgerPath(path)
    ensures var csv := CsvPath(path);
            && |csv| == |path| && path != [] && csv[..|path| - 1] == path[..|path| - 1] && |csv[|path| - 1]| >= 4
            && LedgerName(csv[|path| - 1]) == path[|path| - 1]
  {
    var csv, name := CsvPath(path), path[|path| - 1];
    var stem := name[..|name| - |LEDGER_SUFFIX|];
    assert csv[|path| - 1] == stem + ".csv";
    assert (stem + ".csv")[..|stem + ".csv"| - 4] == stem;
    assert name == stem + name[|name| - |LEDGER_SUFFIX|..];
  }
}
