/** scripts/bfo_lineage.py: the sealed list of accepted scheduled odds batches, and restoring the files it
    pins. A file's SHA-256 and byte count are the bytes themselves. */
module BfoLineage {
  import opened Common
  import opened TextLaws

  /** A POSIX path by its components. */
  type Path = seq<string>

  const RAW_PREFIX: Path := ["data", "raw", "historical_odds"]
  const CSV_PREFIX := "historical_odds_bfo_recovered_"
  const LEDGER_SUFFIX := ".provenance.jsonl"

  /** A pinned file: where it lives in the checkout and in the package, its bytes, and its rows or lines. */
  datatype FileRecord = FileRecord(raw: Path, artifact: Path, pinned: Bytes, count: int)

  datatype Batch = Batch(accepted: int, rejected: int, csv: FileRecord, ledger: FileRecord)

  /** `header`: the exact key sets and the patterns of the parent's ids and hashes. */
  datatype Manifest = Manifest(version: int, header: bool, parentBundle: string, parentSource: string,
                               previous: Option<string>, batches: seq<Batch>)

  predicate NameChar(c: char) {
    'A' <= c <= 'Z' || 'a' <= c <= 'z' || '0' <= c <= '9' || c == '.' || c == '_' || c == '-'
  }

  predicate CsvName(name: string) {
    && |CSV_PREFIX| + 5 <= |name|
    && name[..|CSV_PREFIX|] == CSV_PREFIX && name[|name| - 4..] == ".csv"
    && forall i | |CSV_PREFIX| <= i < |name| - 4 :: NameChar(name[i])
  }

  function LedgerName(csv: string): string
    requires |csv| >= 4
  {
    csv[..|csv| - 4] + LEDGER_SUFFIX
  }

  predicate UnderRaw(p: Path) {
    |p| == 4 && p[..3] == RAW_PREFIX
  }

  predicate FileOK(f: FileRecord, count: int) {
    f.pinned != [] && f.count == count
  }

  predicate BatchOK(b: Batch) {
    && b.accepted >= 1 && b.rejected >= 0
    && UnderRaw(b.csv.raw) && CsvName(b.csv.raw[3])
    && UnderRaw(b.ledger.raw) && b.ledger.raw[3] == LedgerName(b.csv.raw[3])
    && b.csv.artifact == ["batches", b.csv.raw[3]] && b.ledger.artifact == ["batches", b.ledger.raw[3]]
    && FileOK(b.csv, b.accepted) && FileOK(b.ledger, b.accepted + b.rejected)
  }

  /** The files of all batches, in the order they are listed. */
  function Files(batches: seq<Batch>): (files: seq<FileRecord>)
    ensures |files| == 2 * |batches|
  {
    if batches == [] then [] else
      var last := batches[|batches| - 1];
      Files(batches[..|batches| - 1]) + [last.csv, last.ledger]
  }

  ghost predicate DistinctRaw(files: seq<FileRecord>) {
    forall i, j | 0 <= i < j < |files| :: files[i].raw != files[j].raw
  }

  /** What a manifest must be: every batch reconciles and no raw path is pinned twice. */
  ghost predicate Lawful(m: Manifest) {
    && m.version == 1 && m.header
    && (forall i | 0 <= i < |m.batches| :: BatchOK(m.batches[i]))
    && DistinctRaw(Files(m.batches))
  }

  lemma {:induction false} FilesAt(batches: seq<Batch>, i: nat)
    requires i < |batches|
    ensures Files(batches)[2 * i] == batches[i].csv && Files(batches)[2 * i + 1] == batches[i].ledger
  {
    if i < |batches| - 1 { FilesAt(batches[..|batches| - 1], i); }
  }

  lemma {:induction false} FilesConcat(a: seq<Batch>, b: seq<Batch>)
    ensures Files(a + b) == Files(a) + Files(b)
  {
    if b == [] {
      assert a + b == a;
    } else {
      FilesConcat(a, b[..|b| - 1]);
      assert (a + b)[..|a + b| - 1] == a + b[..|b| - 1];
    }
  }

  ghost predicate Shaped(f: FileRecord) {
    UnderRaw(f.raw) && f.artifact == ["batches", f.raw[3]] && f.pinned != []
  }

  lemma BatchShaped(b: Batch)
    requires BatchOK(b)
    ensures Shaped(b.csv) && Shaped(b.ledger)
  {
    hide CsvName, LedgerName;
  }

  lemma FileShape(batches: seq<Batch>, i: nat)
    requires forall k | 0 <= k < |batches| :: BatchOK(batches[k])
    requires i < 2 * |batches|
    ensures Shaped(Files(batches)[i])
  {
    hide BatchOK, Shaped, Files;
    FilesAt(batches, i / 2);
    BatchShaped(batches[i / 2]);
    assert i == 2 * (i / 2) || i == 2 * (i / 2) + 1;
  }

  lemma ShapedPaths(f: FileRecord, g: FileRecord)
    requires Shaped(f) && Shaped(g)
    ensures f.artifact == g.artifact <==> f.raw == g.raw
  {
    assert f.raw == f.raw[..3] + [f.raw[3]] && g.raw == g.raw[..3] + [g.raw[3]];
    assert f.artifact[1] == f.raw[3] && g.artifact[1] == g.raw[3];
  }

  /** Package paths follow raw paths, so refusing duplicate raw paths already refuses duplicate package paths. */
  lemma ArtifactFollowsRaw(batches: seq<Batch>, i: nat, j: nat)
    requires forall k | 0 <= k < |batches| :: BatchOK(batches[k])
    requires i < 2 * |batches| && j < 2 * |batches|
    ensures Files(batches)[i].artifact == Files(batches)[j].artifact <==> Files(batches)[i].raw == Files(batches)[j].raw
  {
    hide BatchOK, Shaped, Files;
    FileShape(batches, i);
    FileShape(batches, j);
    ShapedPaths(Files(batches)[i], Files(batches)[j]);
  }

  /** `validate_manifest_payload`. */
  method ValidateManifest(m: Manifest) returns (r: Option<seq<Batch>>)
    ensures r.Some? <==> Lawful(m)
    ensures r.Some? ==> r.value == m.batches
  {
    if m.version != 1 || !m.header { return None; }
    var seenRaw: set<Path>, seenArtifact: set<Path>, batches: seq<Batch> := {}, {}, [];
    for i := 0 to |m.batches|
      invariant batches == m.batches[..i]
      invariant forall k | 0 <= k < i :: BatchOK(m.batches[k])
      invariant DistinctRaw(Files(batches))
      invariant seenRaw == RawOf(Files(batches)) && seenArtifact == ArtifactsOf(Files(batches))
    {
      var b := m.batches[i];
      Prefix(m.batches, i);
      if !BatchOK(b) { return None; }
      ghost var files, files' := Files(m.batches[..i]), Files(m.batches[..i + 1]);
      if b.csv.raw in seenRaw || b.ledger.raw in seenRaw + {b.csv.raw} {
        Refused(m, files, b, i);
        return None;
      }
      seenRaw := seenRaw + {b.csv.raw, b.ledger.raw};
      NoArtifactClash(m.batches, i);
      if b.csv.artifact in seenArtifact || b.ledger.artifact in seenArtifact + {b.csv.artifact} { assert false; }
      seenArtifact := seenArtifact + {b.csv.artifact, b.ledger.artifact};
      batches := batches + [b];
      Extended(files, b);
    }
    assert m.batches[..|m.batches|] == m.batches;
    r := Some(batches);
  }

  ghost function RawOf(files: seq<FileRecord>): set<Path> {
    set i | 0 <= i < |files| :: files[i].raw
  }

  ghost function ArtifactsOf(files: seq<FileRecord>): set<Path> {
    set i | 0 <= i < |files| :: files[i].artifact
  }

  lemma OneMore(batches: seq<Batch>, i: nat)
    requires i < |batches|
    ensures batches[..i + 1] == batches[..i] + [batches[i]]
    ensures Files(batches[..i + 1]) == Files(batches[..i]) + [batches[i].csv, batches[i].ledger]
  {
    assert batches[..i + 1][..i] == batches[..i];
  }

  lemma Prefix(batches: seq<Batch>, i: nat)
    requires i < |batches|
    ensures batches[..i + 1] == batches[..i] + [batches[i]]
    ensures Files(batches[..i + 1]) == Files(batches[..i]) + [batches[i].csv, batches[i].ledger]
    ensures Files(batches[..i + 1]) <= Files(batches)
  {
    hide Files;
    OneMore(batches, i);
    assert batches[..i + 1] + batches[i + 1..] == batches;
    FilesConcat(batches[..i + 1], batches[i + 1..]);
  }

  lemma Refused(m: Manifest, files: seq<FileRecord>, b: Batch, i: nat)
    requires i < |m.batches| && b == m.batches[i] && files == Files(m.batches[..i])
    requires b.csv.raw in RawOf(files) || b.ledger.raw in RawOf(files) + {b.csv.raw}
    ensures !Lawful(m)
  {
    Prefix(m.batches, i);
    var all, n := Files(m.batches), |files|;
    assert all[n] == b.csv && all[n + 1] == b.ledger;
    if b.csv.raw in RawOf(files) {
      var k :| 0 <= k < n && files[k].raw == b.csv.raw;
      assert all[k] == files[k];
    } else if b.ledger.raw in RawOf(files) {
      var k :| 0 <= k < n && files[k].raw == b.ledger.raw;
      assert all[k] == files[k];
    }
  }

  lemma NoArtifactClash(batches: seq<Batch>, i: nat)
    requires i < |batches| && forall k | 0 <= k <= i :: BatchOK(batches[k])
    requires var b := batches[i];
             var raw := RawOf(Files(batches[..i])); b.csv.raw !in raw && b.ledger.raw !in raw && b.ledger.raw != b.csv.raw
    ensures var b := batches[i];
            var artifacts := ArtifactsOf(Files(batches[..i]));
            b.csv.artifact !in artifacts && b.ledger.artifact !in artifacts && b.ledger.artifact != b.csv.artifact
  {
    hide Files, BatchOK;
    Prefix(batches, i);
    var b, before, files, n := batches[i], Files(batches[..i]), Files(batches[..i + 1]), 2 * i;
    assert files == before + [b.csv, b.ledger] && files[n] == b.csv && files[n + 1] == b.ledger;
    forall k | 0 <= k < n ensures before[k].artifact != b.csv.artifact && before[k].artifact != b.ledger.artifact {
      assert files[k] == before[k] && before[k].raw in RawOf(before);
      ArtifactFollowsRaw(batches[..i + 1], k, n);
      ArtifactFollowsRaw(batches[..i + 1], k, n + 1);
    }
    ArtifactFollowsRaw(batches[..i + 1], n, n + 1);
  }

  lemma Extended(files: seq<FileRecord>, b: Batch)
    ensures RawOf(files + [b.csv, b.ledger]) == RawOf(files) + {b.csv.raw, b.ledger.raw}
    ensures ArtifactsOf(files + [b.csv, b.ledger]) == ArtifactsOf(files) + {b.csv.artifact, b.ledger.artifact}
    ensures DistinctRaw(files) && b.csv.raw !in RawOf(files) && b.ledger.raw !in RawOf(files) && b.csv.raw != b.ledger.raw
            ==> DistinctRaw(files + [b.csv, b.ledger])
  {
    var files' := files + [b.csv, b.ledger];
    assert files'[|files|] == b.csv && files'[|files| + 1] == b.ledger;
    forall p | p in RawOf(files) + {b.csv.raw, b.ledger.raw} ensures p in RawOf(files') {
      if p in RawOf(files) {
        var k :| 0 <= k < |files| && files[k].raw == p;
        assert files'[k].raw == p;
      }
    }
    forall p | p in ArtifactsOf(files) + {b.csv.artifact, b.ledger.artifact} ensures p in ArtifactsOf(files') {
      if p in ArtifactsOf(files) {
        var k :| 0 <= k < |files| && files[k].artifact == p;
        assert files'[k].artifact == p;
      }
    }
  }

  // ---- a lawful manifest, spelled out ----

  /** What stands between the fixed parts of a batch's file names. */
  predicate Stem(s: string) {
    s != "" && forall c | c in s :: c in CAPITALS || c in LETTERS || c in DIGITS || c in "._-"
  }

  /** A batch named by its stem, at fixed places, with counts that reconcile. */
  predicate BatchShape(b: Batch, stem: string) {
    && Stem(stem)
    && b.csv.raw == ["data", "raw", "historical_odds", "historical_odds_bfo_recovered_" + stem + ".csv"]
    && b.ledger.raw == ["data", "raw", "historical_odds", "historical_odds_bfo_recovered_" + stem + ".provenance.jsonl"]
    && b.csv.artifact == ["batches", "historical_odds_bfo_recovered_" + stem + ".csv"]
    && b.ledger.artifact == ["batches", "historical_odds_bfo_recovered_" + stem + ".provenance.jsonl"]
    && 1 <= b.accepted == b.csv.count && 0 <= b.rejected == b.ledger.count - b.accepted
    && |b.csv.pinned| > 0 && |b.ledger.pinned| > 0
  }

  ghost predicate Shapely(b: Batch) {
    exists stem :: BatchShape(b, stem)
  }

  lemma CharOfName(c: char)
    ensures NameChar(c) <==> c in CAPITALS || c in LETTERS || c in DIGITS || c in "._-"
  {
    Letter(c);
  }

  lemma Parts(p: string, stem: string, end: string)
    ensures var name := p + stem + end;
            && |name| == |p| + |stem| + |end| && name[..|p|] == p && name[|name| - |end|..] == end
            && name[..|name| - |end|] == p + stem && forall i | 0 <= i < |stem| :: name[|p| + i] == stem[i]
  {
  }

  lemma CharsOfName(name: string, stem: string, from: nat)
    requires from + |stem| <= |name| && forall i | 0 <= i < |stem| :: name[from + i] == stem[i]
    ensures (forall i | from <= i < from + |stem| :: NameChar(name[i])) <==> forall c | c in stem :: c in CAPITALS || c in LETTERS || c in DIGITS || c in "._-"
  {
    forall c ensures NameChar(c) <==> c in CAPITALS || c in LETTERS || c in DIGITS || c in "._-" { CharOfName(c); }
    hide NameChar;
    forall i | from <= i < from + |stem| ensures name[i] == stem[i - from] { assert name[from + (i - from)] == stem[i - from]; }
    if forall i | from <= i < from + |stem| :: NameChar(name[i]) {
      forall c | c in stem ensures NameChar(c) {
        var k :| 0 <= k < |stem| && stem[k] == c;
        assert NameChar(name[from + k]);
      }
    }
  }

  lemma NameOfStem(stem: string)
    ensures var name := "historical_odds_bfo_recovered_" + stem + ".csv";
            && (CsvName(name) <==> Stem(stem)) && |name| >= 4
            && LedgerName(name) == "historical_odds_bfo_recovered_" + stem + ".provenance.jsonl"
  {
    hide NameChar;
    var name := CSV_PREFIX + stem + ".csv";
    Parts(CSV_PREFIX, stem, ".csv");
    CharsOfName(name, stem, |CSV_PREFIX|);
  }

  lemma StemOf(name: string) returns (stem: string)
    ensures CsvName(name) ==> name == "historical_odds_bfo_recovered_" + stem + ".csv" && Stem(stem)
  {
    stem := "";
    if CsvName(name) {
      stem := name[|CSV_PREFIX|..|name| - 4];
      assert name == name[..|CSV_PREFIX|] + stem + name[|name| - 4..];
      NameOfStem(stem);
    }
  }

  lemma PathOf(p: Path)
    ensures UnderRaw(p) <==> |p| == 4 && p == ["data", "raw", "historical_odds", p[3]]
  {
    if |p| == 4 { assert p == p[..3] + [p[3]]; }
  }

  /** A lawful batch is one named by a stem. */
  lemma BatchExactly(b: Batch)
    ensures BatchOK(b) <==> Shapely(b)
  {
    hide CsvName, LedgerName, Stem, UnderRaw;
    PathOf(b.csv.raw);
    PathOf(b.ledger.raw);
    forall stem | BatchShape(b, stem) ensures BatchOK(b) { NameOfStem(stem); }
    if BatchOK(b) {
      var stem := StemOf(b.csv.raw[3]);
      NameOfStem(stem);
      assert BatchShape(b, stem);
    }
  }

  /** A manifest is lawful exactly when its batches are named by stems, and no two by the same: then no path of any
      kind is pinned twice. */
  lemma LawfulExactly(m: Manifest)
    ensures Lawful(m) <==> && m.version == 1 && m.header && (forall i | 0 <= i < |m.batches| :: Shapely(m.batches[i]))
                           && forall i, j | 0 <= i < j < |m.batches| :: m.batches[i].csv.raw != m.batches[j].csv.raw
  {
    hide BatchOK, Shapely, Files;
    forall i | 0 <= i < |m.batches| ensures BatchOK(m.batches[i]) <==> Shapely(m.batches[i]) { BatchExactly(m.batches[i]); }
    if forall i | 0 <= i < |m.batches| :: Shapely(m.batches[i]) { DistinctStems(m.batches); }
  }

  lemma DistinctStems(batches: seq<Batch>)
    requires forall i | 0 <= i < |batches| :: Shapely(batches[i])
    ensures DistinctRaw(Files(batches)) <==> forall i, j | 0 <= i < j < |batches| :: batches[i].csv.raw != batches[j].csv.raw
  {
    hide Shapely, Files;
    var files := Files(batches);
    forall i: nat | i < |batches| ensures files[2 * i] == batches[i].csv && files[2 * i + 1] == batches[i].ledger { FilesAt(batches, i); }
    if DistinctRaw(files) {
      forall i: nat, j: nat | i < j < |batches| ensures batches[i].csv.raw != batches[j].csv.raw { assert files[2 * i].raw != files[2 * j].raw; }
    }
    if forall i, j | 0 <= i < j < |batches| :: batches[i].csv.raw != batches[j].csv.raw {
      forall k: nat, l: nat | k < l < |files| ensures files[k].raw != files[l].raw { FilesApart(batches, k, l); }
    }
  }

  lemma FilesApart(batches: seq<Batch>, k: nat, l: nat)
    requires k < l < |Files(batches)| && forall i | 0 <= i < |batches| :: Shapely(batches[i])
    requires forall i, j | 0 <= i < j < |batches| :: batches[i].csv.raw != batches[j].csv.raw
    ensures Files(batches)[k].raw != Files(batches)[l].raw
  {
    hide Shapely, Files;
    var i, j := k / 2, l / 2;
    assert k == 2 * i + k % 2 && l == 2 * j + l % 2;
    FilesAt(batches, i);
    FilesAt(batches, j);
    PathsApart(batches[i], batches[j]);
    PathsApart(batches[j], batches[i]);
  }

  lemma PathsApart(a: Batch, b: Batch)
    requires Shapely(a) && Shapely(b)
    ensures a.csv.raw != b.ledger.raw
    ensures a.ledger.raw == b.ledger.raw ==> a.csv.raw == b.csv.raw
  {
    var s :| BatchShape(a, s);
    var t :| BatchShape(b, t);
    var csv, ledger, ledger' := a.csv.raw[3], a.ledger.raw[3], b.ledger.raw[3];
    assert csv[|csv| - 1] == 'v' && ledger'[|ledger'| - 1] == 'l';
    if ledger == ledger' {
      assert s == ledger[30..|ledger| - 17] && t == ledger'[30..|ledger'| - 17];
    }
  }
}
