/** scripts/bfo_lineage.py and scripts/build_staged_production_bundle.py: checking a lineage package, restoring
    it into a checkout, and the chain of manifests along successive releases. */
module BfoRestore {
  import opened Common
  import opened BfoLineage

  /** The hash of a manifest's canonical text. */
  type Hash = Manifest -> string

  ghost predicate Injective(h: Hash) {
    forall m, m' :: h(m) == h(m') ==> m == m'
  }

  /** Reading a CSV's data rows, and a ledger's lines; None if a line is not a JSON object. */
  datatype Counter = Counter(rows: Bytes -> nat, lines: Bytes -> Option<nat>)

  /** A manifest beside the files it pins. */
  datatype Package = Package(manifest: Manifest, files: map<Path, Bytes>)

  ghost predicate Holds(files: map<Path, Bytes>, f: FileRecord) {
    f.artifact in files && files[f.artifact] == f.pinned
  }

  ghost predicate Counted(c: Counter, b: Batch) {
    c.rows(b.csv.pinned) == b.csv.count && c.lines(b.ledger.pinned).Some? && c.lines(b.ledger.pinned).value == b.ledger.count
  }

  ghost predicate BatchPresent(c: Counter, files: map<Path, Bytes>, b: Batch) {
    && Holds(files, b.csv) && Holds(files, b.ledger)
    && Counted(c, b)
  }

  ghost predicate Genuine(h: Hash, c: Counter, p: Package, expected: Option<string>) {
    && (expected.Some? ==> h(p.manifest) == expected.value)
    && Lawful(p.manifest)
    && forall i | 0 <= i < |p.manifest.batches| :: BatchPresent(c, p.files, p.manifest.batches[i])
  }

  /** A package is genuine exactly when its manifest is lawful and hashes as expected, and every file any batch lists
      is there with its pinned bytes and as many rows or lines as it is listed with. */
  lemma GenuineExactly(h: Hash, c: Counter, p: Package, expected: Option<string>)
    ensures Genuine(h, c, p, expected)
            <==> && (expected == None || expected == Some(h(p.manifest))) && Lawful(p.manifest)
                 && (forall f | f in Files(p.manifest.batches) :: f.artifact in p.files && p.files[f.artifact] == f.pinned)
                 && (forall b | b in p.manifest.batches :: c.rows(b.csv.pinned) == b.csv.count)
                 && (forall b | b in p.manifest.batches ::
                       var lines := c.lines(b.ledger.pinned); lines.Some? && lines.value == b.ledger.count)
  {
    hide Lawful, Files;
    var batches := p.manifest.batches;
    FilesAre(batches);
    if Genuine(h, c, p, expected) {
      forall b | b in batches ensures BatchPresent(c, p.files, b) {
        var i :| 0 <= i < |batches| && batches[i] == b;
      }
    }
    assert forall i | 0 <= i < |batches| :: batches[i] in batches;
  }

  lemma {:induction false} FilesAre(batches: seq<Batch>)
    ensures forall f :: f in Files(batches) <==> exists b :: b in batches && (f == b.csv || f == b.ledger)
  {
    if batches != [] {
      FilesAre(batches[..|batches| - 1]);
      var last := batches[|batches| - 1];
      assert batches == batches[..|batches| - 1] + [last];
      forall f ensures f in Files(batches) <==> f in Files(batches[..|batches| - 1]) || f == last.csv || f == last.ledger {}
    }
  }

  /** `validate_package`. */
  method ValidatePackage(h: Hash, c: Counter, p: Package, expected: Option<string>) returns (ok: bool)
    ensures ok <==> Genuine(h, c, p, expected)
  {
    hide BatchOK, DistinctRaw;
    if expected.Some? && h(p.manifest) != expected.value { return false; }
    var batches := ValidateManifest(p.manifest);
    if batches.None? { return false; }
    for i := 0 to |batches.value|
      invariant forall k | 0 <= k < i :: BatchPresent(c, p.files, batches.value[k])
    {
      var b := batches.value[i];
      ghost var present := BatchPresent(c, p.files, b);
      if b.csv.artifact !in p.files || p.files[b.csv.artifact] != b.csv.pinned { return false; }
      if b.ledger.artifact !in p.files || p.files[b.ledger.artifact] != b.ledger.pinned { return false; }
      if c.rows(p.files[b.csv.artifact]) != b.csv.count { return false; }
      var lines := c.lines(p.files[b.ledger.artifact]);
      if lines.None? || lines.value != b.ledger.count { return false; }
    }
    ok := true;
  }

  // ---- restoring ----

  datatype Node = Plain(bytes: Bytes) | NotAFile

  /** The checkout's tree with the files of the first n records present. */
  function Restored(tree: map<Path, Node>, files: seq<FileRecord>, n: nat): map<Path, Node>
    requires n <= |files|
  {
    if n == 0 then tree else Restored(tree, files, n - 1)[files[n - 1].raw := Plain(files[n - 1].pinned)]
  }

  lemma {:induction false} RestoredAt(tree: map<Path, Node>, files: seq<FileRecord>, n: nat, p: Path)
    requires n <= |files| && DistinctRaw(files)
    ensures var t := Restored(tree, files, n);
            && (p in t <==> p in tree || exists i :: 0 <= i < n && files[i].raw == p)
            && (forall i | 0 <= i < n && files[i].raw == p :: t[p] == Plain(files[i].pinned))
            && (p in tree && (forall i | 0 <= i < n :: files[i].raw != p) ==> t[p] == tree[p])
  {
    if n > 0 { RestoredAt(tree, files, n - 1, p); }
  }

  lemma {:induction false} RestoredKeeps(tree: map<Path, Node>, files: seq<FileRecord>, n: nat)
    requires n <= |files|
    requires forall i | 0 <= i < n && files[i].raw in tree :: tree[files[i].raw] == Plain(files[i].pinned)
    requires DistinctRaw(files)
    ensures forall p | p in tree :: p in Restored(tree, files, n) && Restored(tree, files, n)[p] == tree[p]
  {
    if n > 0 { RestoredKeeps(tree, files, n - 1); }
  }

  ghost predicate PinnedAs(files: seq<FileRecord>, q: Path, node: Node) {
    exists i :: 0 <= i < |files| && files[i].raw == q && node == Plain(files[i].pinned)
  }

  /** A repository checkout whose tree the restore writes into. */
  class Checkout {
    var tree: map<Path, Node>

    constructor (tree: map<Path, Node>)
      ensures this.tree == tree
    {
      this.tree := tree;
    }

    /** `restore_package`: one destination at a time, never replacing anything. */
    method Restore(h: Hash, c: Counter, p: Package, expected: string) returns (restored: Option<seq<Path>>)
      modifies this
      // Whatever happens, nothing that was there changes, and nothing is added but pinned files.
      ensures forall q | q in old(tree) :: q in tree && tree[q] == old(tree)[q]
      ensures forall q | q in tree && q !in old(tree) ::
                Genuine(h, c, p, Some(expected)) && exists f :: f in Files(p.manifest.batches) && f.raw == q && tree[q] == Plain(f.pinned)
      ensures restored.Some? <==> Genuine(h, c, p, Some(expected))
                                  && forall f | f in Files(p.manifest.batches) && f.raw in old(tree) :: old(tree)[f.raw] == Plain(f.pinned)
      ensures restored.Some? ==> tree == Restored(old(tree), Files(p.manifest.batches), |Files(p.manifest.batches)|)
      ensures restored.Some? ==> Everything(tree, p.manifest.batches)
      ensures restored.Some? ==> |restored.value| == |Files(p.manifest.batches)|
                                 && forall i | 0 <= i < |restored.value| :: restored.value[i] == Files(p.manifest.batches)[i].raw
    {
      hide BatchOK, Files, Restored;
      var ok := ValidatePackage(h, c, p, Some(expected));
      if !ok { return None; }
      var files := Files(p.manifest.batches);
      ghost var was := tree;
      assert Restored(was, files, 0) == was by { NothingRestored(was, files); }
      var done: seq<Path> := [];
      for i := 0 to |files|
        invariant tree == Restored(was, files, i)
        invariant |done| == i && forall k | 0 <= k < i :: done[k] == files[k].raw
        invariant forall k | 0 <= k < i && files[k].raw in was :: was[files[k].raw] == Plain(files[k].pinned)
      {
        var f := files[i];
        RestoredAt(was, files, i, f.raw);
        RestoreOne(was, files, i);
        if f.raw in tree {
          if tree[f.raw] != Plain(f.pinned) {
            RestoredSoFar(was, files, i);
            return None;
          }
        } else {
          SourceHolds(c, p, i);
          tree := tree[f.raw := Plain(p.files[f.artifact])];
        }
        done := done + [f.raw];
      }
      RestoredSoFar(was, files, |files|);
      AllRestored(was, p.manifest.batches);
      restored := Some(done);
    }

    /** Restoring what is restored succeeds and changes nothing. */
    method RestoreTwice(h: Hash, c: Counter, p: Package, expected: string)
      returns (first: Option<seq<Path>>, second: Option<seq<Path>>, ghost between: map<Path, Node>)
      modifies this
      ensures first.Some? ==> second == first && tree == between
    {
      hide BatchOK, Files, Restored, Everything;
      first := Restore(h, c, p, expected);
      between := tree;
      second := Restore(h, c, p, expected);
      if first.Some? {
        EverythingNoConflict(between, p.manifest.batches);
        NoConflictIdle(between, p.manifest.batches);
        assert second.value == first.value;
      }
    }
  }

  /** Every file of every batch is there with its pinned bytes. */
  ghost predicate Everything(tree: map<Path, Node>, batches: seq<Batch>) {
    forall i | 0 <= i < |batches| ::
      && batches[i].csv.raw in tree && tree[batches[i].csv.raw] == Plain(batches[i].csv.pinned)
      && batches[i].ledger.raw in tree && tree[batches[i].ledger.raw] == Plain(batches[i].ledger.pinned)
  }

  lemma NothingRestored(tree: map<Path, Node>, files: seq<FileRecord>)
    ensures Restored(tree, files, 0) == tree
  {
  }

  lemma RestoreOne(tree: map<Path, Node>, files: seq<FileRecord>, n: nat)
    requires n < |files|
    ensures Restored(tree, files, n + 1) == Restored(tree, files, n)[files[n].raw := Plain(files[n].pinned)]
  {
  }

  lemma SourceHolds(c: Counter, p: Package, i: nat)
    requires i < |Files(p.manifest.batches)|
    requires forall k | 0 <= k < |p.manifest.batches| :: BatchPresent(c, p.files, p.manifest.batches[k])
    ensures Holds(p.files, Files(p.manifest.batches)[i])
  {
    hide Files, Holds, Counted;
    FilesAt(p.manifest.batches, i / 2);
    assert BatchPresent(c, p.files, p.manifest.batches[i / 2]);
    assert i == 2 * (i / 2) || i == 2 * (i / 2) + 1;
  }

  lemma RestoredSoFar(tree: map<Path, Node>, files: seq<FileRecord>, n: nat)
    requires n <= |files| && DistinctRaw(files)
    requires forall i | 0 <= i < n && files[i].raw in tree :: tree[files[i].raw] == Plain(files[i].pinned)
    ensures var t := Restored(tree, files, n);
            && (forall q | q in tree :: q in t && t[q] == tree[q])
            && (forall q | q in t && q !in tree :: PinnedAs(files, q, t[q]))
  {
    hide Restored;
    RestoredKeeps(tree, files, n);
    forall q | q in Restored(tree, files, n) && q !in tree
      ensures PinnedAs(files, q, Restored(tree, files, n)[q])
    {
      RestoredAt(tree, files, n, q);
    }
  }

  lemma AllRestored(tree: map<Path, Node>, batches: seq<Batch>)
    requires DistinctRaw(Files(batches))
    ensures Everything(Restored(tree, Files(batches), |Files(batches)|), batches)
  {
    hide Files, Restored;
    forall i: nat | i < |batches|
      ensures var t := Restored(tree, Files(batches), |Files(batches)|);
              && batches[i].csv.raw in t && t[batches[i].csv.raw] == Plain(batches[i].csv.pinned)
              && batches[i].ledger.raw in t && t[batches[i].ledger.raw] == Plain(batches[i].ledger.pinned)
    {
      FilesAt(batches, i);
      RestoredAt(tree, Files(batches), |Files(batches)|, batches[i].csv.raw);
      RestoredAt(tree, Files(batches), |Files(batches)|, batches[i].ledger.raw);
    }
  }

  lemma EverythingNoConflict(tree: map<Path, Node>, batches: seq<Batch>)
    requires Everything(tree, batches)
    ensures forall i | 0 <= i < |Files(batches)| :: Files(batches)[i].raw in tree && tree[Files(batches)[i].raw] == Plain(Files(batches)[i].pinned)
  {
    hide Files;
    forall i: nat | i < |Files(batches)|
      ensures Files(batches)[i].raw in tree && tree[Files(batches)[i].raw] == Plain(Files(batches)[i].pinned)
    {
      FilesAt(batches, i / 2);
      assert i == 2 * (i / 2) || i == 2 * (i / 2) + 1;
    }
  }

  lemma NoConflictIdle(tree: map<Path, Node>, batches: seq<Batch>)
    requires forall i | 0 <= i < |Files(batches)| :: Files(batches)[i].raw in tree && tree[Files(batches)[i].raw] == Plain(Files(batches)[i].pinned)
    ensures Restored(tree, Files(batches), |Files(batches)|) == tree
  {
    hide Files;
    RestoredIdle(tree, Files(batches), |Files(batches)|);
  }

  lemma {:induction false} RestoredIdle(tree: map<Path, Node>, files: seq<FileRecord>, n: nat)
    requires n <= |files| && forall i | 0 <= i < n :: files[i].raw in tree && tree[files[i].raw] == Plain(files[i].pinned)
    ensures Restored(tree, files, n) == tree
  {
    if n > 0 { RestoredIdle(tree, files, n - 1); }
  }

  // ---- successive releases ----

  /** What the active release's readiness says. */
  datatype Ready = Ready(bundle: string, source: string, lineage: Option<string>)

  /** What the next release is built on. */
  datatype Previous = Previous(bundle: string, source: string, lineage: Option<string>, batches: seq<Batch>)

  ghost predicate InPlace(tree: map<Path, Node>, inventory: map<Path, Bytes>, f: FileRecord) {
    && f.raw in tree && tree[f.raw] == Plain(f.pinned)
    && f.raw in inventory && inventory[f.raw] == f.pinned
  }

  ghost predicate AllInPlace(tree: map<Path, Node>, inventory: map<Path, Bytes>, batches: seq<Batch>) {
    forall i | 0 <= i < |batches| :: InPlace(tree, inventory, batches[i].csv) && InPlace(tree, inventory, batches[i].ledger)
  }

  /** Every file any batch lists is restored, and inventoried with the same bytes. */
  lemma InPlaceExactly(tree: map<Path, Node>, inventory: map<Path, Bytes>, batches: seq<Batch>)
    ensures AllInPlace(tree, inventory, batches)
            <==> forall f | f in Files(batches) :: f.raw in tree && tree[f.raw] == Plain(f.pinned) && f.raw in inventory && inventory[f.raw] == f.pinned
  {
    hide Files;
    FilesAre(batches);
    if AllInPlace(tree, inventory, batches) {
      forall f | f in Files(batches) ensures InPlace(tree, inventory, f) {
        var b :| b in batches && (f == b.csv || f == b.ledger);
        var i :| 0 <= i < |batches| && batches[i] == b;
      }
    }
    assert forall i | 0 <= i < |batches| :: batches[i] in batches;
  }

  /** `_validate_previous_scheduled_bfo_lineage`: the policy root starts an empty list, any other parent brings
      the package its readiness names, restored and inventoried. */
  method ValidatePrevious(h: Hash, c: Counter, ready: Ready, root: string, package: Option<Package>,
                          tree: map<Path, Node>, inventory: map<Path, Bytes>)
    returns (r: Option<Previous>)
    ensures r.Some? <==>
              if ready.lineage.None? then ready.source == root && package.None?
              else package.Some? && Genuine(h, c, package.value, ready.lineage)
                   && AllInPlace(tree, inventory, package.value.manifest.batches)
    ensures r.Some? ==> r.value == Previous(ready.bundle, ready.source, ready.lineage,
                                           if ready.lineage.None? then [] else package.value.manifest.batches)
  {
    hide BatchOK, Lawful;
    if ready.lineage.None? {
      if ready.source != root || package.Some? { return None; }
      return Some(Previous(ready.bundle, ready.source, None, []));
    }
    if package.None? { return None; }
    var ok := ValidatePackage(h, c, package.value, ready.lineage);
    if !ok { return None; }
    var batches := package.value.manifest.batches;
    for i := 0 to |batches|
      invariant forall k | 0 <= k < i :: InPlace(tree, inventory, batches[k].csv) && InPlace(tree, inventory, batches[k].ledger)
    {
      var a, b := batches[i].csv, batches[i].ledger;
      if a.raw !in tree || tree[a.raw] != Plain(a.pinned) || a.raw !in inventory || inventory[a.raw] != a.pinned { return None; }
      if b.raw !in tree || tree[b.raw] != Plain(b.pinned) || b.raw !in inventory || inventory[b.raw] != b.pinned { return None; }
    }
    r := Some(Previous(ready.bundle, ready.source, ready.lineage, batches));
  }

  /** `_next_scheduled_bfo_lineage`, the current batch already derived. */
  method NextLineage(previous: Previous, header: bool, current: Option<Batch>) returns (r: Option<Manifest>)
    ensures var batches := previous.batches + if current.Some? then [current.value] else [];
            var m := Manifest(1, header, previous.bundle, previous.source, previous.lineage, batches);
            r == if Lawful(m) then Some(m) else None
  {
    hide BatchOK, DistinctRaw;
    var batches := previous.batches;
    if current.Some? { batches := batches + [current.value]; }
    assert batches == previous.batches + if current.Some? then [current.value] else [];
    var m := Manifest(1, header, previous.bundle, previous.source, previous.lineage, batches);
    var ok := ValidateManifest(m);
    r := if ok.Some? then Some(m) else None;
  }

  /** Manifest b comes right after a: it names a by its hash and adds at most one batch to a's list. */
  ghost predicate Links(h: Hash, a: Manifest, b: Manifest) {
    b.previous == Some(h(a)) && a.batches <= b.batches && |b.batches| <= |a.batches| + 1
  }

  /** The manifests of successive scheduled releases, from the first one after the policy root. */
  ghost predicate Chain(h: Hash, ms: seq<Manifest>) {
    && ms != [] && ms[0].previous.None? && |ms[0].batches| <= 1
    && (forall i | 0 <= i < |ms| :: Lawful(ms[i]))
    && (forall i | 0 <= i < |ms| - 1 :: Links(h, ms[i], ms[i + 1]))
  }

  /** Whatever package the active release's identity accepts, the next manifest extends the chain. */
  method Release(h: Hash, c: Counter, ms: seq<Manifest>, ready: Ready, root: string, package: Option<Package>,
                 tree: map<Path, Node>, inventory: map<Path, Bytes>, header: bool, current: Option<Batch>)
    returns (next: Option<Manifest>)
    requires Injective(h) && (ms == [] || Chain(h, ms))
    requires ready.lineage == if ms == [] then None else Some(h(ms[|ms| - 1]))
    ensures next.Some? ==> Chain(h, ms + [next.value]) && Lawful(next.value)
    ensures next.Some? && ms == [] ==> next.value.previous == None && next.value.batches == (if current.Some? then [current.value] else [])
    ensures next.Some? && ms != [] ==>
              && next.value.previous == Some(h(ms[|ms| - 1]))
              && next.value.batches == ms[|ms| - 1].batches + if current.Some? then [current.value] else []
    ensures next.Some? && current.Some? ==> next.value.batches != [] && next.value.batches[|next.value.batches| - 1] == current.value
  {
    hide Lawful;
    var previous := ValidatePrevious(h, c, ready, root, package, tree, inventory);
    if previous.None? { return None; }
    next := NextLineage(previous.value, header, current);
    if next.Some? {
      var longer := ms + [next.value];
      if ms != [] { assert package.value.manifest == ms[|ms| - 1]; }
      forall i | 0 <= i < |longer| - 1 ensures Links(h, longer[i], longer[i + 1]) {
        if i < |ms| - 1 { assert Links(h, ms[i], ms[i + 1]); }
      }
    }
  }

  /** Along a chain no batch is ever dropped or changed. */
  lemma {:induction false} HistoryIsPrefix(h: Hash, ms: seq<Manifest>, i: nat, j: nat)
    requires Chain(h, ms) && i <= j < |ms|
    ensures ms[i].batches <= ms[j].batches && |ms[j].batches| <= |ms[i].batches| + (j - i)
    decreases j
  {
    hide Lawful;
    if i < j {
      HistoryIsPrefix(h, ms, i, j - 1);
      assert Links(h, ms[j - 1], ms[j - 1 + 1]);
    }
  }

  /** The n-th release has at most n batches. */
  lemma OneBatchARelease(h: Hash, ms: seq<Manifest>, j: nat)
    requires Chain(h, ms) && j < |ms|
    ensures |ms[j].batches| <= j + 1
  {
    hide Lawful, Links;
    HistoryIsPrefix(h, ms, 0, j);
  }

  /** The last manifest's hash fixes every manifest before it. */
  lemma {:induction false} TipFixesHistory(h: Hash, ms: seq<Manifest>, ms': seq<Manifest>)
    requires Injective(h) && Chain(h, ms) && Chain(h, ms')
    requires h(ms[|ms| - 1]) == h(ms'[|ms'| - 1])
    ensures ms == ms'
    decreases |ms|
  {
    hide Lawful, Links;
    var n, n' := |ms| - 1, |ms'| - 1;
    assert ms[n] == ms'[n'];
    if n > 0 { LinkBack(h, ms); }
    if n' > 0 { LinkBack(h, ms'); }
    if n > 0 && n' > 0 {
      TipFixesHistory(h, ms[..n], ms'[..n']);
      assert ms == ms[..n] + [ms[n]] && ms' == ms'[..n'] + [ms'[n']];
    } else if n == 0 && n' == 0 {
      assert ms == [ms[0]] && ms' == [ms'[0]];
    }
  }

  lemma LinkBack(h: Hash, ms: seq<Manifest>)
    requires Chain(h, ms) && |ms| > 1
    ensures Chain(h, ms[..|ms| - 1]) && ms[|ms| - 1].previous == Some(h(ms[|ms| - 2]))
  {
    hide Lawful;
    var n := |ms| - 1;
    assert Links(h, ms[n - 1], ms[n - 1 + 1]);
    forall i | 0 <= i < n - 1 ensures Links(h, ms[..n][i], ms[..n][i + 1]) {
      assert Links(h, ms[i], ms[i + 1]);
    }
  }

  /** Restoring the tip's package restores every batch any release of the chain ever listed, byte for byte. */
  lemma TipRestoresHistory(h: Hash, ms: seq<Manifest>, i: nat, tree: map<Path, Node>)
    requires Chain(h, ms) && i < |ms| && Everything(tree, ms[|ms| - 1].batches)
    ensures Everything(tree, ms[i].batches)
  {
    hide Lawful, Links;
    HistoryIsPrefix(h, ms, i, |ms| - 1);
    assert forall k | 0 <= k < |ms[i].batches| :: ms[i].batches[k] == ms[|ms| - 1].batches[k];
  }
}
