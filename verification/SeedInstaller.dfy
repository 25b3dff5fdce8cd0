/** scripts/install_incremental_seed.py: copying a pinned seed into a target directory once, resuming after
    the process was killed between any two changes to the file system or in the middle of a write. */
module SeedInstaller {
  import opened Common

  /** A path below the target, by its components; [] is the target itself. */
  type Path = seq<string>

  /** Record is a marker file: complete JSON naming a seed by the hash of its manifest. */
  datatype Node = File(bytes: Bytes) | Record(seed: Inventory) | Directory

  /** One manifest entry: its text, the path the text parses to, whether the text passes the syntactic
      checks, and the pinned contents. */
  datatype Item = Item(text: string, path: Path, safe: bool, pinned: Bytes)

  /** A seed manifest; `valid` is the schema check. */
  datatype Inventory = Inventory(valid: bool, items: seq<Item>)

  type Tree = map<Path, Node>

  const PENDING := ".seed-install.json"
  const INSTALLED := ".seed-installed.json"

  datatype Status = Done | Raised | Killed
  datatype Outcome = ExistingState | NoSeed | Installed | Failed | Interrupted

  predicate StartsWith(s: string, t: string) {
    |t| <= |s| && s[..|t|] == t
  }

  predicate EndsWith(s: string, t: string) {
    |t| <= |s| && s[|s| - |t|..] == t
  }

  function TempName(marker: string, nonce: string): string {
    marker + "." + nonce + ".pending"
  }

  predicate IsTempOf(marker: string, name: string) {
    StartsWith(name, marker + ".") && EndsWith(name, ".pending")
  }

  predicate Reserved(name: string) {
    name == PENDING || name == INSTALLED || IsTempOf(PENDING, name) || IsTempOf(INSTALLED, name)
  }

  /** The `.seed-copy` temporary of a destination. */
  function CopyTemp(path: Path): Path
    requires path != []
  {
    Up(path) + [path[|path| - 1] + ".seed-copy"]
  }

  lemma CopyTempName(path: Path)
    requires path != []
    ensures var t := CopyTemp(path);
            && |t| == |path| && t != path && Up(t) == Up(path)
            && EndsWith(t[|t| - 1], ".seed-copy") && t[|t| - 1] != PENDING && t[|t| - 1] != INSTALLED && !Reserved(t[|t| - 1])
  {
    var t := CopyTemp(path);
    var name := t[|t| - 1];
    assert |name| == |path[|path| - 1]| + 10;
    assert name[|name| - 1] == 'y';
    assert PENDING[|PENDING| - 1] == 'n' && INSTALLED[|INSTALLED| - 1] == 'n';
    assert name[|name| - 8..][7] == 'y';
  }

  predicate IsFile(fs: Tree, path: Path) {
    path in fs && !fs[path].Directory?
  }

  predicate Ancestor(a: Path, path: Path) {
    |a| < |path| && path[..|a|] == a
  }

  function Up(path: Path): Path
    requires path != []
  {
    path[..|path| - 1]
  }

  /** Every entry lies in a directory. */
  predicate WellFormed(fs: Tree) {
    && ([] in fs ==> fs[[]].Directory?)
    && forall q: Path {:trigger Up(q)} | q in fs && q != [] :: Up(q) in fs && fs[Up(q)].Directory?
  }

  lemma {:induction false} AncestorsAreDirectories(fs: Tree, path: Path, k: nat)
    requires WellFormed(fs) && path in fs && k < |path|
    ensures path[..k] in fs && fs[path[..k]].Directory?
    decreases |path|
  {
    var up := Up(path);
    if k < |up| {
      AncestorsAreDirectories(fs, up, k);
      assert up[..k] == path[..k];
    }
  }

  /** The number of leading components of path that exist below the target (the target itself is counted
      apart, so -1 means not even the target exists). */
  function Existing(fs: Tree, path: Path, k: int): (d: int)
    requires -1 <= k <= |path|
    ensures -1 <= d <= k
    ensures d >= 0 ==> path[..d] in fs
    ensures forall m | d < m <= k :: path[..m] !in fs
  {
    if k < 0 || path[..k] in fs then k else Existing(fs, path, k - 1)
  }

  /** `make_directory` cannot make the path: its deepest existing ancestor is a file. */
  predicate Blocked(fs: Tree, path: Path) {
    var d := Existing(fs, path, |path|);
    0 <= d < |path| && !fs[path[..d]].Directory?
  }

  /** The tree with directories at the leading parts of path of lengths a up to b. */
  function WithDirs(fs: Tree, path: Path, a: nat, b: nat): Tree
    requires a <= b <= |path| + 1
  {
    if a == b then fs else WithDirs(fs, path, a, b - 1)[path[..b - 1] := Directory]
  }

  ghost predicate PartlyMade(fs: Tree, fs': Tree, path: Path, a: nat) {
    exists m :: a <= m <= |path| + 1 && fs' == WithDirs(fs, path, a, m)
  }

  lemma {:induction false} WithDirsAt(fs: Tree, path: Path, a: nat, b: nat, q: Path)
    requires a <= b <= |path| + 1
    ensures var made := a <= |q| < b && path[..|q|] == q;
            && (q in WithDirs(fs, path, a, b) <==> q in fs || made)
            && (made ==> WithDirs(fs, path, a, b)[q] == Directory)
            && (!made && q in fs ==> WithDirs(fs, path, a, b)[q] == fs[q])
  {
    if a < b { WithDirsAt(fs, path, a, b - 1, q); }
  }

  /** Exactly when installing one item raises, once its text has passed. */
  predicate ItemRaises(fs: Tree, seed: map<Path, Bytes>, item: Item)
    requires item.path != []
  {
    || item.path !in seed || seed[item.path] != item.pinned
    || (item.path in fs && fs[item.path] != File(item.pinned))
    || (item.path !in fs &&
        (Blocked(fs, Up(item.path))
         || (Up(item.path) in fs && !fs[Up(item.path)].Directory?)
         || (CopyTemp(item.path) in fs && fs[CopyTemp(item.path)].Directory?)))
  }

  /** Making a directory fails exactly where the path is not there and a file stands above it. */
  lemma BlockedExactly(fs: Tree, path: Path)
    requires WellFormed(fs)
    ensures Blocked(fs, path) <==> path !in fs && exists k :: 0 <= k < |path| && path[..k] in fs && fs[path[..k]] != Directory
  {
    var d := Existing(fs, path, |path|);
    assert path[..|path|] == path;
    if path !in fs {
      forall k | 0 <= k < |path| && path[..k] in fs && fs[path[..k]] != Directory ensures k == d {
        if k < d {
          assert path[..d][..k] == path[..k];
          AncestorsAreDirectories(fs, path[..d], k);
        }
      }
    }
  }

  /** One file's turn raises exactly if the seed does not hold what is pinned, the destination holds something else,
      or it is missing and a file stands above it or a directory at its temporary. */
  lemma RaisesExactly(fs: Tree, seed: map<Path, Bytes>, item: Item)
    requires WellFormed(fs) && item.path != []
    ensures ItemRaises(fs, seed, item)
            <==> || !(item.path in seed && seed[item.path] == item.pinned)
                 || (if item.path in fs then fs[item.path] != File(item.pinned)
                     else || (exists k :: 0 <= k < |item.path| && item.path[..k] in fs && fs[item.path[..k]] != Directory)
                          || (CopyTemp(item.path) in fs && fs[CopyTemp(item.path)] == Directory))
  {
    hide Blocked;
    var p := item.path;
    BlockedExactly(fs, Up(p));
    assert Up(p) == p[..|p| - 1] && forall k | 0 <= k < |p| :: p[..k] == (if k < |p| - 1 then Up(p)[..k] else Up(p));
    if Up(p) in fs {
      forall k | 0 <= k < |p| - 1 && p[..k] in fs ensures fs[p[..k]] == Directory { AncestorsAreDirectories(fs, Up(p), k); }
    }
  }

  /** What `make_directory` does, stopped anywhere: it adds directories at missing ancestors and at the path. */
  lemma DirsOnly(fs: Tree, path: Path, m: nat)
    requires Existing(fs, path, |path|) < m <= |path| + 1
    ensures var fs' := WithDirs(fs, path, Existing(fs, path, |path|) + 1, m);
            && (forall q | q in fs :: q in fs' && fs'[q] == fs[q])
            && (forall q | q in fs' && q !in fs :: fs'[q] == Directory && (q == path || Ancestor(q, path)))
            && (path in fs ==> fs' == fs)
            && (m == |path| + 1 ==> path in fs')
  {
    var d := Existing(fs, path, |path|);
    forall q ensures var fs' := WithDirs(fs, path, d + 1, m);
                     && (q in fs ==> q in fs' && fs'[q] == fs[q])
                     && (q in fs' && q !in fs ==> fs'[q] == Directory && (q == path || Ancestor(q, path)))
    {
      WithDirsAt(fs, path, d + 1, m, q);
      assert d + 1 <= |q| < m ==> path[..|q|] !in fs;
    }
    WithDirsAt(fs, path, d + 1, m, path);
    assert path[..|path|] == path;
  }

  /** What processing one item may have done, wherever it stopped: only the missing ancestors, the item's
      own temporary and its destination change, and the destination only from nothing to the pinned file. */
  ghost predicate ItemStep(fs: Tree, fs': Tree, item: Item, s: Status)
    requires item.path != []
  {
    var p, t := item.path, CopyTemp(item.path);
    && (p in fs ==> fs' == fs)
    && (forall q | q in fs && q != t :: q in fs' && fs'[q] == fs[q])
    && (forall q | q in fs' && q !in fs ::
          (q == p && fs'[q] == File(item.pinned)) || (q == t && fs'[q].File?) || (Ancestor(q, p) && fs'[q] == Directory))
    && (t in fs && t in fs' && fs'[t] != fs[t] ==> fs[t] != Directory && fs'[t].File?)
    && (t in fs && t !in fs' ==> fs[t] != Directory && p in fs')
    && (p in fs' && p !in fs ==> t !in fs')
    && (s.Raised? ==> fs' == fs)
    && (s.Done? ==> p in fs' && fs'[p] == File(item.pinned))
  }

  /** `CopyItem`'s effect after the missing directories are there is an item step. */
  lemma CopyIsItemStep(fs: Tree, mid: Tree, fs': Tree, item: Item, s: Status)
    requires item.path != [] && item.path !in mid && WellFormed(fs) && Up(item.path) in mid
    requires forall q | q in fs :: q in mid && mid[q] == fs[q]
    requires forall q | q in mid && q !in fs :: mid[q] == Directory && (q == Up(item.path) || Ancestor(q, Up(item.path)))
    requires Up(item.path) in fs ==> mid == fs
    requires s.Raised? ==> fs' == mid
                           && (!mid[Up(item.path)].Directory?
                               || (CopyTemp(item.path) in mid && mid[CopyTemp(item.path)].Directory?))
    requires s.Done? ==> fs' == (mid - {CopyTemp(item.path)})[item.path := File(item.pinned)]
                         && (CopyTemp(item.path) in mid ==> !mid[CopyTemp(item.path)].Directory?)
    requires s.Killed? ==> fs' == mid || (exists part :: fs' == mid[CopyTemp(item.path) := File(part)])
    requires s.Killed? && fs' != mid && CopyTemp(item.path) in mid ==> !mid[CopyTemp(item.path)].Directory?
    ensures ItemStep(fs, fs', item, s)
  {
    CopyTempName(item.path);
    assert Up(CopyTemp(item.path)) == Up(item.path);
  }

  // ---- what the installer decides before it copies ----

  datatype Decision = Stop(outcome: Outcome) | Mark | Resume

  predicate FirstMarkerPartials(fs: Tree) {
    forall q | q in fs && |q| == 1 :: !fs[q].Directory? && IsTempOf(PENDING, q[0])
  }

  predicate SchemaOK(seed: Inventory) {
    seed.valid && seed.items != []
  }

  predicate InUse(fs: Tree) {
    IsFile(fs, ["service.json"]) || IsFile(fs, ["data", "accepted.json"]) || IsFile(fs, ["data", "active.json"])
  }

  function Decide(fs: Tree, manifest: Option<Inventory>): (d: Decision)
    ensures d.Stop? ==> d.outcome in {ExistingState, NoSeed, Failed}
  {
    if IsFile(fs, [INSTALLED]) then Stop(ExistingState)
    else if manifest.None? then
      if exists q | q in fs :: |q| == 1 then Stop(ExistingState) else Stop(NoSeed)
    else if !SchemaOK(manifest.value) then Stop(Failed)
    else if IsFile(fs, [PENDING]) then
      if fs[[PENDING]] == Record(manifest.value) then Resume else Stop(Failed)
    else if FirstMarkerPartials(fs) then Mark
    else if InUse(fs) then Stop(ExistingState)
    else Stop(Failed)
  }

  function Rooted(fs: Tree): Tree {
    if [] in fs then fs else fs[[] := Directory]
  }

  ghost predicate FileAt(fs: Tree, path: Path) {
    path in fs && (fs[path].File? || fs[path].Record?)
  }

  ghost predicate UsedAlready(fs: Tree) {
    FileAt(fs, ["service.json"]) || FileAt(fs, ["data", "accepted.json"]) || FileAt(fs, ["data", "active.json"])
  }

  /** A top-level entry that no kill before the first marker can have left. */
  ghost predicate Foreign(fs: Tree, q: Path)
    requires q in fs && |q| == 1
  {
    var name := q[0];
    || fs[q].Directory? || |name| < 19 || name[..19] != ".seed-install.json." || name[|name| - 8..] != ".pending"
  }

  /** The run comes to the outcome, unless it is killed, and leaves the target alone but for its root. */
  ghost predicate Answers(was: Tree, now: Tree, r: Outcome, outcome: Outcome) {
    (now == was || now == Rooted(was)) && (r == outcome || r.Interrupted?)
  }

  lemma DecidesAlone(fs: Tree, manifest: Option<Inventory>)
    ensures var d := Decide(Rooted(fs), manifest);
            && (FileAt(fs, [".seed-installed.json"]) ==> d == Stop(ExistingState))
            && (!FileAt(fs, [".seed-installed.json"]) && manifest.None? ==> d == Stop(if exists q | q in fs :: |q| == 1 then ExistingState else NoSeed))
            && (!FileAt(fs, [".seed-installed.json"]) && manifest.Some? ==>
                 if !manifest.value.valid || manifest.value.items == [] then d == Stop(Failed)
                 else if FileAt(fs, [".seed-install.json"]) then (d == if fs[[".seed-install.json"]] == Record(manifest.value) then Resume else Stop(Failed))
                 else if exists q | q in fs && |q| == 1 :: Foreign(fs, q) then d == Stop(if UsedAlready(fs) then ExistingState else Failed)
                 else d == Mark)
  {
    hide Foreign, IsTempOf, FirstMarkerPartials, InUse, UsedAlready;
    var rooted := Rooted(fs);
    assert forall q | |q| > 0 :: q in rooted <==> q in fs && rooted[q] == fs[q];
    UsedIsInUse(fs);
    PartialsAlone(fs);
  }

  lemma UsedIsInUse(fs: Tree)
    ensures InUse(Rooted(fs)) <==> UsedAlready(fs)
  {
  }

  lemma PartialsAlone(fs: Tree)
    ensures FirstMarkerPartials(Rooted(fs)) <==> forall q | q in fs && |q| == 1 :: !Foreign(fs, q)
  {
    var rooted := Rooted(fs);
    assert forall q | |q| > 0 :: q in rooted <==> q in fs;
    assert PENDING + "." == ".seed-install.json.";
    forall q | q in fs && |q| == 1 ensures Foreign(fs, q) <==> rooted[q].Directory? || !IsTempOf(PENDING, q[0]) {}
  }

  // ---- which seeds, and which states ----

  /** What the code takes for granted of a manifest besides its syntactic checks: no path at or under a
      marker or a marker temporary, no path twice, none above another. */
  ghost predicate Standing(items: seq<Item>) {
    && (forall i | 0 <= i < |items| :: items[i].safe && items[i].path != [] && !Reserved(items[i].path[0]))
    && (forall i, j | 0 <= i < |items| && 0 <= j < |items| && i != j :: items[i].text != items[j].text && !(items[i].path <= items[j].path))
  }

  /** No file lies at or under the temporary of a file listed after it. */
  ghost predicate TempOrder(items: seq<Item>)
    requires forall i | 0 <= i < |items| :: items[i].path != []
  {
    forall i, j | 0 <= i < j < |items| ::
      !(Up(items[j].path) + [items[j].path[|items[j].path| - 1] + ".seed-copy"] <= items[i].path)
  }

  ghost predicate Sound(items: seq<Item>) {
    Standing(items) && TempOrder(items)
  }

  ghost predicate SourcesMatch(seed: map<Path, Bytes>, items: seq<Item>) {
    forall i | 0 <= i < |items| :: items[i].path in seed && seed[items[i].path] == items[i].pinned
  }

  /** What the copy loop has checked of the first k files: their paths are safe and their texts all different, and
      the seed holds the pinned contents. */
  ghost predicate Checked(seed: map<Path, Bytes>, items: seq<Item>, k: nat) {
    && (forall i | 0 <= i < k && i < |items| :: items[i].safe && items[i].path in seed && seed[items[i].path] == items[i].pinned)
    && (forall i, j | 0 <= i < j < k && j < |items| :: items[i].text != items[j].text)
  }

  ghost predicate InstalledUpTo(fs: Tree, items: seq<Item>, k: nat) {
    forall i | 0 <= i < k && i < |items| :: items[i].path in fs && fs[items[i].path] == File(items[i].pinned)
  }

  ghost predicate AllInstalled(fs: Tree, items: seq<Item>) {
    InstalledUpTo(fs, items, |items|)
  }

  /** The files before k are installed; those from k on are missing, save that k's own temporary may stand
      at or above one of them; no temporary is a directory. */
  ghost predicate Frontier(fs: Tree, items: seq<Item>, k: nat)
    requires forall i | 0 <= i < |items| :: items[i].path != []
  {
    && k <= |items|
    && InstalledUpTo(fs, items, k)
    && (forall i | k <= i < |items| && items[i].path in fs :: items[i].path == CopyTemp(items[k].path) && fs[items[i].path].File?)
    && (forall i, a | k <= i < |items| && Ancestor(a, items[i].path) && a in fs ::
          fs[a] == Directory || (a == CopyTemp(items[k].path) && fs[a].File?))
    && (forall j | k <= j < |items| && CopyTemp(items[j].path) in fs :: fs[CopyTemp(items[j].path)].File?)
  }

  /** Nothing but temporaries of the first marker. */
  ghost predicate Virgin(fs: Tree) {
    forall q | q in fs :: q == [] || (|q| == 1 && IsTempOf(PENDING, q[0]) && !fs[q].Directory?)
  }

  ghost predicate Copying(fs: Tree, seed: Inventory)
    requires forall i | 0 <= i < |seed.items| :: seed.items[i].path != []
  {
    && [PENDING] in fs && fs[[PENDING]] == Record(seed)
    && [INSTALLED] !in fs
    && (forall q | q in fs && |q| == 1 && Reserved(q[0]) :: !fs[q].Directory?)
    && exists k :: Frontier(fs, seed.items, k)
  }

  ghost predicate Finished(fs: Tree, seed: Inventory) {
    && [] in fs && IsFile(fs, [INSTALLED])
    && AllInstalled(fs, seed.items)
  }

  /** The states crashed runs of one seed leave behind. */
  ghost predicate Recoverable(fs: Tree, seed: Inventory)
    requires forall i | 0 <= i < |seed.items| :: seed.items[i].path != []
  {
    Virgin(fs) || Copying(fs, seed)
  }

  // ---- one item ----

  lemma NothingChecked(seed: map<Path, Bytes>, items: seq<Item>)
    ensures Checked(seed, items, 0)
  {
  }

  lemma OneMoreChecked(fs: Tree, seed: map<Path, Bytes>, items: seq<Item>, k: nat)
    requires k < |items| && Checked(seed, items, k) && items[k].safe && items[k].path != [] && !ItemRaises(fs, seed, items[k])
    requires forall i | 0 <= i < k :: items[i].text != items[k].text
    ensures Checked(seed, items, k + 1)
  {
    hide Blocked, CopyTemp;
  }

  lemma ItemKeepsInstalled(fs: Tree, fs': Tree, items: seq<Item>, k: nat, s: Status)
    requires Sound(items) && k < |items| && InstalledUpTo(fs, items, k)
    requires ItemStep(fs, fs', items[k], s)
    ensures InstalledUpTo(fs', items, k)
    ensures s.Done? ==> InstalledUpTo(fs', items, k + 1)
  {
  }

  lemma ItemSparesReserved(fs: Tree, fs': Tree, items: seq<Item>, k: nat, s: Status, name: string)
    requires Standing(items) && k < |items| && ItemStep(fs, fs', items[k], s) && Reserved(name)
    ensures [name] in fs' <==> [name] in fs
    ensures [name] in fs ==> fs'[[name]] == fs[[name]]
  {
    CopyTempName(items[k].path);
  }

  /** Whether it finishes, raises or is killed, processing item k leaves the frontier at k or moves it on. */
  lemma ItemMovesFrontier(fs: Tree, fs': Tree, items: seq<Item>, k: nat, s: Status)
    requires Sound(items) && k < |items| && Frontier(fs, items, k) && items[k].path !in fs
    requires ItemStep(fs, fs', items[k], s)
    ensures items[k].path in fs' ==> Frontier(fs', items, k + 1)
    ensures items[k].path !in fs' ==> Frontier(fs', items, k)
  {
    var p, t := items[k].path, CopyTemp(items[k].path);
    CopyTempName(p);
    ItemKeepsInstalled(fs, fs', items, k, s);
    forall i, a | k <= i < |items| && (a == items[i].path || Ancestor(a, items[i].path)) && a in fs' && a != p
      ensures a == items[i].path ==> a == t && fs'[a].File? && p !in fs'
      ensures Ancestor(a, items[i].path) ==> fs'[a] == Directory || (a == t && fs'[a].File? && p !in fs')
    {
      if a in fs && a != t { assert fs'[a] == fs[a]; }
    }
    forall j | k < j < |items| && CopyTemp(items[j].path) in fs' ensures fs'[CopyTemp(items[j].path)].File? {
      var u := CopyTemp(items[j].path);
      if u in fs && u != t { assert fs'[u] == fs[u]; }
    }
  }

  /** At the frontier nothing is in the way. */
  lemma FrontierIsClear(fs: Tree, seed: map<Path, Bytes>, items: seq<Item>, k: nat)
    requires Sound(items) && SourcesMatch(seed, items) && k < |items| && WellFormed(fs) && [] in fs
    requires Frontier(fs, items, k)
    ensures !ItemRaises(fs, seed, items[k])
  {
    var p := items[k].path;
    CopyTempName(p);
    var parent := Up(p);
    var d := Existing(fs, parent, |parent|);
    assert parent[..0] == [];
    if d >= 0 {
      assert parent[..d] == p[..d];
      assert Ancestor(parent[..d], p);
      assert fs[parent[..d]].Directory? by {
        assert |parent[..d]| != |CopyTemp(p)|;
      }
    }
    assert Ancestor(parent, p);
  }

  ghost predicate SameReserved(fs: Tree, fs': Tree) {
    forall name | Reserved(name) :: ([name] in fs' <==> [name] in fs) && ([name] in fs ==> fs'[[name]] == fs[[name]])
  }

  lemma ItemSparesAllReserved(fs: Tree, fs': Tree, items: seq<Item>, k: nat, s: Status)
    requires Standing(items) && k < |items| && ItemStep(fs, fs', items[k], s)
    ensures SameReserved(fs, fs')
  {
    forall name | Reserved(name)
      ensures ([name] in fs' <==> [name] in fs) && ([name] in fs ==> fs'[[name]] == fs[[name]])
    {
      ItemSparesReserved(fs, fs', items, k, s, name);
    }
  }

  /** Where the frontier is after item k, given that it was at f >= k. */
  function NextFrontier(fs: Tree, items: seq<Item>, k: nat, f: nat): nat
    requires k < |items|
  {
    if f == k && items[k].path in fs then k + 1 else f
  }

  lemma FrontierTurn(fs: Tree, fs': Tree, seed: map<Path, Bytes>, items: seq<Item>, k: nat, f: nat, s: Status)
    requires Sound(items) && k < |items| && k <= f && Frontier(fs, items, f)
    requires ItemStep(fs, fs', items[k], s) && (s.Raised? ==> ItemRaises(fs, seed, items[k])) && WellFormed(fs) && [] in fs
    ensures Frontier(fs', items, NextFrontier(fs', items, k, f))
    ensures s.Done? ==> NextFrontier(fs', items, k, f) >= k + 1
    ensures SourcesMatch(seed, items) ==> !s.Raised?
  {
    if f == k {
      assert items[k].path != CopyTemp(items[k].path) by { CopyTempName(items[k].path); }
      ItemMovesFrontier(fs, fs', items, k, s);
      if SourcesMatch(seed, items) { FrontierIsClear(fs, seed, items, k); }
    }
  }

  // ---- the marker files ----

  /** What writing a marker may have done, wherever it stopped. */
  ghost predicate MarkStep(fs: Tree, fs': Tree, marker: string, nonce: string, seed: Inventory, s: Status) {
    var t, m := [TempName(marker, nonce)], [marker];
    && (forall q | q in fs && q != t && q != m :: q in fs' && fs'[q] == fs[q])
    && (forall q | q in fs' && q !in fs :: q == t || q == m)
    && (t in fs' ==> !fs'[t].Directory? || (t in fs && fs[t].Directory?))
    && (t in fs && fs[t].Directory? ==> fs' == fs)
    && (s.Done? ==> fs' == (fs - {t})[m := Record(seed)])
    && (!s.Done? ==> (m in fs' <==> m in fs) && (m in fs ==> fs'[m] == fs[m]))
  }

  lemma TempNameIsTemp(marker: string, nonce: string)
    ensures IsTempOf(marker, TempName(marker, nonce)) && TempName(marker, nonce) != marker
  {
    var name := TempName(marker, nonce);
    assert name[..|marker + "."|] == marker + ".";
    assert name[|name| - 8..] == ".pending";
  }

  lemma MarkerNames(nonce: string)
    ensures Reserved(TempName(PENDING, nonce)) && Reserved(TempName(INSTALLED, nonce))
    ensures TempName(INSTALLED, nonce) != PENDING && TempName(PENDING, nonce) != INSTALLED
  {
    TempNameIsTemp(PENDING, nonce);
    TempNameIsTemp(INSTALLED, nonce);
    assert EndsWith(TempName(INSTALLED, nonce), ".pending") && !EndsWith(PENDING, ".pending");
    assert !EndsWith(INSTALLED, ".pending") by { assert INSTALLED[|INSTALLED| - 8..][7] == 'n'; }
  }

  lemma NotThere(fs: Tree, fs': Tree, nonce: string, seed: Inventory, q: Path)
    requires Virgin(fs) && MarkStep(fs, fs', PENDING, nonce, seed, Done)
    requires q != [] && (|q| == 1 ==> !Reserved(q[0]))
    ensures q !in fs'
  {
    hide TempName, IsTempOf;
    assert q != [PENDING];
  }

  /** Over a virgin target nothing of a standing manifest exists, nor any directory or temporary of it. */
  lemma NothingYet(fs: Tree, fs': Tree, nonce: string, seed: Inventory)
    requires Virgin(fs) && Standing(seed.items) && MarkStep(fs, fs', PENDING, nonce, seed, Done)
    ensures forall i, a | 0 <= i < |seed.items| && (a == seed.items[i].path || (Ancestor(a, seed.items[i].path) && a != [])) :: a !in fs'
    ensures forall j | 0 <= j < |seed.items| :: CopyTemp(seed.items[j].path) !in fs'
  {
    hide Virgin, MarkStep, Reserved, CopyTemp;
    forall i, a | 0 <= i < |seed.items| && (a == seed.items[i].path || (Ancestor(a, seed.items[i].path) && a != []))
      ensures a !in fs'
    {
      assert !Reserved(seed.items[i].path[0]) && a[0] == seed.items[i].path[0];
      NotThere(fs, fs', nonce, seed, a);
    }
    forall j | 0 <= j < |seed.items| ensures CopyTemp(seed.items[j].path) !in fs' {
      CopyTempName(seed.items[j].path);
      NotThere(fs, fs', nonce, seed, CopyTemp(seed.items[j].path));
    }
  }

  lemma MarkedIsCopying(fs: Tree, fs': Tree, nonce: string, seed: Inventory)
    requires Virgin(fs) && Standing(seed.items) && MarkStep(fs, fs', PENDING, nonce, seed, Done) && Frontier(fs', seed.items, 0)
    ensures Copying(fs', seed)
  {
    hide TempName, Frontier, Standing;
    TempNameIsTemp(PENDING, nonce);
    MarkerNames(nonce);
    MarkersAreNotTemps();
    hide IsTempOf;
  }

  /** The first marker turns a virgin target into one at frontier 0, or leaves it virgin. */
  lemma FirstMark(fs: Tree, fs': Tree, nonce: string, seed: Inventory, s: Status)
    requires Virgin(fs) && Standing(seed.items) && WellFormed(fs) && WellFormed(fs')
    requires MarkStep(fs, fs', PENDING, nonce, seed, s)
    ensures s.Done? ==> Copying(fs', seed) && (forall i | 0 <= i < |seed.items| :: seed.items[i].path !in fs')
    ensures s.Done? ==> Frontier(fs', seed.items, 0)
    ensures !s.Done? ==> Virgin(fs')
  {
    hide TempName, CopyTemp, Reserved, IsTempOf, Copying;
    if s.Done? {
      NothingYet(fs, fs', nonce, seed);
      assert [] in fs' ==> fs'[[]].Directory?;
      MarkedIsCopying(fs, fs', nonce, seed);
    } else {
      TempNameIsTemp(PENDING, nonce);
    }
  }

  /** The last marker: either everything was installed and says so, or the copying state stands. */
  lemma LastMark(fs: Tree, fs': Tree, nonce: string, seed: Inventory, s: Status)
    requires Standing(seed.items) && MarkStep(fs, fs', INSTALLED, nonce, seed, s)
    ensures AllInstalled(fs, seed.items) ==> AllInstalled(fs', seed.items)
    ensures s.Done? ==> IsFile(fs', [INSTALLED])
    ensures Copying(fs, seed) && Frontier(fs, seed.items, |seed.items|) && !s.Done? ==> Copying(fs', seed)
    ensures forall i | 0 <= i < |seed.items| && seed.items[i].path !in fs :: seed.items[i].path !in fs'
  {
    MarkerNames(nonce);
    forall i | 0 <= i < |seed.items|
      ensures seed.items[i].path != [TempName(INSTALLED, nonce)] && seed.items[i].path != [INSTALLED]
    {
    }
    if Copying(fs, seed) && Frontier(fs, seed.items, |seed.items|) && !s.Done? {
      assert Frontier(fs', seed.items, |seed.items|);
    }
  }

  /** The temporaries a run may write over. */
  ghost predicate Scratch(manifest: Option<Inventory>, nonce: string, q: Path) {
    || q == [TempName(PENDING, nonce)] || q == [TempName(INSTALLED, nonce)]
    || (manifest.Some? && exists i | 0 <= i < |manifest.value.items| ::
          manifest.value.items[i].path != [] && q == CopyTemp(manifest.value.items[i].path))
  }

  /** Nothing that was there has changed, temporaries aside. */
  ghost predicate Preserves(fs: Tree, fs': Tree, manifest: Option<Inventory>, nonce: string) {
    forall q | q in fs && !Scratch(manifest, nonce, q) :: q in fs' && fs'[q] == fs[q]
  }

  lemma CopyingKept(fs: Tree, fs': Tree, seed: Inventory)
    requires Standing(seed.items) && Copying(fs, seed) && SameReserved(fs, fs')
    requires exists k :: Frontier(fs', seed.items, k)
    ensures Copying(fs', seed)
  {
    assert Reserved(PENDING) && Reserved(INSTALLED);
    forall q | q in fs' && |q| == 1 && Reserved(q[0]) ensures !fs'[q].Directory? {
      assert q == [q[0]];
    }
  }

  lemma MarkersAreNotTemps()
    ensures !IsTempOf(PENDING, PENDING) && !IsTempOf(PENDING, INSTALLED)
  {
    assert PENDING[|PENDING| - 8..][7] == 'n' && INSTALLED[|INSTALLED| - 8..][7] == 'n';
  }

  lemma VirginDecision(fs: Tree, seed: Inventory)
    requires SchemaOK(seed) && Virgin(fs)
    ensures Decide(Rooted(fs), Some(seed)) == Mark && Virgin(Rooted(fs))
  {
    MarkersAreNotTemps();
    hide IsTempOf;
    var rooted := Rooted(fs);
    forall q | q in rooted ensures q == [] || (|q| == 1 && IsTempOf(PENDING, q[0]) && !rooted[q].Directory?) {
    }
    assert [INSTALLED] !in rooted;
    assert [PENDING] !in rooted;
    assert FirstMarkerPartials(rooted);
  }

  lemma CopyingDecision(fs: Tree, seed: Inventory)
    requires Standing(seed.items) && SchemaOK(seed) && Copying(fs, seed) && WellFormed(fs)
    ensures Decide(Rooted(fs), Some(seed)) == Resume && Rooted(fs) == fs && !Virgin(fs)
  {
    MarkersAreNotTemps();
    hide IsTempOf, Frontier, FirstMarkerPartials, InUse, Standing;
    assert Up([PENDING]) == [];
    assert !Virgin(fs) by { assert !IsTempOf(PENDING, [PENDING][0]); }
  }

  /** How a recoverable state is read: it is either to be marked or to be resumed. */
  lemma RecoverableDecision(fs: Tree, seed: Inventory)
    requires Standing(seed.items) && SchemaOK(seed) && Recoverable(fs, seed) && WellFormed(fs)
    ensures Decide(Rooted(fs), Some(seed)) == if Virgin(fs) then Mark else Resume
    ensures Virgin(fs) ==> Virgin(Rooted(fs)) && WellFormed(Rooted(fs))
    ensures !Virgin(fs) ==> Copying(fs, seed) && Rooted(fs) == fs
  {
    hide Virgin, Copying, Decide, IsTempOf, Frontier;
    if Virgin(fs) { VirginDecision(fs, seed); RootedWellFormed(fs); } else { CopyingDecision(fs, seed); }
  }

  lemma RootedWellFormed(fs: Tree)
    requires WellFormed(fs)
    ensures WellFormed(Rooted(fs))
  {
    forall q: Path | q in Rooted(fs) && q != [] ensures Up(q) in Rooted(fs) && Rooted(fs)[Up(q)].Directory? {
      assert Up(q) in fs;
    }
  }

  lemma FreshStart(fs: Tree, items: seq<Item>)
    requires Standing(items) && forall i | 0 <= i < |items| :: items[i].path !in fs
    ensures FreshRun(fs, items, 0)
  {
  }

  lemma NotMarkers(nonce: string)
    ensures [TempName(PENDING, nonce)] != [PENDING] && [TempName(PENDING, nonce)] != [INSTALLED]
  {
    hide TempName;
    TempNameIsTemp(PENDING, nonce);
    MarkerNames(nonce);
  }

  lemma RootPreserves(fs: Tree, manifest: Option<Inventory>, nonce: string)
    ensures Preserves(fs, fs, manifest, nonce) && Preserves(fs, Rooted(fs), manifest, nonce)
    ensures IsFile(Rooted(fs), [INSTALLED]) == IsFile(fs, [INSTALLED])
  {
    hide Scratch;
  }

  lemma LoopStarts(fs: Tree, manifest: Inventory, nonce: string)
    ensures Preserves(fs, fs, Some(manifest), nonce) && SameReserved(fs, fs) && InstalledUpTo(fs, manifest.items, 0)
  {
  }

  lemma SameReservedTrans(a: Tree, b: Tree, c: Tree)
    requires SameReserved(a, b) && SameReserved(b, c)
    ensures SameReserved(a, c)
  {
    hide Reserved;
  }

  lemma ItemPreserves(fs: Tree, fs': Tree, manifest: Inventory, k: nat, nonce: string, s: Status)
    requires k < |manifest.items| && manifest.items[k].path != [] && ItemStep(fs, fs', manifest.items[k], s)
    ensures Preserves(fs, fs', Some(manifest), nonce) && ([] in fs ==> [] in fs')
  {
    hide CopyTemp;
    CopyTempName(manifest.items[k].path);
  }

  lemma FrontierBound(fs: Tree, items: seq<Item>, k: nat)
    requires (forall i | 0 <= i < |items| :: items[i].path != []) && Frontier(fs, items, k)
    ensures k <= |items|
  {
  }

  lemma PreservesTrans(a: Tree, b: Tree, c: Tree, manifest: Option<Inventory>, nonce: string)
    requires Preserves(a, b, manifest, nonce) && Preserves(b, c, manifest, nonce)
    ensures Preserves(a, c, manifest, nonce)
  {
  }

  /** A run that began fresh and ends with everything installed had no file in the way of a temporary. */
  lemma FreshEnd(fs: Tree, fs': Tree, items: seq<Item>)
    requires Standing(items) && FreshRun(fs, items, |items|)
    requires forall i | 0 <= i < |items| && items[i].path !in fs :: items[i].path !in fs'
    ensures AllInstalled(fs', items) ==> TempOrder(items)
    ensures ClashesLost(fs', items)
  {
    hide CopyTemp, Reserved;
    forall i, j | 0 <= i < j < |items| && AllInstalled(fs', items) ensures !(CopyTemp(items[j].path) <= items[i].path) {
      TempStands(fs, items, i, j);
      assert items[i].path in fs';
    }
    forall j | 0 <= j < |items| ensures CopyTemp(items[j].path) == Up(items[j].path) + [items[j].path[|items[j].path| - 1] + ".seed-copy"] {
      CopyTempIs(items[j].path);
    }
  }

  lemma CopyTempIs(path: Path)
    requires path != []
    ensures CopyTemp(path) == Up(path) + [path[|path| - 1] + ".seed-copy"]
  {
  }

  lemma TempStands(fs: Tree, items: seq<Item>, i: nat, j: nat)
    requires i < j < |items| && (forall k | 0 <= k < |items| :: items[k].path != []) && FreshRun(fs, items, |items|)
    ensures CopyTemp(items[j].path) <= items[i].path ==> items[i].path == CopyTemp(items[j].path) && items[i].path !in fs
  {
    hide CopyTemp;
    var t := CopyTemp(items[j].path);
    assert t <= items[i].path ==> t == items[i].path || Ancestor(t, items[i].path);
  }

  /** A file that was installed and then served as the temporary of a later one is gone. */
  ghost predicate ClashesLost(fs: Tree, items: seq<Item>)
    requires forall i | 0 <= i < |items| :: items[i].path != []
  {
    forall i, j | 0 <= i < j < |items| && items[i].path == CopyTemp(items[j].path) :: items[i].path !in fs
  }

  /** An uninterrupted run over a virgin target, after k files: nothing of the later files exists, the
      directories of the earlier ones do, and a file standing where a later temporary went is gone. */
  ghost predicate FreshRun(fs: Tree, items: seq<Item>, k: nat)
    requires forall i | 0 <= i < |items| :: items[i].path != []
  {
    && (forall i | k <= i < |items| :: items[i].path !in fs)
    && (forall i, a | 0 <= i < k && i < |items| && Ancestor(a, items[i].path) :: a in fs && fs[a] == Directory)
    && (forall i, j | 0 <= i < j < k && j < |items| ::
          && !Ancestor(CopyTemp(items[j].path), items[i].path)
          && (items[i].path == CopyTemp(items[j].path) ==> items[i].path !in fs))
  }

  lemma FreshDirectories(fs: Tree, fs': Tree, items: seq<Item>, k: nat)
    requires Standing(items) && k < |items| && FreshRun(fs, items, k) && WellFormed(fs')
    requires ItemStep(fs, fs', items[k], Done) && !(CopyTemp(items[k].path) in fs && fs[CopyTemp(items[k].path)].Directory?)
    ensures forall i, a | 0 <= i <= k && Ancestor(a, items[i].path) :: a in fs' && fs'[a] == Directory
  {
    hide CopyTemp, Reserved, WellFormed;
    forall i, a | 0 <= i <= k && Ancestor(a, items[i].path) ensures a in fs' && fs'[a] == Directory {
      if i == k {
        AncestorsAreDirectories(fs', items[k].path, |a|);
      } else {
        assert a in fs && fs[a] == Directory;
      }
    }
  }

  lemma FreshMissing(fs: Tree, fs': Tree, items: seq<Item>, k: nat)
    requires Standing(items) && k < |items| && items[k].path !in fs && ItemStep(fs, fs', items[k], Done)
    ensures CopyTemp(items[k].path) !in fs'
    ensures forall i | 0 <= i < |items| && i != k && items[i].path !in fs :: items[i].path !in fs'
  {
    hide CopyTemp, Reserved;
    forall i | 0 <= i < |items| && i != k && items[i].path !in fs ensures items[i].path !in fs' {
      assert items[i].path != items[k].path && !Ancestor(items[i].path, items[k].path);
    }
  }

  lemma FreshItem(fs: Tree, fs': Tree, seed: map<Path, Bytes>, items: seq<Item>, k: nat)
    requires Standing(items) && k < |items| && FreshRun(fs, items, k) && WellFormed(fs')
    requires ItemStep(fs, fs', items[k], Done) && !ItemRaises(fs, seed, items[k])
    ensures FreshRun(fs', items, k + 1)
  {
    hide CopyTemp, Reserved, WellFormed, ItemStep, Blocked;
    var t := CopyTemp(items[k].path);
    FreshDirectories(fs, fs', items, k);
    FreshMissing(fs, fs', items, k);
    forall i, j | 0 <= i < j <= k
      ensures !Ancestor(CopyTemp(items[j].path), items[i].path)
      ensures items[i].path == CopyTemp(items[j].path) ==> items[i].path !in fs'
    {
      if j == k { assert t !in fs'; }
    }
  }

  /** The target directory and the process working on it. `fuse` is the number of changes it will still
      make before it is killed; None if it is left alone. */
  class Target {
    var fs: Tree
    var fuse: Option<nat>

    ghost predicate Valid()
      reads this
    {
      WellFormed(fs)
    }

    constructor (fs: Tree, fuse: Option<nat>)
      requires WellFormed(fs)
      ensures Valid() && this.fs == fs && this.fuse == fuse
    {
      this.fs := fs;
      this.fuse := fuse;
    }

    /** Whether the process lives to make its next change. */
    method Tick() returns (alive: bool)
      modifies this`fuse
      ensures alive <==> old(fuse) != Some(0)
      ensures old(fuse).None? <==> fuse.None?
    {
      alive := fuse != Some(0);
      if alive && fuse.Some? { fuse := Some(fuse.value - 1); }
    }

    method Mkdir(path: Path) returns (s: Status)
      requires Valid() && path !in fs && (path != [] ==> Up(path) in fs && fs[Up(path)].Directory?)
      modifies this
      ensures Valid() && (old(fuse).None? <==> fuse.None?)
      ensures s.Done? || (s.Killed? && old(fuse).Some?)
      ensures fs == if s.Done? then old(fs)[path := Directory] else old(fs)
    {
      var alive := Tick();
      if !alive { return Killed; }
      fs := fs[path := Directory];
      s := Done;
    }

    /** `make_directory`: the missing directories, shallowest first. */
    method MakeDirectory(path: Path) returns (s: Status)
      requires Valid()
      modifies this
      ensures Valid() && (old(fuse).None? <==> fuse.None?)
      ensures s.Killed? ==> old(fuse).Some?
      ensures s.Raised? <==> Blocked(old(fs), path)
      ensures s.Raised? ==> fs == old(fs)
      ensures var d := Existing(old(fs), path, |path|);
              && (s.Done? ==> fs == WithDirs(old(fs), path, d + 1, |path| + 1))
              && (s.Killed? ==> PartlyMade(old(fs), fs, path, d + 1))
    {
      ghost var was := fs;
      var d := Existing(fs, path, |path|);
      if 0 <= d < |path| && !fs[path[..d]].Directory? { return Raised; }
      for m := d + 1 to |path| + 1
        invariant Valid() && (old(fuse).None? <==> fuse.None?)
        invariant fs == WithDirs(was, path, d + 1, m)
      {
        WithDirsAt(was, path, d + 1, m, path[..m]);
        if m > 0 {
          assert Up(path[..m]) == path[..m - 1];
          WithDirsAt(was, path, d + 1, m, path[..m - 1]);
        }
        s := Mkdir(path[..m]);
        if !s.Done? { return; }
      }
      s := Done;
    }

    /** open(path, "w"): create or truncate. */
    method Open(path: Path) returns (s: Status)
      requires Valid() && path != []
      modifies this
      ensures Valid() && (old(fuse).None? <==> fuse.None?)
      ensures s.Raised? <==> Up(path) !in old(fs) || !old(fs)[Up(path)].Directory?
                             || (path in old(fs) && old(fs)[path].Directory?)
      ensures s.Killed? ==> old(fuse).Some?
      ensures fs == if s.Done? then old(fs)[path := File([])] else old(fs)
    {
      if Up(path) !in fs || !fs[Up(path)].Directory? || (path in fs && fs[path].Directory?) {
        return Raised;
      }
      var alive := Tick();
      if !alive { return Killed; }
      fs := fs[path := File([])];
      s := Done;
    }

    /** Write and fsync an open file. A kill leaves any part of the contents. */
    method Fill(path: Path, node: Node) returns (s: Status)
      requires Valid() && IsFile(fs, path) && !node.Directory?
      modifies this
      ensures Valid() && (old(fuse).None? <==> fuse.None?)
      ensures s.Done? || (s.Killed? && old(fuse).Some?)
      ensures s.Done? ==> fs == old(fs)[path := node]
      ensures s.Killed? ==> exists part: Bytes :: fs == old(fs)[path := File(part)]
    {
      var alive := Tick();
      if !alive {
        assert node.File? ==> [] <= node.bytes;
        var part: Bytes :| node.File? ==> part <= node.bytes;
        fs := fs[path := File(part)];
        return Killed;
      }
      fs := fs[path := node];
      s := Done;
    }

    /** os.replace of one file by another. */
    method Rename(from: Path, to: Path) returns (s: Status)
      requires Valid() && IsFile(fs, from) && from != to && to != []
      requires from != [] && Up(from) == Up(to)
      modifies this
      ensures Valid() && (old(fuse).None? <==> fuse.None?)
      ensures s.Raised? <==> to in old(fs) && old(fs)[to].Directory?
      ensures s.Killed? ==> old(fuse).Some?
      ensures fs == if s.Done? then (old(fs) - {from})[to := old(fs)[from]] else old(fs)
    {
      if to in fs && fs[to].Directory? { return Raised; }
      var alive := Tick();
      if !alive { return Killed; }
      fs := (fs - {from})[to := fs[from]];
      s := Done;
    }

    /** Copy into the temporary, verify, rename over a destination that does not exist. */
    method CopyItem(item: Item) returns (s: Status)
      requires Valid() && item.path != [] && item.path !in fs && Up(item.path) in fs
      modifies this
      ensures Valid() && (old(fuse).None? <==> fuse.None?)
      ensures s.Killed? ==> old(fuse).Some?
      ensures s.Raised? <==> !old(fs)[Up(item.path)].Directory?
                             || (CopyTemp(item.path) in old(fs) && old(fs)[CopyTemp(item.path)].Directory?)
      ensures s.Raised? ==> fs == old(fs)
      ensures s.Done? ==> fs == (old(fs) - {CopyTemp(item.path)})[item.path := File(item.pinned)]
      ensures s.Killed? ==> fs == old(fs) || (exists part :: fs == old(fs)[CopyTemp(item.path) := File(part)])
      ensures s.Killed? && fs != old(fs) && CopyTemp(item.path) in old(fs) ==> !old(fs)[CopyTemp(item.path)].Directory?
    {
      var p, t := item.path, CopyTemp(item.path);
      ghost var was := fs;
      CopyTempName(p);
      s := Open(t);
      if !s.Done? { return; }
      s := Fill(t, File(item.pinned));
      if !s.Done? {
        ghost var part :| fs == was[t := File([])][t := File(part)];
        assert fs == was[t := File(part)];
        return;
      }
      assert fs == was[t := File(item.pinned)];
      s := Rename(t, p);
      if s.Done? { assert fs == (was - {t})[p := File(item.pinned)]; }
    }

    /** One turn of the copy loop: check the source, then keep an equal destination or copy, verify and
        rename. */
    method InstallItem(seed: map<Path, Bytes>, item: Item) returns (s: Status)
      requires Valid() && item.path != []
      modifies this
      ensures Valid() && (old(fuse).None? <==> fuse.None?)
      ensures s.Killed? ==> old(fuse).Some?
      ensures s.Raised? ==> ItemRaises(old(fs), seed, item)
      ensures s.Done? ==> !ItemRaises(old(fs), seed, item)
      ensures ItemStep(old(fs), fs, item, s)
    {
      hide WithDirs;
      var p, t := item.path, CopyTemp(item.path);
      var parent := Up(p);
      if p !in seed || seed[p] != item.pinned { return Raised; }
      ghost var was := fs;
      CopyTempName(p);
      ghost var d := Existing(was, parent, |parent|);
      s := MakeDirectory(parent);
      if s.Raised? {
        assert parent[..|parent|] == parent;
        return;
      }
      if s.Killed? {
        ghost var m :| d + 1 <= m <= |parent| + 1 && fs == WithDirs(was, parent, d + 1, m);
        DirsOnly(was, parent, m);
        return;
      }
      DirsOnly(was, parent, |parent| + 1);
      if p in fs {
        return if fs[p] == File(item.pinned) then Done else Raised;
      }
      ghost var mid := fs;
      s := CopyItem(item);
      CopyIsItemStep(was, mid, fs, item, s);
    }

    /** `atomic_json`. */
    method AtomicJson(marker: string, nonce: string, seed: Inventory) returns (s: Status)
      requires Valid() && [] in fs
      modifies this
      ensures Valid() && [] in fs && (old(fuse).None? <==> fuse.None?)
      ensures s.Killed? ==> old(fuse).Some?
      ensures s.Raised? ==> ([TempName(marker, nonce)] in old(fs) && old(fs)[[TempName(marker, nonce)]].Directory?)
                            || ([marker] in old(fs) && old(fs)[[marker]].Directory?)
      ensures s.Done? ==> !([marker] in old(fs) && old(fs)[[marker]].Directory?)
      ensures MarkStep(old(fs), fs, marker, nonce, seed, s)
    {
      TempNameIsTemp(marker, nonce);
      var t := [TempName(marker, nonce)];
      ghost var was := fs;
      assert Up(t) == [] && Up([marker]) == [];
      s := Open(t);
      if !s.Done? { return; }
      s := Fill(t, Record(seed));
      if !s.Done? { return; }
      s := Rename(t, [marker]);
      if s.Done? { assert fs == (was - {t})[[marker] := Record(seed)]; }
    }

    /** The copy loop of `install`. */
    method CopyAll(seed: map<Path, Bytes>, manifest: Inventory, nonce: string) returns (s: Status)
      requires Valid() && [] in fs
      modifies this
      ensures Valid() && [] in fs && (old(fuse).None? <==> fuse.None?)
      ensures s.Killed? ==> old(fuse).Some?
      ensures Preserves(old(fs), fs, Some(manifest), nonce)
      ensures Standing(manifest.items) ==> SameReserved(old(fs), fs)
      ensures s.Done? ==> Checked(seed, manifest.items, |manifest.items|)
      ensures Sound(manifest.items) && s.Done? ==> AllInstalled(fs, manifest.items)
      ensures Sound(manifest.items) && (exists k :: Frontier(old(fs), manifest.items, k)) ==>
                (exists k :: Frontier(fs, manifest.items, k)) && (SourcesMatch(seed, manifest.items) ==> !s.Raised?)
      ensures Sound(manifest.items) && (exists k :: Frontier(old(fs), manifest.items, k)) && s.Done? ==>
                Frontier(fs, manifest.items, |manifest.items|)
      ensures Standing(manifest.items) && FreshRun(old(fs), manifest.items, 0) && s.Done? ==>
                FreshRun(fs, manifest.items, |manifest.items|)
    {
      hide ItemStep, ItemRaises, Frontier, FreshRun, Checked, InstalledUpTo, SameReserved, Preserves, TempOrder, CopyTemp, Reserved, SourcesMatch, WellFormed;
      LoopStarts(fs, manifest, nonce);
      NothingChecked(seed, manifest.items);
      var items := manifest.items;
      ghost var was := fs;
      ghost var tracked := Sound(items) && exists k :: Frontier(fs, items, k);
      ghost var f: nat := 0;
      if tracked { f :| Frontier(fs, items, f); }
      var seen := {};
      for k := 0 to |items|
        invariant Valid() && [] in fs && (old(fuse).None? <==> fuse.None?)
        invariant seen == set i | 0 <= i < k :: items[i].text
        invariant Checked(seed, items, k)
        invariant Preserves(was, fs, Some(manifest), nonce)
        invariant Standing(items) ==> SameReserved(was, fs)
        invariant Sound(items) ==> InstalledUpTo(fs, items, k)
        invariant tracked ==> f >= k && Frontier(fs, items, f)
        invariant Standing(items) && FreshRun(was, items, 0) ==> FreshRun(fs, items, k)
      {
        var item := items[k];
        if !item.safe || item.text in seen || item.path == [] { return Raised; }
        seen := seen + {item.text};
        ghost var before := fs;
        s := InstallItem(seed, item);
        ItemPreserves(before, fs, manifest, k, nonce, s);
        PreservesTrans(was, before, fs, Some(manifest), nonce);
        if Standing(items) {
          ItemSparesAllReserved(before, fs, items, k, s);
          SameReservedTrans(was, before, fs);
        }
        if Sound(items) { ItemKeepsInstalled(before, fs, items, k, s); }
        if tracked {
          FrontierTurn(before, fs, seed, items, k, f, s);
          f := NextFrontier(fs, items, k, f);
        }
        if !s.Done? { return; }
        OneMoreChecked(before, seed, items, k);
        if Standing(items) && FreshRun(was, items, 0) { FreshItem(before, fs, seed, items, k); }
      }
      if tracked { FrontierBound(fs, items, f); }
      s := Done;
    }

    /** make_directory(target). */
    method MakeRoot() returns (s: Status)
      requires Valid()
      modifies this
      ensures Valid() && (old(fuse).None? <==> fuse.None?)
      ensures s.Done? || (s.Killed? && old(fuse).Some?)
      ensures s.Done? ==> fs == Rooted(old(fs))
      ensures s.Killed? ==> fs == old(fs) || fs == Rooted(old(fs))
    {
      ghost var was := fs;
      ghost var d := Existing(fs, [], 0);
      assert WithDirs(was, [], 0, 0) == was && WithDirs(was, [], 0, 1) == was[[] := Directory] && WithDirs(was, [], 1, 1) == was;
      var none: Path := [];
      assert none[..0] == [];
      s := MakeDirectory([]);
    }

    /** The copy loop and the last marker. */
    method CopyAndSeal(seed: map<Path, Bytes>, manifest: Inventory, nonce: string) returns (s: Status)
      requires Valid() && [] in fs && !IsFile(fs, [INSTALLED])
      modifies this
      ensures Valid() && (old(fuse).None? <==> fuse.None?)
      ensures s.Killed? ==> old(fuse).Some?
      ensures Preserves(old(fs), fs, Some(manifest), nonce)
      ensures s.Done? ==> IsFile(fs, [INSTALLED]) && fs[[INSTALLED]] == Record(manifest)
      ensures IsFile(fs, [INSTALLED]) && Standing(manifest.items) ==> Checked(seed, manifest.items, |manifest.items|)
      ensures s.Done? ==> Checked(seed, manifest.items, |manifest.items|)
      ensures Sound(manifest.items) && IsFile(fs, [INSTALLED]) ==> AllInstalled(fs, manifest.items)
      ensures Sound(manifest.items) && SourcesMatch(seed, manifest.items) && Copying(old(fs), manifest) ==>
                (Copying(fs, manifest) || Finished(fs, manifest)) && (s.Done? ==> Finished(fs, manifest)) && !s.Raised?
      ensures Standing(manifest.items) && FreshRun(old(fs), manifest.items, 0) && s.Done? && AllInstalled(fs, manifest.items) ==>
                TempOrder(manifest.items)
      ensures Standing(manifest.items) && FreshRun(old(fs), manifest.items, 0) && s.Done? ==> ClashesLost(fs, manifest.items)
    {
      ghost var was := fs;
      MarkerNames(nonce);
      s := CopyAll(seed, manifest, nonce);
      ghost var copied := fs;
      if Sound(manifest.items) && Copying(was, manifest) { CopyingKept(was, fs, manifest); }
      if !s.Done? { return; }
      s := AtomicJson(INSTALLED, nonce, manifest);
      if Standing(manifest.items) {
        LastMark(copied, fs, nonce, manifest, s);
        if FreshRun(was, manifest.items, 0) { FreshEnd(copied, fs, manifest.items); }
      }
    }

    /** Writing the first marker. */
    method MarkPending(manifest: Inventory, nonce: string) returns (s: Status)
      requires Valid() && [] in fs && !IsFile(fs, [PENDING])
      modifies this
      ensures Valid() && [] in fs && (old(fuse).None? <==> fuse.None?)
      ensures s.Killed? ==> old(fuse).Some?
      ensures Preserves(old(fs), fs, Some(manifest), nonce)
      ensures IsFile(fs, [INSTALLED]) == IsFile(old(fs), [INSTALLED])
      ensures Standing(manifest.items) && Virgin(old(fs)) ==>
                && !s.Raised? && (!s.Done? ==> Virgin(fs))
                && (s.Done? ==> Copying(fs, manifest) && FreshRun(fs, manifest.items, 0))
    {
      hide IsTempOf, Frontier, FreshRun, TempOrder, CopyTemp, Reserved, TempName, Copying;
      ghost var was := fs;
      MarkerNames(nonce);
      NotMarkers(nonce);
      s := AtomicJson(PENDING, nonce, manifest);
      if Standing(manifest.items) && Virgin(was) {
        FirstMark(was, fs, nonce, manifest, s);
        if s.Done? { FreshStart(fs, manifest.items); }
      }
    }

    /** `install` up to the copy loop: the target directory, the decision, the first marker. */
    method Begin(manifest: Option<Inventory>, nonce: string) returns (s: Status, decision: Decision)
      requires Valid()
      modifies this
      ensures Valid() && (old(fuse).None? <==> fuse.None?)
      ensures s.Killed? ==> old(fuse).Some?
      ensures s.Done? ==> [] in fs && decision == Decide(Rooted(old(fs)), manifest)
      ensures s.Done? && decision.Stop? ==> fs == Rooted(old(fs))
      ensures Decide(Rooted(old(fs)), manifest).Stop? ==> !s.Raised? && (fs == old(fs) || fs == Rooted(old(fs)))
      ensures s.Done? && !decision.Stop? ==> manifest.Some?
      ensures Preserves(old(fs), fs, manifest, nonce)
      ensures (s.Done? && decision.Stop?) || IsFile(fs, [INSTALLED]) == IsFile(old(fs), [INSTALLED])
      ensures s.Done? && !decision.Stop? ==> !IsFile(fs, [INSTALLED])
      ensures manifest.Some? && SchemaOK(manifest.value) && Standing(manifest.value.items) && Recoverable(old(fs), manifest.value) ==>
                && Recoverable(fs, manifest.value) && !s.Raised?
                && (s.Done? ==> !decision.Stop? && Copying(fs, manifest.value))
                && (s.Done? && Virgin(old(fs)) ==> FreshRun(fs, manifest.value.items, 0))
    {
      hide IsTempOf, FreshRun, CopyTemp, Reserved, TempName, Copying, Virgin, SchemaOK, Preserves, Scratch, InUse, WellFormed;
      ghost var was := fs;
      RootPreserves(was, manifest, nonce);
      if manifest.Some? && SchemaOK(manifest.value) && Standing(manifest.value.items) && Recoverable(fs, manifest.value) {
        RecoverableDecision(fs, manifest.value);
      }
      decision := Stop(Failed);
      s := MakeRoot();
      if !s.Done? { return; }
      decision := Decide(fs, manifest);
      if !decision.Mark? { return; }
      ghost var rooted := fs;
      s := MarkPending(manifest.value, nonce);
      PreservesTrans(was, rooted, fs, manifest, nonce);
    }

    /** `install`. */
    method Install(seed: map<Path, Bytes>, manifest: Option<Inventory>, nonce: string) returns (r: Outcome)
      requires Valid()
      modifies this
      ensures Valid() && (old(fuse).None? <==> fuse.None?)
      ensures r.Interrupted? ==> old(fuse).Some?
      // A finished target is left alone, and so is any without a seed.
      ensures FileAt(old(fs), [".seed-installed.json"]) ==> Answers(old(fs), fs, r, ExistingState)
      ensures !FileAt(old(fs), [".seed-installed.json"]) && manifest.None? ==>
                Answers(old(fs), fs, r, if exists q | q in old(fs) :: |q| == 1 then ExistingState else NoSeed)
      // Otherwise a malformed manifest is refused, and an interrupted install of another seed, and a target
      // without a first marker that holds anything but temporaries of it; and nothing else before the loop.
      ensures !FileAt(old(fs), [".seed-installed.json"]) && manifest.Some? ==>
                (if !manifest.value.valid || manifest.value.items == [] then Answers(old(fs), fs, r, Failed)
                 else if FileAt(old(fs), [".seed-install.json"]) then
                   (if old(fs)[[".seed-install.json"]] != Record(manifest.value) then Answers(old(fs), fs, r, Failed) else !r.ExistingState? && !r.NoSeed?)
                 else if exists q | q in old(fs) && |q| == 1 :: Foreign(old(fs), q) then
                   Answers(old(fs), fs, r, if UsedAlready(old(fs)) then ExistingState else Failed)
                 else !r.ExistingState? && !r.NoSeed?)
      // What is installed is what the manifest pins, checked against the seed, and the marker names it.
      ensures r.Installed? ==>
                manifest.Some? && FileAt(fs, [".seed-installed.json"]) && fs[[".seed-installed.json"]] == Record(manifest.value)
      ensures r.Installed? ==> Checked(seed, manifest.value.items, |manifest.value.items|)
      ensures Preserves(old(fs), fs, manifest, nonce)
      // Whenever the last marker has been written, everything is in place.
      ensures manifest.Some? && Sound(manifest.value.items) && !IsFile(old(fs), [INSTALLED]) && IsFile(fs, [INSTALLED]) ==>
                AllInstalled(fs, manifest.value.items)
      // From a recoverable state every run ends in a recoverable or finished one, and an uninterrupted run finishes.
      ensures manifest.Some? && SchemaOK(manifest.value) && Sound(manifest.value.items)
              && SourcesMatch(seed, manifest.value.items) && Recoverable(old(fs), manifest.value) ==>
                && (Recoverable(fs, manifest.value) || Finished(fs, manifest.value))
                && (!r.Interrupted? ==> r.Installed? && Finished(fs, manifest.value))
      // Over an untouched target, an uninterrupted run keeps every file exactly when no file lies at or under
      // the temporary of a later one.
      ensures manifest.Some? && SchemaOK(manifest.value) && Standing(manifest.value.items)
              && SourcesMatch(seed, manifest.value.items) && Virgin(old(fs)) && !r.Interrupted? ==>
                && (TempOrder(manifest.value.items) <==> r.Installed? && AllInstalled(fs, manifest.value.items))
                && (r.Installed? ==> ClashesLost(fs, manifest.value.items))
    {
      hide ClashesLost, IsTempOf, Frontier, FreshRun, TempOrder, CopyTemp, Reserved, Copying, Virgin, Standing, Decide, InUse, SourcesMatch, Scratch;
      hide Foreign, Checked;
      ghost var was := fs;
      DecidesAlone(fs, manifest);
      var s, decision := Begin(manifest, nonce);
      if !s.Done? { return if s.Killed? then Interrupted else Failed; }
      if decision.Stop? { return decision.outcome; }
      ghost var marked := fs;
      s := CopyAndSeal(seed, manifest.value, nonce);
      PreservesTrans(was, marked, fs, manifest, nonce);
      if !s.Done? { return if s.Killed? then Interrupted else Failed; }
      r := Installed;
    }
  }

  lemma FinishedDecision(fs: Tree, seed: Inventory)
    requires Finished(fs, seed)
    ensures Decide(Rooted(fs), Some(seed)) == Stop(ExistingState) && Rooted(fs) == fs && IsFile(fs, [INSTALLED])
  {
  }

  /** Any number of runs of one seed from an untouched target, each killed anywhere or not at all, then one
      left alone, then another. */
  method Converge(target: Target, seed: map<Path, Bytes>, manifest: Inventory, kills: seq<(Option<nat>, string)>,
                  nonce: string, nonce': string)
    returns (r: Outcome, again: Outcome, ghost settled: Tree)
    requires target.Valid() && Virgin(target.fs)
    requires SchemaOK(manifest) && Sound(manifest.items) && SourcesMatch(seed, manifest.items)
    modifies target
    ensures r.Installed? || r.ExistingState?
    ensures Finished(settled, manifest)
    ensures again.ExistingState? && target.fs == settled
  {
    hide IsTempOf, Frontier, FreshRun, TempOrder, CopyTemp, Reserved, Copying, Virgin, Decide, SourcesMatch,
      Finished, Preserves, AllInstalled, WellFormed, SchemaOK, ClashesLost;
    for k := 0 to |kills|
      invariant target.Valid()
      invariant Recoverable(target.fs, manifest) || Finished(target.fs, manifest)
    {
      target.fuse := kills[k].0;
      if Finished(target.fs, manifest) { FinishedDecision(target.fs, manifest); }
      var o := target.Install(seed, Some(manifest), kills[k].1);
    }
    target.fuse := None;
    if Finished(target.fs, manifest) { FinishedDecision(target.fs, manifest); }
    r := target.Install(seed, Some(manifest), nonce);
    settled := target.fs;
    FinishedDecision(settled, manifest);
    again := target.Install(seed, Some(manifest), nonce');
  }

  lemma ClashingNames(name: string)
    ensures var copy, plain: Path := [name + ".seed-copy"], [name];
            && CopyTemp(plain) == copy && copy != plain && Up(copy) == [] && Up(plain) == []
            && CopyTemp(copy) != copy && CopyTemp(copy) != plain && CopyTemp(copy) != []
  {
    var copy, plain: Path := [name + ".seed-copy"], [name];
    assert |copy[0]| == |plain[0]| + 10;
    assert CopyTemp(copy)[0] == copy[0] + ".seed-copy";
    assert |CopyTemp(copy)[0]| == |plain[0]| + 20;
  }

  /** The clash at its smallest: `name.seed-copy` is installed, then `name` takes its place as a temporary and
      moves it away; every step succeeds. */
  method SeedCopyListedFirst(name: string, x: Bytes, y: Bytes) returns (first: Status, second: Status, target: Target)
    ensures first.Done? && second.Done?
    ensures [name] in target.fs && [name + ".seed-copy"] !in target.fs
  {
    hide CopyTemp, Up, WithDirs;
    ClashingNames(name);
    var copy, plain := Item(name + ".seed-copy", [name + ".seed-copy"], true, x), Item(name, [name], true, y);
    var seed := map[copy.path := x, plain.path := y];
    var fs: Tree := map[[] := Directory];
    assert WellFormed(fs);
    target := new Target(fs, None);
    NothingBlocked(target.fs);
    first := target.InstallItem(seed, copy);
    NothingBlocked(target.fs);
    second := target.InstallItem(seed, plain);
  }

  /** Below a target that exists, nothing blocks its own directory. */
  lemma NothingBlocked(fs: Tree)
    requires WellFormed(fs)
    ensures [] in fs ==> !Blocked(fs, []) && fs[[]].Directory?
  {
    var none: Path := [];
    assert none[..0] == none;
  }
}
