/** The bundle store as a step machine. Several installer processes, one operator and the runtime processes
    interleave; an installer can raise or die between any two steps, with its cleanup done, skipped or
    half done. */
module StoreMachine {
  import opened Common
  import opened StoreTypes
  import opened SnapshotCapture

  datatype Op =
    | Initialize(source: Content)
    | Promote(source: Content, expected: ReleaseRef, approved: Identity)
    | Handover(source: Content, expected: ReleaseRef)
    | Rollback(expected: ReleaseRef, target: ReleaseRef)

  /** How far one installer has come. `Between` is between two publishing calls, with the lock held and the
      pointer re-read; the phases around it are inside such a call. */
  datatype Phase =
    | Ready
    | Locked
    | Between
    | ReleaseCopying(tag: nat)
    | ReleaseCopied(tag: nat)
    | ReleaseReceipted(tag: nat)
    | ReleaseRenamed
    | PairCopying(tag: nat, copied: nat)
    | PairRenamed(name: LookupName)
    | Sampling(tag: nat, attempt: nat, done: nat, sample: Sample)
    | Sampled(tag: nat, capture: Capture)
    | SnapshotRenamed(name: LookupName, capture: Capture)
    | Staged(tag: nat, next: Pointer)
    | Settled
    | Ended

  /** One installer. `preflight` is the pointer it saw before the lock, `basis` the one it re-read under it. */
  datatype Process = Process(op: Op, phase: Phase, preflight: Option<Pointer>, basis: Option<Pointer>, release: Option<ReleaseRef>,
                             active: Option<ActiveRecord>, rollback: Option<RollbackRecord>)

  datatype World = World(
    releases: map<nat, Release>,
    incoming: map<nat, Release>,        // releases/.incoming-*
    lookups: map<LookupName, Dir>,
    strays: set<nat>,                   // pointer temporaries at the top level
    pointer: Option<Pointer>,
    lock: Option<nat>,
    processes: map<nat, Process>,
    seen: set<LookupName>,              // lookups some runtime process has resolved
    touched: set<LookupName>,           // lookups some runtime process has written
    history: seq<Pointer>)              // every value the pointer file has had

  const EMPTY_WORLD := World(map[], map[], map[], {}, None, None, map[], {}, {}, [])

  /** What an installer leaves of the directory its current call owns when it stops. */
  datatype Cleanup = Removed | Left | Partial(dir: Dir, release: Release)

  datatype Write = Fights(bytes: Bytes) | Features(bytes: Bytes) | RuntimeManifest(manifest: Option<Manifest>)

  datatype Action =
    | Begin(p: nat, op: Op) | Acquire(p: nat) | Reread(p: nat)
    | MakeRelease(p: nat, tag: nat) | CopyRelease(p: nat) | WriteReceipt(p: nat) | RenameRelease(p: nat)
    | AcceptRelease(p: nat) | ReuseRelease(p: nat) | AlreadyActive(p: nat)
    | MakePair(p: nat, tag: nat) | CopyFile(p: nat) | RenamePair(p: nat, nonce: nat) | AcceptPair(p: nat)
    | MakeSnapshot(p: nat, tag: nat) | Read(p: nat) | Decide(p: nat) | RenameSnapshot(p: nat)
    | ReuseSnapshot(p: nat) | AcceptSnapshot(p: nat)
    | Stage(p: nat, tag: nat, now: nat) | Replace(p: nat)
    | Stop(p: nat, cleanup: Cleanup, unlock: bool)
    | BreakLock | Sweep(tag: nat)
    | Resolve | RuntimeWrite(name: LookupName, write: Write)

  const NO_SAMPLE := Sample(Identity([], []), None, Identity([], []), None, Identity([], []), None)

  // ---- helpers over one installer ----

  predicate At(w: World, p: nat, phase: Phase) {
    p in w.processes && w.processes[p].phase == phase
  }

  function Set(w: World, p: nat, pr: Process): World {
    w.(processes := w.processes[p := pr])
  }

  function Source(op: Op): Option<Content> {
    match op
    case Rollback(_, _) => None
    case _ => Some(op.source)
  }

  /** The pair a new generation is copied from: the release seed, or for a rollback the sealed snapshot. */
  function FreshPair(pr: Process): Option<Identity> {
    if pr.op.Rollback? then
      if pr.basis.Some? && pr.basis.value.rollback.Some? then Some(pr.basis.value.rollback.value.capture.identity) else None
    else if pr.release.Some? then Some(pr.release.value.content.seed)
    else None
  }

  /** A rollback copies its pair after it has taken the outgoing snapshot; the others before. */
  predicate PairDue(pr: Process) {
    && pr.phase == Between && pr.active.None? && pr.release.Some?
    && (pr.op.Rollback? ==> pr.rollback.Some?)
  }

  predicate SnapshotDue(pr: Process) {
    && pr.phase == Between && pr.rollback.None? && pr.basis.Some?
    && (pr.op.Rollback? || (pr.op.Promote? && pr.active.Some?))
  }

  predicate StageDue(pr: Process) {
    && pr.phase == Between && pr.active.Some?
    && (pr.op.Promote? || pr.op.Rollback? ==> pr.rollback.Some?)
    && (pr.op.Initialize? || pr.op.Handover? ==> pr.rollback.None?)
  }

  function CauseOf(op: Op): Cause {
    match op
    case Initialize(_) => Initialized
    case Promote(_, _, _) => Promoted
    case Handover(_, _) => HandedOver
    case Rollback(_, _) => RolledBack
  }

  // ---- the steps ----

  /** Preflight: the top level holds nothing unexpected, and the pointer, if one is needed, validates and is
      what the caller expects. */
  function DoBegin(n: Names, w: World, p: nat, op: Op): Option<World> {
    if p in w.processes || w.strays != {} then None
    else if op.Initialize? then Some(Set(w, p, Process(op, Ready, None, None, None, None, None)))
    else if w.pointer.None? || !Readable(n, w.releases, w.lookups, w.pointer.value) then None
    else
      var ptr := w.pointer.value;
      if ptr.active.release != op.expected then None
      else if op.Rollback? && (ptr.rollback.None? || ptr.rollback.value.release != op.target) then None
      else if op.Promote? && PairOf(w.lookups[ptr.active.lookup]) != op.approved then None
      else if op.Handover? && n.release(op.source.source) == ptr.active.release.rid then None
      else Some(Set(w, p, Process(op, Ready, Some(ptr), None, None, None, None)))
  }

  /** O_EXCL creation of the lock file. */
  function DoAcquire(w: World, p: nat): Option<World> {
    if !At(w, p, Ready) || w.lock.Some? then None
    else Some(Set(w.(lock := Some(p)), p, w.processes[p].(phase := Locked)))
  }

  /** The re-read under the lock. Promotion compares only the active record, rollback both records, the
      handover the whole pointer; initialization wants no pointer and nothing in either directory. */
  function DoReread(n: Names, w: World, p: nat): Option<World> {
    if !At(w, p, Locked) then None
    else
      var pr := w.processes[p];
      if pr.op.Initialize? then
        if w.pointer.None? && w.strays == {} && w.releases == map[] && w.incoming == map[] && w.lookups == map[]
        then Some(Set(w, p, pr.(phase := Between))) else None
      else if w.pointer.None? || pr.preflight.None? || !Readable(n, w.releases, w.lookups, w.pointer.value) then None
      else
        var cur := w.pointer.value;
        var pre := pr.preflight.value;
        if cur.active != pre.active then None
        else if pr.op.Promote? && w.strays != {} then None
        else if pr.op.Handover? && (cur != pre || w.strays != {}) then None
        else if pr.op.Rollback? && (cur.rollback.None? || cur.rollback != pre.rollback) then None
        else
          var release := if pr.op.Rollback? then Some(cur.rollback.value.release) else None;
          Some(Set(w, p, pr.(phase := Between, basis := Some(cur), release := release)))
  }

  function DoMakeRelease(n: Names, w: World, p: nat, tag: nat): Option<World> {
    if !At(w, p, Between) || Source(w.processes[p].op).None? || w.processes[p].release.Some? || tag in w.incoming
       || n.release(w.processes[p].op.source.source) in w.releases then None
    else
      Some(Set(w.(incoming := w.incoming[tag := Release(Content([], [], Identity([], []), []), None)]), p,
               w.processes[p].(phase := ReleaseCopying(tag))))
  }

  function DoCopyRelease(w: World, p: nat): Option<World> {
    if p !in w.processes || !w.processes[p].phase.ReleaseCopying? || Source(w.processes[p].op).None? then None
    else
      var tag := w.processes[p].phase.tag;
      Some(Set(w.(incoming := w.incoming[tag := Release(w.processes[p].op.source, None)]), p,
               w.processes[p].(phase := ReleaseCopied(tag))))
  }

  function DoWriteReceipt(w: World, p: nat): Option<World> {
    if p !in w.processes || !w.processes[p].phase.ReleaseCopied? || w.processes[p].phase.tag !in w.incoming then None
    else
      var tag := w.processes[p].phase.tag;
      var r := w.incoming[tag];
      Some(Set(w.(incoming := w.incoming[tag := r.(receipt := Some(r.content))]), p,
               w.processes[p].(phase := ReleaseReceipted(tag))))
  }

  function DoRenameRelease(n: Names, w: World, p: nat): Option<World> {
    if p !in w.processes || !w.processes[p].phase.ReleaseReceipted? || Source(w.processes[p].op).None?
       || w.processes[p].phase.tag !in w.incoming then None
    else
      var tag := w.processes[p].phase.tag;
      var rid := n.release(w.processes[p].op.source.source);
      if rid in w.releases then None
      else Some(Set(w.(releases := w.releases[rid := w.incoming[tag]], incoming := w.incoming - {tag}), p,
                    w.processes[p].(phase := ReleaseRenamed)))
  }

  function DoAcceptRelease(n: Names, w: World, p: nat): Option<World> {
    if !At(w, p, ReleaseRenamed) || Source(w.processes[p].op).None? then None
    else
      var ref := ReleaseRef(n.release(w.processes[p].op.source.source), w.processes[p].op.source);
      if !ReleaseReadable(n, w.releases, ref) then None
      else Some(Set(w, p, w.processes[p].(phase := Between, release := Some(ref))))
  }

  /** The name is taken: the release there must validate, and its receipt must name this very source manifest. */
  function DoReuseRelease(n: Names, w: World, p: nat): Option<World> {
    if !At(w, p, Between) || Source(w.processes[p].op).None? || w.processes[p].release.Some? then None
    else
      var source := w.processes[p].op.source.source;
      var rid := n.release(source);
      if rid !in w.releases then None
      else
        var ref := ReleaseRef(rid, w.releases[rid].content);
        if !ReleaseReadable(n, w.releases, ref) || ref.content.source != source then None
        else Some(Set(w, p, w.processes[p].(phase := Between, release := Some(ref))))
  }

  predicate IsAlreadyActive(pr: Process) {
    && (pr.op.Promote? || pr.op.Handover?) && pr.basis.Some? && pr.release.Some?
    && pr.release.value.rid == pr.basis.value.active.release.rid
  }

  function DoAlreadyActive(w: World, p: nat): Option<World> {
    if !At(w, p, Between) || !w.processes[p].op.Promote? || !IsAlreadyActive(w.processes[p]) then None
    else Some(Set(w, p, w.processes[p].(phase := Settled)))
  }

  function DoMakePair(w: World, p: nat, tag: nat): Option<World> {
    if p !in w.processes || !PairDue(w.processes[p]) || IsAlreadyActive(w.processes[p]) || Incoming(tag) in w.lookups then None
    else Some(Set(w.(lookups := w.lookups[Incoming(tag) := EMPTY_DIR]), p, w.processes[p].(phase := PairCopying(tag, 0))))
  }

  function DoCopyFile(w: World, p: nat): Option<World> {
    if p !in w.processes || !w.processes[p].phase.PairCopying? || FreshPair(w.processes[p]).None?
       || Incoming(w.processes[p].phase.tag) !in w.lookups || w.processes[p].phase.copied >= 2 then None
    else
      var pair := FreshPair(w.processes[p]).value;
      var tag := w.processes[p].phase.tag;
      var d := w.lookups[Incoming(tag)];
      var k := w.processes[p].phase.copied;
      var d' := if k == 0 then d.(fights := Some(pair.fights)) else d.(features := Some(pair.features));
      Some(Set(w.(lookups := w.lookups[Incoming(tag) := d']), p, w.processes[p].(phase := PairCopying(tag, k + 1))))
  }

  function DoRenamePair(w: World, p: nat, nonce: nat): Option<World> {
    if p !in w.processes || !w.processes[p].phase.PairCopying? || w.processes[p].release.None?
       || FreshPair(w.processes[p]).None? then None
    else
      var tag := w.processes[p].phase.tag;
      var name := Generation(w.processes[p].release.value.rid, nonce);
      if name in w.lookups || Incoming(tag) !in w.lookups
         || w.lookups[Incoming(tag)] != PairDir(FreshPair(w.processes[p]).value) then None
      else Some(Set(w.(lookups := (w.lookups - {Incoming(tag)})[name := w.lookups[Incoming(tag)]]), p,
                    w.processes[p].(phase := PairRenamed(name))))
  }

  function DoAcceptPair(w: World, p: nat): Option<World> {
    if p !in w.processes || !w.processes[p].phase.PairRenamed? || w.processes[p].release.None?
       || FreshPair(w.processes[p]).None? then None
    else
      var name := w.processes[p].phase.name;
      if name !in w.lookups || w.lookups[name] != PairDir(FreshPair(w.processes[p]).value) then None
      else Some(Set(w, p, w.processes[p].(phase := Between,
                    active := Some(ActiveRecord(w.processes[p].release.value, name)))))
  }

  function DoMakeSnapshot(w: World, p: nat, tag: nat): Option<World> {
    if p !in w.processes || !SnapshotDue(w.processes[p]) || Incoming(tag) in w.lookups then None
    else Some(Set(w.(lookups := w.lookups[Incoming(tag) := EMPTY_DIR]), p,
                  w.processes[p].(phase := Sampling(tag, 0, 0, NO_SAMPLE))))
  }

  /** The next of the nine reads of an attempt; reads 3, 4 and 5 also write the copy. */
  function DoRead(w: World, p: nat): Option<World> {
    if p !in w.processes || !w.processes[p].phase.Sampling? || w.processes[p].basis.None? then None
    else
      var ph := w.processes[p].phase;
      var from := w.processes[p].basis.value.active.lookup;
      if ph.done >= READS || from !in w.lookups || !HasPair(w.lookups[from]) || Incoming(ph.tag) !in w.lookups then None
      else
        var d := w.lookups[from];
        var t := w.lookups[Incoming(ph.tag)];
        var s := ph.sample;
        var s' :=
          if ph.done == 0 then s.(before := s.before.(fights := d.fights.value))
          else if ph.done == 1 then s.(before := s.before.(features := d.features.value))
          else if ph.done == 2 then s.(manifestBefore := d.manifest)
          else if ph.done == 3 then s.(copied := s.copied.(fights := d.fights.value))
          else if ph.done == 4 then s.(copied := s.copied.(features := d.features.value))
          else if ph.done == 5 then s.(manifestCopied := if s.manifestBefore.Some? then d.manifest else None)
          else if ph.done == 6 then s.(after := s.after.(fights := d.fights.value))
          else if ph.done == 7 then s.(after := s.after.(features := d.features.value))
          else s.(manifestAfter := d.manifest);
        var t' :=
          if ph.done == 3 then t.(fights := Some(s'.copied.fights))
          else if ph.done == 4 then t.(features := Some(s'.copied.features))
          else if ph.done == 5 then t.(manifest := s'.manifestCopied)
          else t;
        Some(Set(w.(lookups := w.lookups[Incoming(ph.tag) := t']), p,
                 w.processes[p].(phase := Sampling(ph.tag, ph.attempt, ph.done + 1, s'))))
  }

  function ExpectedPair(op: Op): Option<Identity> {
    if op.Promote? then Some(op.approved) else None
  }

  function DoDecide(w: World, p: nat): Option<World> {
    if p !in w.processes || !w.processes[p].phase.Sampling? || w.processes[p].phase.done != READS
       || w.processes[p].basis.None? then None
    else
      var ph := w.processes[p].phase;
      var content := w.processes[p].basis.value.active.release.content;
      match Judge(content, ExpectedPair(w.processes[p].op), ph.sample)
      case Take(c) => Some(Set(w, p, w.processes[p].(phase := Sampled(ph.tag, c))))
      case Raise => None
      case Retry =>
        if ph.attempt + 1 >= ATTEMPTS then None
        else Some(Set(w.(lookups := w.lookups[Incoming(ph.tag) := EMPTY_DIR]), p,
                      w.processes[p].(phase := Sampling(ph.tag, ph.attempt + 1, 0, NO_SAMPLE))))
  }

  function SnapshotName(n: Names, pr: Process, c: Capture): LookupName
    requires pr.basis.Some?
  {
    var rid := pr.basis.value.active.release.rid;
    Snapshot(rid, n.snapshot(rid, c))
  }

  function DoRenameSnapshot(n: Names, w: World, p: nat): Option<World> {
    if p !in w.processes || !w.processes[p].phase.Sampled? || w.processes[p].basis.None? then None
    else
      var ph := w.processes[p].phase;
      var name := SnapshotName(n, w.processes[p], ph.capture);
      if name in w.lookups || Incoming(ph.tag) !in w.lookups then None
      else Some(Set(w.(lookups := (w.lookups - {Incoming(ph.tag)})[name := w.lookups[Incoming(ph.tag)]]), p,
                    w.processes[p].(phase := SnapshotRenamed(name, ph.capture))))
  }

  function Sealed(pr: Process, name: LookupName, c: Capture): Process
    requires pr.basis.Some?
  {
    pr.(phase := Between, rollback := Some(RollbackRecord(pr.basis.value.active.release, name, c)))
  }

  /** A snapshot with that name exists: it is reused only if it is exactly this capture. */
  function DoReuseSnapshot(n: Names, w: World, p: nat): Option<World> {
    if p !in w.processes || !w.processes[p].phase.Sampled? || w.processes[p].basis.None? then None
    else
      var ph := w.processes[p].phase;
      var name := SnapshotName(n, w.processes[p], ph.capture);
      if name !in w.lookups || w.lookups[name] != CaptureDir(ph.capture) then None
      else Some(Set(w.(lookups := w.lookups - {Incoming(ph.tag)}), p, Sealed(w.processes[p], name, ph.capture)))
  }

  function DoAcceptSnapshot(w: World, p: nat): Option<World> {
    if p !in w.processes || !w.processes[p].phase.SnapshotRenamed? || w.processes[p].basis.None? then None
    else
      var ph := w.processes[p].phase;
      if ph.name !in w.lookups || w.lookups[ph.name] != CaptureDir(ph.capture) then None
      else Some(Set(w, p, Sealed(w.processes[p], ph.name, ph.capture)))
  }

  /** Write the pointer temporary beside the pointer. */
  function DoStage(n: Names, w: World, p: nat, tag: nat, now: nat): Option<World> {
    if p !in w.processes || !StageDue(w.processes[p]) || tag in w.strays then None
    else
      var pr := w.processes[p];
      var next := Pointer(now, CauseOf(pr.op), pr.active.value, pr.rollback);
      if next.rollback.Some? && !RollbackReadable(n, w.releases, w.lookups, next.rollback.value) then None
      else Some(Set(w.(strays := w.strays + {tag}), p, pr.(phase := Staged(tag, next))))
  }

  /** os.replace of the temporary onto the pointer. */
  function DoReplace(w: World, p: nat): Option<World> {
    if p !in w.processes || !w.processes[p].phase.Staged? then None
    else
      var ph := w.processes[p].phase;
      Some(Set(w.(strays := w.strays - {ph.tag}, pointer := Some(ph.next), history := w.history + [ph.next]), p,
               w.processes[p].(phase := Settled)))
  }

  function CleanDir(lookups: map<LookupName, Dir>, name: LookupName, c: Cleanup): map<LookupName, Dir> {
    match c
    case Removed => lookups - {name}
    case Left => lookups
    case Partial(d, _) => if name in lookups then lookups[name := d] else lookups
  }

  function CleanRelease(releases: map<nat, Release>, rid: nat, c: Cleanup): map<nat, Release> {
    match c
    case Removed => releases - {rid}
    case Left => releases
    case Partial(_, r) => if rid in releases then releases[rid := r] else releases
  }

  /** The cleanup of the one directory the current call has created. */
  function CleanUp(n: Names, w: World, pr: Process, c: Cleanup): World {
    match pr.phase
    case ReleaseCopying(tag) => w.(incoming := CleanRelease(w.incoming, tag, c))
    case ReleaseCopied(tag) => w.(incoming := CleanRelease(w.incoming, tag, c))
    case ReleaseReceipted(tag) => w.(incoming := CleanRelease(w.incoming, tag, c))
    case ReleaseRenamed =>
      if Source(pr.op).Some? then w.(releases := CleanRelease(w.releases, n.release(pr.op.source.source), c)) else w
    case PairCopying(tag, _) => w.(lookups := CleanDir(w.lookups, Incoming(tag), c))
    case PairRenamed(name) => w.(lookups := CleanDir(w.lookups, name, c))
    case Sampling(tag, _, _, _) => w.(lookups := CleanDir(w.lookups, Incoming(tag), c))
    case Sampled(tag, _) => w.(lookups := CleanDir(w.lookups, Incoming(tag), c))
    case SnapshotRenamed(name, _) => w.(lookups := CleanDir(w.lookups, name, c))
    case Staged(tag, _) => if c.Removed? then w.(strays := w.strays - {tag}) else w
    case _ => w
  }

  predicate Live(phase: Phase) {
    !phase.Ready? && !phase.Ended?
  }

  /** The operation returns, raises or dies. `unlock` is false when it dies or cannot unlink the lock file. */
  function DoStop(n: Names, w: World, p: nat, c: Cleanup, unlock: bool): Option<World> {
    if p !in w.processes || w.processes[p].phase.Ended? then None
    else
      var w' := CleanUp(n, w, w.processes[p], c);
      var lock' := if unlock && Live(w.processes[p].phase) then None else w.lock;
      Some(Set(w'.(lock := lock'), p, w.processes[p].(phase := Ended)))
  }

  /** The operator removes the lock of an installer that is gone. */
  function DoBreakLock(w: World): Option<World> {
    if w.lock.None? || w.lock.value !in w.processes || !w.processes[w.lock.value].phase.Ended? then None
    else Some(w.(lock := None))
  }

  /** The operator removes a leftover pointer temporary while no installer holds the lock. */
  function DoSweep(w: World, tag: nat): Option<World> {
    if w.lock.Some? || tag !in w.strays then None else Some(w.(strays := w.strays - {tag}))
  }

  /** A runtime process resolves the pointer and from then on may write in the lookup it names, forever. */
  function DoResolve(w: World): Option<World> {
    if w.pointer.None? then None else Some(w.(seen := w.seen + {w.pointer.value.active.lookup}))
  }

  function Written(d: Dir, write: Write): Dir {
    match write
    case Fights(b) => d.(fights := Some(b))
    case Features(b) => d.(features := Some(b))
    case RuntimeManifest(m) => d.(manifest := m)
  }

  function DoRuntimeWrite(w: World, name: LookupName, write: Write): Option<World> {
    if name !in w.seen || name !in w.lookups then None
    else Some(w.(lookups := w.lookups[name := Written(w.lookups[name], write)], touched := w.touched + {name}))
  }

  /** The world after an action, or None when the action is not possible. */
  function Next(n: Names, w: World, a: Action): Option<World> {
    match a
    case Begin(p, op) => DoBegin(n, w, p, op)
    case Acquire(p) => DoAcquire(w, p)
    case Reread(p) => DoReread(n, w, p)
    case MakeRelease(p, tag) => DoMakeRelease(n, w, p, tag)
    case CopyRelease(p) => DoCopyRelease(w, p)
    case WriteReceipt(p) => DoWriteReceipt(w, p)
    case RenameRelease(p) => DoRenameRelease(n, w, p)
    case AcceptRelease(p) => DoAcceptRelease(n, w, p)
    case ReuseRelease(p) => DoReuseRelease(n, w, p)
    case AlreadyActive(p) => DoAlreadyActive(w, p)
    case MakePair(p, tag) => DoMakePair(w, p, tag)
    case CopyFile(p) => DoCopyFile(w, p)
    case RenamePair(p, nonce) => DoRenamePair(w, p, nonce)
    case AcceptPair(p) => DoAcceptPair(w, p)
    case MakeSnapshot(p, tag) => DoMakeSnapshot(w, p, tag)
    case Read(p) => DoRead(w, p)
    case Decide(p) => DoDecide(w, p)
    case RenameSnapshot(p) => DoRenameSnapshot(n, w, p)
    case ReuseSnapshot(p) => DoReuseSnapshot(n, w, p)
    case AcceptSnapshot(p) => DoAcceptSnapshot(w, p)
    case Stage(p, tag, now) => DoStage(n, w, p, tag, now)
    case Replace(p) => DoReplace(w, p)
    case Stop(p, c, unlock) => DoStop(n, w, p, c, unlock)
    case BreakLock => DoBreakLock(w)
    case Sweep(tag) => DoSweep(w, tag)
    case Resolve => DoResolve(w)
    case RuntimeWrite(name, write) => DoRuntimeWrite(w, name, write)
  }

  /** A run: every action in turn is possible. None when one is not. */
  function Run(n: Names, w: World, actions: seq<Action>): Option<World> {
    if actions == [] then Some(w)
    else
      match Run(n, w, actions[..|actions| - 1])
      case None => None
      case Some(v) => Next(n, v, actions[|actions| - 1])
  }
}
