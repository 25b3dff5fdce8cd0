/** What every reachable state of the store satisfies. */
module StoreInvariant {
  import opened Common
  import opened StoreTypes
  import opened SnapshotCapture
  import opened StoreMachine

  ghost predicate NamesLookup(h: seq<Pointer>, name: LookupName) {
    exists k | 0 <= k < |h| :: h[k].active.lookup == name || (h[k].rollback.Some? && h[k].rollback.value.lookup == name)
  }

  ghost predicate NamesRelease(h: seq<Pointer>, rid: nat) {
    exists k | 0 <= k < |h| ::
      h[k].active.release.rid == rid || (h[k].rollback.Some? && h[k].rollback.value.release.rid == rid)
  }

  /** The pair activation k started from: what the previous pointer's snapshot pinned, if it is a
      rollback, and otherwise the seed of its release. */
  ghost function InitialPair(h: seq<Pointer>, k: nat): Identity
    requires k < |h|
  {
    if h[k].action == RolledBack && k > 0 && h[k - 1].rollback.Some? then h[k - 1].rollback.value.capture.identity
    else h[k].active.release.content.seed
  }

  /** How a pointer may follow another: an ordinary promotion retains the outgoing release as rollback, the
      paused handover retains none, and a rollback exchanges the two releases. */
  ghost predicate Follows(prev: Pointer, next: Pointer) {
    match next.action
    case Initialized => false
    case Promoted =>
      && next.active.release.rid != prev.active.release.rid
      && next.rollback.Some? && next.rollback.value.release == prev.active.release
    case HandedOver =>
      next.active.release.rid != prev.active.release.rid && next.rollback.None?
    case RolledBack =>
      && prev.rollback.Some? && next.rollback.Some?
      && next.active.release == prev.rollback.value.release
      && next.rollback.value.release == prev.active.release
  }

  ghost predicate Chain(h: seq<Pointer>) {
    && (h != [] ==> h[0].action == Initialized && h[0].rollback == None)
    && (forall k {:trigger h[k]} | 0 < k < |h| :: Follows(h[k - 1], h[k]))
  }

  ghost predicate Distinct(h: seq<Pointer>) {
    forall i, j | 0 <= i < j < |h| :: h[i].active.lookup != h[j].active.lookup
  }

  ghost predicate Shaped(ptr: Pointer) {
    ptr.active.lookup.Generation? && (ptr.rollback.Some? ==> ptr.rollback.value.lookup.Snapshot?)
  }

  /** Every pointer value there has ever been still validates. */
  ghost predicate AllReadable(n: Names, w: World) {
    forall k | 0 <= k < |w.history| :: Readable(n, w.releases, w.lookups, w.history[k]) && Shaped(w.history[k])
  }

  ghost predicate PointerIsLast(w: World) {
    w.pointer == if w.history == [] then None else Some(w.history[|w.history| - 1])
  }

  /** A lookup no runtime has written still holds the pair it was activated with. */
  ghost predicate Served(w: World) {
    forall k {:trigger w.history[k]} | 0 <= k < |w.history| && w.history[k].active.lookup !in w.touched ::
      w.history[k].active.lookup in w.lookups
      && w.lookups[w.history[k].active.lookup] == PairDir(InitialPair(w.history, k))
  }

  /** A snapshot of a lookup no runtime has written holds the pair that lookup was activated with. */
  ghost predicate Faithful(w: World) {
    forall k {:trigger w.history[k]} |
      0 < k < |w.history| && w.history[k].rollback.Some? && w.history[k - 1].active.lookup !in w.touched ::
      w.history[k].rollback.value.capture == Capture(InitialPair(w.history, k - 1), None)
  }

  ghost predicate SeenNamed(w: World) {
    && w.touched <= w.seen
    && forall name | name in w.seen :: exists k | 0 <= k < |w.history| :: w.history[k].active.lookup == name
  }

  ghost predicate GlobalInv(n: Names, w: World) {
    && AllReadable(n, w) && PointerIsLast(w) && Chain(w.history) && Distinct(w.history)
    && Served(w) && Faithful(w) && SeenNamed(w)
  }

  ghost predicate OneHolder(w: World) {
    forall p | p in w.processes && Live(w.processes[p].phase) :: w.lock == Some(p)
  }

  /** The phases in which an installer has re-read the pointer and not yet replaced it. */
  predicate Past(phase: Phase) {
    Live(phase) && !phase.Locked? && !phase.Settled?
  }

  ghost predicate Fresh(w: World, name: LookupName, pair: Identity) {
    && name.Generation? && name in w.lookups && w.lookups[name] == PairDir(pair)
    && !NamesLookup(w.history, name)
  }

  ghost predicate CapturedOK(w: World, basis: Pointer, c: Capture) {
    && Coherent(basis.active.release.content, c)
    && (w.history != [] && basis.active.lookup !in w.touched ==>
          c == Capture(InitialPair(w.history, |w.history| - 1), None))
  }

  ghost predicate SnapshotOK(w: World, basis: Pointer, name: LookupName, c: Capture) {
    && name.Snapshot? && name in w.lookups && w.lookups[name] == CaptureDir(c) && CapturedOK(w, basis, c)
  }

  ghost predicate SampleOK(w: World, basis: Pointer, tag: nat, done: nat, s: Sample) {
    && done <= READS
    && Incoming(tag) in w.lookups
    && w.lookups[Incoming(tag)] == Dir(if done > 3 then Some(s.copied.fights) else None,
                                       if done > 4 then Some(s.copied.features) else None,
                                       if done > 5 then s.manifestCopied else None)
    && (w.history != [] && basis.active.lookup !in w.touched ==>
          var pair := InitialPair(w.history, |w.history| - 1);
          && (done > 2 ==> s.manifestBefore == None)
          && (done > 3 ==> s.copied.fights == pair.fights)
          && (done > 4 ==> s.copied.features == pair.features)
          && (done > 5 ==> s.manifestCopied == None))
  }

  ghost predicate PhaseOK(n: Names, w: World, pr: Process) {
    match pr.phase
    case ReleaseCopying(tag) => pr.release.None? && Source(pr.op).Some? && tag in w.incoming
    case ReleaseCopied(tag) =>
      pr.release.None? && Source(pr.op).Some? && tag in w.incoming && w.incoming[tag] == Release(pr.op.source, None)
    case ReleaseReceipted(tag) =>
      pr.release.None? && Source(pr.op).Some? && tag in w.incoming && w.incoming[tag] == Release(pr.op.source, Some(pr.op.source))
    case ReleaseRenamed =>
      pr.release.None? && Source(pr.op).Some? && !NamesRelease(w.history, n.release(pr.op.source.source))
    case PairCopying(tag, copied) => !IsAlreadyActive(pr)
    case PairRenamed(name) =>
      pr.release.Some? && FreshPair(pr).Some? && Fresh(w, name, FreshPair(pr).value) && !IsAlreadyActive(pr)
    case Sampling(tag, attempt, done, s) =>
      pr.basis.Some? && (pr.op.Promote? || pr.op.Rollback?) && SampleOK(w, pr.basis.value, tag, done, s)
    case Sampled(tag, c) =>
      && Matches(ExpectedPair(pr.op), c.identity)
      && pr.basis.Some? && (pr.op.Promote? || pr.op.Rollback?)
      && Incoming(tag) in w.lookups && w.lookups[Incoming(tag)] == CaptureDir(c) && CapturedOK(w, pr.basis.value, c)
    case SnapshotRenamed(name, c) =>
      && Matches(ExpectedPair(pr.op), c.identity)
      && pr.basis.Some? && (pr.op.Promote? || pr.op.Rollback?)
      && SnapshotOK(w, pr.basis.value, name, c) && !NamesLookup(w.history, name)
    case Staged(tag, next) =>
      && pr.active.Some? && next.active == pr.active.value && next.rollback == pr.rollback && next.action == CauseOf(pr.op)
      && (pr.op.Promote? || pr.op.Rollback? <==> pr.rollback.Some?)
    case _ => true
  }

  /** What the preflight saw is what the operation was told to expect. */
  ghost predicate PreflightOK(pr: Process) {
    && (pr.op.Initialize? <==> pr.preflight.None?)
    && (!pr.op.Initialize? ==> pr.preflight.value.active.release == pr.op.expected)
    && (pr.op.Rollback? ==> pr.preflight.value.rollback.Some? && pr.preflight.value.rollback.value.release == pr.op.target)
  }

  /** The pointer re-read under the lock is the one the preflight saw. */
  ghost predicate ConfirmedOK(pr: Process) {
    && (pr.op.Initialize? <==> pr.basis.None?)
    && (!pr.op.Initialize? ==> pr.preflight.Some? && pr.basis.value.active == pr.preflight.value.active)
    && (pr.op.Rollback? ==> pr.basis.value.rollback == pr.preflight.value.rollback)
  }

  ghost predicate FieldsOK(n: Names, w: World, pr: Process) {
    && pr.basis == w.pointer && ConfirmedOK(pr)
    && (pr.op.Rollback? ==> pr.basis.value.rollback.Some? && pr.release == Some(pr.basis.value.rollback.value.release))
    && (pr.release.Some? ==> ReleaseReadable(n, w.releases, pr.release.value))
    && (pr.release.Some? && Source(pr.op).Some? ==> pr.release.value.content.source == pr.op.source.source)
    && (pr.active.Some? ==>
      && pr.release.Some? && pr.active.value.release == pr.release.value && !IsAlreadyActive(pr)
      && FreshPair(pr).Some? && Fresh(w, pr.active.value.lookup, FreshPair(pr).value))
    && (pr.rollback.Some? ==>
      && pr.basis.Some? && (pr.op.Promote? || pr.op.Rollback?)
      && pr.rollback.value.release == pr.basis.value.active.release
      && Matches(ExpectedPair(pr.op), pr.rollback.value.capture.identity)
      && SnapshotOK(w, pr.basis.value, pr.rollback.value.lookup, pr.rollback.value.capture))
  }

  ghost predicate StartOK(pr: Process) {
    pr.basis == None && pr.release == None && pr.active == None && pr.rollback == None
  }

  ghost predicate HolderOK(n: Names, w: World, pr: Process) {
    && PreflightOK(pr)
    && (pr.phase.Ready? || pr.phase.Locked? ==> StartOK(pr))
    && (Past(pr.phase) ==> FieldsOK(n, w, pr) && PhaseOK(n, w, pr))
  }

  ghost predicate HoldersOK(n: Names, w: World) {
    forall p | p in w.processes :: HolderOK(n, w, w.processes[p])
  }

  ghost predicate Inv(n: Names, w: World) {
    GlobalInv(n, w) && OneHolder(w) && HoldersOK(n, w)
  }

  // ---- frame ----

  ghost predicate Agree(w: World, w': World) {
    && w'.history == w.history && w'.pointer == w.pointer && w'.seen == w.seen && w'.touched == w.touched
    && (forall rid | NamesRelease(w.history, rid) && rid in w.releases ::
          rid in w'.releases && w'.releases[rid] == w.releases[rid])
    && (forall name | NamesLookup(w.history, name) && name in w.lookups ::
          name in w'.lookups && w'.lookups[name] == w.lookups[name])
  }

  lemma GlobalFrame(n: Names, w: World, w': World)
    requires GlobalInv(n, w) && Agree(w, w')
    ensures GlobalInv(n, w')
  {
    hide AllReadable, Chain, Served, Faithful;
    HistoryFrame(n, w, w');
    ServedFrame(n, w, w');
  }

  lemma HistoryFrame(n: Names, w: World, w': World)
    requires GlobalInv(n, w) && Agree(w, w')
    ensures AllReadable(n, w')
  {
    hide Chain, SeenNamed, Served, Faithful;
    forall k | 0 <= k < |w.history|
      ensures Readable(n, w'.releases, w'.lookups, w'.history[k]) && Shaped(w'.history[k])
    {
      var ptr := w.history[k];
      assert Readable(n, w.releases, w.lookups, ptr);
      assert NamesRelease(w.history, ptr.active.release.rid);
      assert NamesLookup(w.history, ptr.active.lookup);
      if ptr.rollback.Some? {
        assert NamesRelease(w.history, ptr.rollback.value.release.rid);
        assert NamesLookup(w.history, ptr.rollback.value.lookup);
      }
    }
  }

  lemma ServedFrame(n: Names, w: World, w': World)
    requires GlobalInv(n, w) && Agree(w, w')
    ensures Served(w') && Faithful(w')
  {
    hide Readable, Chain, SeenNamed;
    forall k {:trigger w'.history[k]} | 0 <= k < |w'.history| && w'.history[k].active.lookup !in w'.touched
      ensures w'.history[k].active.lookup in w'.lookups
      ensures w'.lookups[w'.history[k].active.lookup] == PairDir(InitialPair(w'.history, k))
    {
      assert NamesLookup(w.history, w.history[k].active.lookup);
    }
  }

  /** What a named thing is: present. So a name that is free is named by no pointer. */
  lemma NamedIsPresent(n: Names, w: World)
    requires AllReadable(n, w)
    ensures forall rid | NamesRelease(w.history, rid) :: rid in w.releases
    ensures forall name | NamesLookup(w.history, name) :: name in w.lookups && !name.Incoming?
    ensures forall k | 0 <= k < |w.history| :: NamesLookup(w.history, w.history[k].active.lookup)
  {
  }

  /** A step of the lock holder p that leaves every named release and lookup alone, and no longer disturbs
      the others, keeps the invariant if p itself is in order. */
  lemma HolderStep(n: Names, w: World, w': World, p: nat, pr: Process)
    requires Inv(n, w) && Agree(w, w')
    requires p in w.processes && Live(w.processes[p].phase)
    requires w'.processes == w.processes[p := pr]
    requires Live(pr.phase) ==> w'.lock == Some(p)
    requires HolderOK(n, w', pr)
    ensures Inv(n, w')
  {
    GlobalFrame(n, w, w');
    forall q | q in w'.processes
      ensures HolderOK(n, w', w'.processes[q]) && (Live(w'.processes[q].phase) ==> w'.lock == Some(q))
    {
      if q != p {
        assert w.lock == Some(p);
        assert !Live(w.processes[q].phase);
      }
    }
  }
}
