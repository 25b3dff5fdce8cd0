/** The store's operations run from start to end with nobody interfering. Every file operation is a step of
    the store machine, so what holds of all its runs holds here; what is added is exactly when an
    operation succeeds and what it then has done. */
module StoreSession {
  import opened Common
  import opened StoreTypes
  import opened SnapshotCapture
  import opened StoreMachine
  import opened StoreInvariant
  import opened StoreTheorems

  /** The sample an undisturbed attempt has gathered after k reads of d. */
  function Gathered(d: Dir, k: nat): Sample
    requires HasPair(d)
  {
    var none: Option<Manifest> := None;
    var f, g := d.fights.value, d.features.value;
    Sample(Identity(if k > 0 then f else [], if k > 1 then g else []), if k > 2 then d.manifest else none,
           Identity(if k > 3 then f else [], if k > 4 then g else []), if k > 5 then d.manifest else none,
           Identity(if k > 6 then f else [], if k > 7 then g else []), if k > 8 then d.manifest else none)
  }

  function GatheredCopy(d: Dir, k: nat): Dir
    requires HasPair(d)
  {
    Dir(if k > 3 then d.fights else None, if k > 4 then d.features else None, if k > 5 then d.manifest else None)
  }

  function PairSoFar(pair: Identity, k: nat): Dir {
    Dir(if k > 0 then Some(pair.fights) else None, if k > 1 then Some(pair.features) else None, None)
  }

  /** The snapshot name for a capture is free, or holds exactly that capture already. */
  predicate SnapshotFits(n: Names, w: World, rid: nat, c: Capture) {
    var name := Snapshot(rid, n.snapshot(rid, c));
    name in w.lookups ==> w.lookups[name] == CaptureDir(c)
  }

  /** What the outgoing snapshot needs of the active lookup. */
  predicate SnapshotPossible(n: Names, w: World, active: ActiveRecord, expected: Option<Identity>) {
    && active.lookup in w.lookups
    && Capturable(active.release.content, w.lookups[active.lookup])
    && Matches(expected, PairOf(w.lookups[active.lookup]))
    && SnapshotFits(n, w, active.release.rid, CaptureOf(w.lookups[active.lookup]))
  }

  function CaptureOf(d: Dir): Capture
    requires HasPair(d)
  {
    Capture(PairOf(d), d.manifest)
  }

  function SnapshotRecord(n: Names, active: ActiveRecord, c: Capture): RollbackRecord {
    RollbackRecord(active.release, Snapshot(active.release.rid, n.snapshot(active.release.rid, c)), c)
  }

  /** Exactly when an undisturbed rollback succeeds. */
  predicate RollbackPossible(n: Names, w: World, expected: ReleaseRef, target: ReleaseRef, nonce: nat) {
    && w.strays == {} && w.lock.None? && w.pointer.Some? && w.pointer.value.active.release == expected
    && w.pointer.value.rollback.Some? && w.pointer.value.rollback.value.release == target
    && SnapshotPossible(n, w, w.pointer.value.active, None)
    && Generation(target.rid, nonce) !in w.lookups
  }

  lemma QuietVerdict(content: Content, expected: Option<Identity>, d: Dir)
    requires HasPair(d)
    ensures var v := Judge(content, expected, Gathered(d, READS));
            (v.Take? <==> Capturable(content, d) && Matches(expected, PairOf(d))) && (v.Take? ==> v.capture == CaptureOf(d))
  {
  }

  /** What `_publish_release` comes back with: a new release, the same release found installed, or nothing
      when the name is taken by anything else. */
  function ReleaseFor(n: Names, w: World, source: Content): Option<ReleaseRef> {
    var rid := n.release(source.source);
    if rid !in w.releases then Some(ReleaseRef(rid, source))
    else
      var ref := ReleaseRef(rid, w.releases[rid].content);
      if ReleaseReadable(n, w.releases, ref) && ref.content.source == source.source then Some(ref) else None
  }

  /** Each action means its own step. Stated apart so that the methods below need not look at all of them. */
  lemma Dispatch(n: Names)
    ensures forall w, p: nat, tag: nat {:trigger Next(n, w, MakeRelease(p, tag))} :: Next(n, w, MakeRelease(p, tag)) == DoMakeRelease(n, w, p, tag)
    ensures forall w, p: nat {:trigger Next(n, w, CopyRelease(p))} :: Next(n, w, CopyRelease(p)) == DoCopyRelease(w, p)
    ensures forall w, p: nat {:trigger Next(n, w, WriteReceipt(p))} :: Next(n, w, WriteReceipt(p)) == DoWriteReceipt(w, p)
    ensures forall w, p: nat {:trigger Next(n, w, RenameRelease(p))} :: Next(n, w, RenameRelease(p)) == DoRenameRelease(n, w, p)
    ensures forall w, p: nat {:trigger Next(n, w, AcceptRelease(p))} :: Next(n, w, AcceptRelease(p)) == DoAcceptRelease(n, w, p)
    ensures forall w, p: nat {:trigger Next(n, w, ReuseRelease(p))} :: Next(n, w, ReuseRelease(p)) == DoReuseRelease(n, w, p)
    ensures forall w, p: nat {:trigger Next(n, w, AlreadyActive(p))} :: Next(n, w, AlreadyActive(p)) == DoAlreadyActive(w, p)
    ensures forall w, p: nat, tag: nat {:trigger Next(n, w, MakePair(p, tag))} :: Next(n, w, MakePair(p, tag)) == DoMakePair(w, p, tag)
    ensures forall w, p: nat {:trigger Next(n, w, CopyFile(p))} :: Next(n, w, CopyFile(p)) == DoCopyFile(w, p)
    ensures forall w, p: nat, nonce: nat {:trigger Next(n, w, RenamePair(p, nonce))} :: Next(n, w, RenamePair(p, nonce)) == DoRenamePair(w, p, nonce)
    ensures forall w, p: nat {:trigger Next(n, w, AcceptPair(p))} :: Next(n, w, AcceptPair(p)) == DoAcceptPair(w, p)
    ensures forall w, p: nat, tag: nat {:trigger Next(n, w, MakeSnapshot(p, tag))} :: Next(n, w, MakeSnapshot(p, tag)) == DoMakeSnapshot(w, p, tag)
    ensures forall w, p: nat {:trigger Next(n, w, Read(p))} :: Next(n, w, Read(p)) == DoRead(w, p)
    ensures forall w, p: nat {:trigger Next(n, w, Decide(p))} :: Next(n, w, Decide(p)) == DoDecide(w, p)
    ensures forall w, p: nat {:trigger Next(n, w, RenameSnapshot(p))} :: Next(n, w, RenameSnapshot(p)) == DoRenameSnapshot(n, w, p)
    ensures forall w, p: nat {:trigger Next(n, w, ReuseSnapshot(p))} :: Next(n, w, ReuseSnapshot(p)) == DoReuseSnapshot(n, w, p)
    ensures forall w, p: nat {:trigger Next(n, w, AcceptSnapshot(p))} :: Next(n, w, AcceptSnapshot(p)) == DoAcceptSnapshot(w, p)
    ensures forall w, p: nat {:trigger Next(n, w, Replace(p))} :: Next(n, w, Replace(p)) == DoReplace(w, p)
    ensures forall w, p: nat {:trigger Next(n, w, Acquire(p))} :: Next(n, w, Acquire(p)) == DoAcquire(w, p)
    ensures forall w, p: nat {:trigger Next(n, w, Reread(p))} :: Next(n, w, Reread(p)) == DoReread(n, w, p)
    ensures forall w, p: nat, tag: nat, now: nat {:trigger Next(n, w, Stage(p, tag, now))} :: Next(n, w, Stage(p, tag, now)) == DoStage(n, w, p, tag, now)
    ensures forall w, p: nat, op {:trigger Next(n, w, Begin(p, op))} :: Next(n, w, Begin(p, op)) == DoBegin(n, w, p, op)
    ensures forall w, p: nat, c, unlock {:trigger Next(n, w, Stop(p, c, unlock))} :: Next(n, w, Stop(p, c, unlock)) == DoStop(n, w, p, c, unlock)
  {
    hide DoAcceptPair, DoAcceptRelease, DoAcceptSnapshot, DoAcquire, DoAlreadyActive, DoBegin, DoCopyFile, DoCopyRelease, DoDecide, DoMakePair, DoMakeRelease, DoMakeSnapshot;
    hide DoRead, DoRenamePair, DoRenameRelease, DoRenameSnapshot, DoReplace, DoReread, DoReuseRelease, DoReuseSnapshot, DoStage, DoStop, DoWriteReceipt;
  }

  /** The preflight goes through, given that the pointer validates. */
  predicate PreflightPasses(n: Names, w: World, op: Op) {
    && w.strays == {}
    && (!op.Initialize? ==>
      && w.pointer.Some? && w.pointer.value.active.release == op.expected
      && (op.Rollback? ==>
        w.pointer.value.rollback.Some? && w.pointer.value.rollback.value.release == op.target)
      && (op.Promote? ==>
        && w.pointer.value.active.lookup in w.lookups && HasPair(w.lookups[w.pointer.value.active.lookup])
        && PairOf(w.lookups[w.pointer.value.active.lookup]) == op.approved)
      && (op.Handover? ==> n.release(op.source.source) != w.pointer.value.active.release.rid))
  }

  /** Preflight, lock and re-read all go through, undisturbed. */
  predicate Enterable(n: Names, w: World, op: Op) {
    && PreflightPasses(n, w, op)
    && w.lock.None?
    && (op.Initialize? ==> w.pointer.None? && w.releases == map[] && w.incoming == map[] && w.lookups == map[])
  }

  /** The installer at the start, and once it holds the lock and has re-read the pointer. */
  function Entering(w: World, op: Op): Process {
    Process(op, Ready, if op.Initialize? then None else w.pointer, None, None, None, None)
  }

  function Entered(w: World, op: Op): Process
    requires op.Rollback? ==> w.pointer.Some? && w.pointer.value.rollback.Some?
  {
    Entering(w, op).(phase := Between, basis := Entering(w, op).preflight, release := if op.Rollback? then Some(w.pointer.value.rollback.value.release) else None)
  }

  /** Nothing that was there is gone or changed, and the pointer has not moved. */
  predicate Untouched(w: World, w': World) {
    && w'.pointer == w.pointer && w'.history == w.history && w'.strays == w.strays
    && w'.seen == w.seen && w'.touched == w.touched
    && (forall rid | rid in w.releases :: rid in w'.releases && w'.releases[rid] == w.releases[rid])
    && (forall name | name in w.lookups :: name in w'.lookups && w'.lookups[name] == w.lookups[name])
  }

  datatype Outcome = Refused | AlreadyThere | Moved

  /** What an undisturbed promotion comes to. */
  function PromoteOutcome(n: Names, w: World, source: Content, expected: ReleaseRef, approved: Identity, nonce: nat): Outcome {
    if !Enterable(n, w, Promote(source, expected, approved)) || ReleaseFor(n, w, source).None? then Refused
    else if ReleaseFor(n, w, source).value.rid == expected.rid then AlreadyThere
    else if Generation(ReleaseFor(n, w, source).value.rid, nonce) !in w.lookups
            && SnapshotPossible(n, w, w.pointer.value.active, Some(approved)) then Moved
    else Refused
  }

  /** The installer session: the store, and the steps taken so far since it was empty. */
  class Session {
    const n: Names
    var w: World
    ghost var log: seq<Action>

    ghost predicate Valid()
      reads this
    {
      Run(n, EMPTY_WORLD, log) == Some(w)
    }

    constructor (n: Names)
      ensures Valid() && this.n == n && w == EMPTY_WORLD
    {
      this.n := n;
      w := EMPTY_WORLD;
      log := [];
    }

    method Step(a: Action)
      requires Valid() && Next(n, w, a).Some?
      modifies this
      ensures Valid() && w == Next(n, old(w), a).value && log == old(log) + [a]
    {
      w := Next(n, w, a).value;
      log := log + [a];
      assert log[..|log| - 1] == old(log);
    }

    /** mkdtemp and the two CSV copies. */
    method FillPair(p: nat, tag: nat)
      requires Valid() && p in w.processes && PairDue(w.processes[p]) && !IsAlreadyActive(w.processes[p])
      requires FreshPair(w.processes[p]).Some? && Incoming(tag) !in w.lookups
      modifies this
      ensures Valid()
      ensures w == old(w).(lookups := old(w).lookups[Incoming(tag) := PairDir(FreshPair(old(w).processes[p]).value)],
                           processes := old(w).processes[p := old(w).processes[p].(phase := PairCopying(tag, 2))])
    {
      Dispatch(n);
      hide Run, Next;
      ghost var was, pr := w, w.processes[p];
      ghost var pair := FreshPair(pr).value;
      Step(MakePair(p, tag));
      for k := 0 to 2
        invariant Valid()
        invariant w == was.(lookups := was.lookups[Incoming(tag) := PairSoFar(pair, k)],
                            processes := was.processes[p := pr.(phase := PairCopying(tag, k))])
      {
        Step(CopyFile(p));
        assert w.lookups == was.lookups[Incoming(tag) := PairSoFar(pair, k + 1)];
        assert w.processes == was.processes[p := pr.(phase := PairCopying(tag, k + 1))];
      }
    }

    /** The rename to the generation name, and the check of what was renamed. */
    method NamePair(p: nat, nonce: nat)
      requires Valid() && p in w.processes && w.processes[p].phase.PairCopying? && w.processes[p].release.Some?
      requires FreshPair(w.processes[p]).Some? && Incoming(w.processes[p].phase.tag) in w.lookups
      requires w.lookups[Incoming(w.processes[p].phase.tag)] == PairDir(FreshPair(w.processes[p]).value)
      requires Generation(w.processes[p].release.value.rid, nonce) !in w.lookups
      modifies this
      ensures Valid()
      ensures var pr := old(w).processes[p];
              var name := Generation(pr.release.value.rid, nonce);
              w == old(w).(lookups := (old(w).lookups - {Incoming(pr.phase.tag)})[name := PairDir(FreshPair(pr).value)],
                           processes := old(w).processes[p := pr.(phase := Between,
                                          active := Some(ActiveRecord(pr.release.value, name)))])
    {
      ghost var processes, pr := w.processes, w.processes[p];
      ghost var name := Generation(pr.release.value.rid, nonce);
      Step(RenamePair(p, nonce));
      Step(AcceptPair(p));
      assert w.processes == processes[p := pr.(phase := Between, active := Some(ActiveRecord(pr.release.value, name)))];
    }

    /** `_publish_active_lookup`: succeeds exactly when the generation name is unused. */
    method PublishActiveLookup(p: nat, tag: nat, nonce: nat) returns (ok: bool)
      requires Valid() && p in w.processes && PairDue(w.processes[p]) && !IsAlreadyActive(w.processes[p])
      requires FreshPair(w.processes[p]).Some? && Incoming(tag) !in w.lookups
      modifies this
      ensures Valid()
      ensures ok <==> Generation(old(w).processes[p].release.value.rid, nonce) !in old(w).lookups
      ensures var pr, name := old(w).processes[p], Generation(old(w).processes[p].release.value.rid, nonce);
              w == if ok then
                     old(w).(lookups := old(w).lookups[name := PairDir(FreshPair(pr).value)],
                             processes := old(w).processes[p := pr.(active := Some(ActiveRecord(pr.release.value, name)))])
                   else old(w).(lock := None, processes := old(w).processes[p := pr.(phase := Ended)])
    {
      Dispatch(n);
      hide Run, Next;
      ghost var was, pr := w, w.processes[p];
      var name := Generation(w.processes[p].release.value.rid, nonce);
      FillPair(p, tag);
      ok := name !in w.lookups;
      if ok {
        NamePair(p, nonce);
        assert w.lookups == was.lookups[name := PairDir(FreshPair(pr).value)];
        assert w.processes == was.processes[p := pr.(active := Some(ActiveRecord(pr.release.value, name)))];
      } else {
        Step(Stop(p, Removed, true));
        assert w.lookups == was.lookups;
        assert w.processes == was.processes[p := pr.(phase := Ended)];
      }
    }

    /** The nine reads of one undisturbed attempt. */
    method ReadAll(p: nat, tag: nat)
      requires Valid() && p in w.processes && w.processes[p].basis.Some?
      requires w.processes[p].phase.Sampling? && w.processes[p].phase.done == 0 && w.processes[p].phase.sample == NO_SAMPLE
      requires w.processes[p].phase.tag == tag
      requires Incoming(tag) in w.lookups && w.lookups[Incoming(tag)] == EMPTY_DIR
      requires w.processes[p].basis.value.active.lookup in w.lookups
      requires HasPair(w.lookups[w.processes[p].basis.value.active.lookup])
      modifies this
      ensures Valid()
      ensures var pr := old(w).processes[p];
              var d := old(w).lookups[pr.basis.value.active.lookup];
              w == old(w).(lookups := old(w).lookups[Incoming(tag) := d],
                           processes := old(w).processes[p := pr.(phase :=
                             Sampling(tag, pr.phase.attempt, READS, Gathered(d, READS)))])
    {
      Dispatch(n);
      hide Run, Next;
      ghost var was, pr := w, w.processes[p];
      ghost var d := was.lookups[pr.basis.value.active.lookup];
      for k := 0 to READS
        invariant Valid()
        invariant w == was.(lookups := was.lookups[Incoming(tag) := GatheredCopy(d, k)],
                            processes := was.processes[p := pr.(phase := Sampling(tag, pr.phase.attempt, k, Gathered(d, k)))])
      {
        Step(Read(p));
        assert w.lookups == was.lookups[Incoming(tag) := GatheredCopy(d, k + 1)];
        assert w.processes == was.processes[p := pr.(phase := Sampling(tag, pr.phase.attempt, k + 1, Gathered(d, k + 1)))];
      }
    }

    /** The judgement of an attempt: take it, try again, or give up. */
    method Conclude(p: nat, tag: nat, d: Dir) returns (verdict: Verdict)
      requires Valid() && p in w.processes && w.processes[p].basis.Some? && HasPair(d)
      requires w.processes[p].phase.Sampling? && w.processes[p].phase.tag == tag && w.processes[p].phase.attempt < ATTEMPTS
      requires w.processes[p].phase.done == READS && w.processes[p].phase.sample == Gathered(d, READS)
      modifies this
      ensures Valid()
      ensures var pr := old(w).processes[p];
              var v := Judge(pr.basis.value.active.release.content, ExpectedPair(pr.op), Gathered(d, READS));
              && verdict == (if v.Retry? && pr.phase.attempt + 1 == ATTEMPTS then Raise else v)
              && w == match verdict
                      case Take(c) => old(w).(processes := old(w).processes[p := pr.(phase := Sampled(tag, c))])
                      case Raise => old(w).(lock := None, lookups := old(w).lookups - {Incoming(tag)},
                                            processes := old(w).processes[p := pr.(phase := Ended)])
                      case Retry => old(w).(lookups := old(w).lookups[Incoming(tag) := EMPTY_DIR],
                                            processes := old(w).processes[p := pr.(phase :=
                                              Sampling(tag, pr.phase.attempt + 1, 0, NO_SAMPLE))])
    {
      Dispatch(n);
      hide Run, Next, Judge;
      var pr := w.processes[p];
      verdict := Judge(pr.basis.value.active.release.content, ExpectedPair(pr.op), pr.phase.sample);
      if verdict.Raise? || (verdict.Retry? && pr.phase.attempt + 1 == ATTEMPTS) {
        Step(Stop(p, Removed, true));
        return Raise;
      }
      Step(Decide(p));
    }

    /** The three attempts, undisturbed: all of them come out alike. */
    method TakeSample(p: nat, tag: nat) returns (ok: bool)
      requires Valid() && p in w.processes && SnapshotDue(w.processes[p]) && Incoming(tag) !in w.lookups
      requires w.processes[p].basis.value.active.lookup in w.lookups
      requires HasPair(w.lookups[w.processes[p].basis.value.active.lookup])
      modifies this
      ensures Valid()
      ensures var pr := old(w).processes[p];
              var d := old(w).lookups[pr.basis.value.active.lookup];
              && (ok <==> Capturable(pr.basis.value.active.release.content, d) && Matches(ExpectedPair(pr.op), PairOf(d)))
              && w == if ok then
                        old(w).(lookups := old(w).lookups[Incoming(tag) := d],
                                processes := old(w).processes[p := pr.(phase := Sampled(tag, CaptureOf(d)))])
                      else old(w).(lock := None, processes := old(w).processes[p := pr.(phase := Ended)])
    {
      Dispatch(n);
      hide Run, Next, Judge;
      ghost var was, pr := w, w.processes[p];
      var d := w.lookups[w.processes[p].basis.value.active.lookup];
      QuietVerdict(w.processes[p].basis.value.active.release.content, ExpectedPair(w.processes[p].op), d);
      Step(MakeSnapshot(p, tag));
      var attempt := 0;
      while true
        invariant Valid()
        invariant attempt < ATTEMPTS
        invariant w == was.(lookups := was.lookups[Incoming(tag) := EMPTY_DIR],
                            processes := was.processes[p := pr.(phase := Sampling(tag, attempt, 0, NO_SAMPLE))])
        decreases ATTEMPTS - attempt
      {
        ReadAll(p, tag);
        assert w.lookups == was.lookups[Incoming(tag) := d];
        var verdict := Conclude(p, tag, d);
        if verdict.Take? {
          assert w.processes == was.processes[p := pr.(phase := Sampled(tag, CaptureOf(d)))];
          return true;
        }
        if verdict.Raise? {
          assert w.lookups == was.lookups;
          assert w.processes == was.processes[p := pr.(phase := Ended)];
          return false;
        }
        attempt := attempt + 1;
        assert w.lookups == was.lookups[Incoming(tag) := EMPTY_DIR];
        assert w.processes == was.processes[p := pr.(phase := Sampling(tag, attempt, 0, NO_SAMPLE))];
      }
    }

    /** `_publish_rollback_snapshot`: succeeds exactly when the active lookup is capturable and the snapshot
        name is free or already holds this very capture. */
    method PublishRollbackSnapshot(p: nat, tag: nat) returns (ok: bool)
      requires Valid() && p in w.processes && SnapshotDue(w.processes[p]) && Incoming(tag) !in w.lookups
      requires w.processes[p].basis.value.active.lookup in w.lookups
      requires HasPair(w.lookups[w.processes[p].basis.value.active.lookup])
      modifies this
      ensures Valid()
      ensures var pr := old(w).processes[p];
              var c := CaptureOf(old(w).lookups[pr.basis.value.active.lookup]);
              var r := SnapshotRecord(n, pr.basis.value.active, c);
              && (ok <==> SnapshotPossible(n, old(w), pr.basis.value.active, ExpectedPair(pr.op)))
              && w == if ok then
                        old(w).(lookups := old(w).lookups[r.lookup := CaptureDir(c)],
                                processes := old(w).processes[p := pr.(rollback := Some(r))])
                      else old(w).(lock := None, processes := old(w).processes[p := pr.(phase := Ended)])
    {
      hide Run, Next, Capturable, Matches, DoAcceptPair, DoAcceptRelease, DoAcquire, DoAlreadyActive, DoBegin, DoCopyFile, DoCopyRelease, DoDecide,
        DoMakePair, DoMakeRelease, DoMakeSnapshot, DoRead, DoRenamePair, DoRenameRelease, DoReplace, DoReread, DoReuseRelease, DoStage, DoWriteReceipt;
      Dispatch(n);
      ghost var was, pr := w, w.processes[p];
      var active := w.processes[p].basis.value.active;
      var c := CaptureOf(w.lookups[active.lookup]);
      var r := SnapshotRecord(n, active, c);
      ok := TakeSample(p, tag);
      if !ok { return; }
      assert w.lookups[Incoming(tag)] == CaptureDir(c);
      if r.lookup !in w.lookups {
        Step(RenameSnapshot(p));
        Step(AcceptSnapshot(p));
      } else if w.lookups[r.lookup] == CaptureDir(c) {
        Step(ReuseSnapshot(p));
      } else {
        Step(Stop(p, Removed, true));
        assert w.lookups == was.lookups;
        assert w.processes == was.processes[p := pr.(phase := Ended)];
        return false;
      }
      assert w.lookups == was.lookups[r.lookup := CaptureDir(c)];
      assert w.processes == was.processes[p := pr.(rollback := Some(r))];
    }

    /** `_publish_release`. */
    method PublishRelease(p: nat, tag: nat) returns (ok: bool)
      requires Valid() && p in w.processes && w.processes[p].phase == Between && w.processes[p].release.None?
      requires Source(w.processes[p].op).Some? && tag !in w.incoming
      modifies this
      ensures Valid()
      ensures var pr := old(w).processes[p];
              var ref := ReleaseFor(n, old(w), pr.op.source);
              && (ok <==> ref.Some?)
              && w == if ok then
                        old(w).(releases := old(w).releases[ref.value.rid := Release(ref.value.content, Some(ref.value.content))],
                                processes := old(w).processes[p := pr.(release := ref)])
                      else old(w).(lock := None, processes := old(w).processes[p := pr.(phase := Ended)])
    {
      Dispatch(n);
      hide Run, Next;
      ghost var was, pr := w, w.processes[p];
      var source := w.processes[p].op.source;
      var ref := ReleaseFor(n, w, source);
      ok := ref.Some?;
      if !ok {
        Step(Stop(p, Removed, true));
      } else if ref.value.rid in w.releases {
        Step(ReuseRelease(p));
        assert w.releases == was.releases[ref.value.rid := Release(ref.value.content, Some(ref.value.content))];
        assert w.processes == was.processes[p := pr.(release := ref)];
      } else {
        InstallRelease(p, tag);
        assert w.releases == was.releases[ref.value.rid := Release(source, Some(source))];
        assert w.processes == was.processes[p := pr.(release := ref)];
      }
    }

    /** The private copy and its receipt. */
    method StageRelease(p: nat, tag: nat)
      requires Valid() && p in w.processes && w.processes[p].phase == Between && w.processes[p].release.None?
      requires Source(w.processes[p].op).Some? && tag !in w.incoming
      requires n.release(w.processes[p].op.source.source) !in w.releases
      modifies this
      ensures Valid()
      ensures var pr := old(w).processes[p];
              w == old(w).(incoming := old(w).incoming[tag := Release(pr.op.source, Some(pr.op.source))],
                           processes := old(w).processes[p := pr.(phase := ReleaseReceipted(tag))])
    {
      Dispatch(n);
      hide Run, Next;
      ghost var was, pr := w, w.processes[p];
      Step(MakeRelease(p, tag));
      Step(CopyRelease(p));
      assert w.incoming == was.incoming[tag := Release(pr.op.source, None)];
      assert w.processes == was.processes[p := pr.(phase := ReleaseCopied(tag))];
      Step(WriteReceipt(p));
      assert w.incoming == was.incoming[tag := Release(pr.op.source, Some(pr.op.source))];
      assert w.processes == was.processes[p := pr.(phase := ReleaseReceipted(tag))];
    }

    /** Copy, receipt, rename and final check of a release whose name is free. */
    method InstallRelease(p: nat, tag: nat)
      requires Valid() && p in w.processes && w.processes[p].phase == Between && w.processes[p].release.None?
      requires Source(w.processes[p].op).Some? && tag !in w.incoming
      requires n.release(w.processes[p].op.source.source) !in w.releases
      modifies this
      ensures Valid()
      ensures var pr := old(w).processes[p];
              var ref := ReleaseRef(n.release(pr.op.source.source), pr.op.source);
              w == old(w).(releases := old(w).releases[ref.rid := Release(ref.content, Some(ref.content))],
                           processes := old(w).processes[p := pr.(release := Some(ref))])
    {
      Dispatch(n);
      hide Run, Next;
      ghost var was, pr := w, w.processes[p];
      ghost var ref := ReleaseRef(n.release(pr.op.source.source), pr.op.source);
      StageRelease(p, tag);
      Step(RenameRelease(p));
      assert w.incoming == was.incoming;
      assert w.processes == was.processes[p := pr.(phase := ReleaseRenamed)];
      Step(AcceptRelease(p));
      assert w.processes == was.processes[p := pr.(release := Some(ref))];
    }

    /** `_atomic_write_json` of the new pointer, and the return. */
    method PublishPointer(p: nat, tag: nat, now: nat)
      requires Valid() && p in w.processes && StageDue(w.processes[p]) && tag !in w.strays
      requires w.processes[p].rollback.Some? ==> RollbackReadable(n, w.releases, w.lookups, w.processes[p].rollback.value)
      modifies this
      ensures Valid()
      ensures var pr := old(w).processes[p];
              var next := Pointer(now, CauseOf(pr.op), pr.active.value, pr.rollback);
              w == old(w).(pointer := Some(next), history := old(w).history + [next], lock := None,
                           processes := old(w).processes[p := pr.(phase := Ended)])
    {
      Dispatch(n);
      hide Run, Next;
      ghost var was, pr := w, w.processes[p];
      Step(Stage(p, tag, now));
      Step(Replace(p));
      assert w.strays == was.strays;
      Step(Stop(p, Left, true));
      assert w.processes == was.processes[p := pr.(phase := Ended)];
    }

    /** Whatever steps led here, the pointer validates. */
    lemma Resolves()
      requires Valid()
      ensures w.pointer.Some? ==> Readable(n, w.releases, w.lookups, w.pointer.value)
    {
      PointerAlwaysResolves(n, log, w);
    }

    method Preflight(p: nat, op: Op) returns (ok: bool)
      requires Valid() && p !in w.processes
      modifies this
      ensures Valid() && (ok <==> PreflightPasses(n, old(w), op))
      ensures w == if ok then old(w).(processes := old(w).processes[p := Entering(old(w), op)]) else old(w)
    {
      hide Run, Next;
      Resolves();
      Dispatch(n);
      ok := DoBegin(n, w, p, op).Some?;
      if ok { Step(Begin(p, op)); }
    }

    /** The re-read under the lock finds what the preflight found. */
    method Confirm(p: nat, op: Op) returns (ok: bool)
      requires Valid() && p in w.processes && w.processes[p] == Entering(w, op).(phase := Locked)
      requires PreflightPasses(n, w, op) && (w.pointer.Some? ==> Readable(n, w.releases, w.lookups, w.pointer.value))
      modifies this
      ensures Valid()
      ensures ok <==> (op.Initialize? ==> old(w).pointer.None? && old(w).releases == map[] && old(w).incoming == map[]
                                          && old(w).lookups == map[])
      ensures w == if ok then old(w).(processes := old(w).processes[p := Entered(old(w), op)])
                   else old(w).(lock := None, processes := old(w).processes[p := Entering(old(w), op).(phase := Ended)])
    {
      hide Run, Next;
      Dispatch(n);
      ok := DoReread(n, w, p).Some?;
      if ok {
        Step(Reread(p));
      } else {
        Step(Stop(p, Left, true));
      }
    }

    /** The O_EXCL lock, and the re-read under it. */
    method LockAndConfirm(p: nat, op: Op) returns (ok: bool)
      requires Valid() && p in w.processes && w.processes[p] == Entering(w, op) && w.lock.None?
      requires PreflightPasses(n, w, op) && (w.pointer.Some? ==> Readable(n, w.releases, w.lookups, w.pointer.value))
      modifies this
      ensures Valid()
      ensures ok <==> (op.Initialize? ==> old(w).pointer.None? && old(w).releases == map[] && old(w).incoming == map[]
                                          && old(w).lookups == map[])
      ensures w == if ok then old(w).(lock := Some(p), processes := old(w).processes[p := Entered(old(w), op)])
                   else old(w).(processes := old(w).processes[p := Entering(old(w), op).(phase := Ended)])
    {
      hide Run, Next, Readable, DoBegin, DoReread, DoStop;
      Dispatch(n);
      ghost var was := w;
      Step(Acquire(p));
      assert w.processes == was.processes[p := Entering(was, op).(phase := Locked)];
      ok := Confirm(p, op);
      if ok {
        assert w.processes == was.processes[p := Entered(was, op)];
      } else {
        assert w.processes == was.processes[p := Entering(was, op).(phase := Ended)];
      }
    }

    /** Preflight, O_EXCL lock, re-read. */
    method Enter(p: nat, op: Op) returns (ok: bool)
      requires Valid() && p !in w.processes
      modifies this
      ensures Valid() && (ok <==> Enterable(n, old(w), op))
      ensures !ok ==> Untouched(old(w), w) && w.lock == old(w).lock
      ensures ok ==> w == old(w).(lock := Some(p), processes := old(w).processes[p := Entered(old(w), op)])
    {
      hide Run, Next, Readable, DoBegin, DoReread, DoAcquire;
      Resolves();
      Dispatch(n);
      ghost var was := w;
      ok := Preflight(p, op);
      if !ok { return; }
      if w.lock.Some? {
        Step(Stop(p, Left, false));
        return false;
      }
      ok := LockAndConfirm(p, op);
      if ok { assert w.processes == was.processes[p := Entered(was, op)]; }
    }

    /** Initialization, undisturbed: it succeeds exactly on a store with nothing under releases/ or lookups/,
        no pointer, no lock and a clean top level. */
    method InitializeStore(p: nat, source: Content, tag: nat, nonce: nat, now: nat) returns (ok: bool)
      requires Valid() && p !in w.processes
      modifies this
      ensures Valid() && (ok <==> Enterable(n, old(w), Initialize(source)))
      ensures !ok ==> Untouched(old(w), w)
      ensures ok ==>
        var ref := ReleaseRef(n.release(source.source), source);
        && w.pointer == Some(Pointer(now, Initialized, ActiveRecord(ref, Generation(ref.rid, nonce)), None))
        && w.releases == map[ref.rid := Release(source, Some(source))]
        && w.lookups == map[Generation(ref.rid, nonce) := PairDir(source.seed)]
        && w.lock == None && w.strays == {}
    {
      ok := Enter(p, Initialize(source));
      if !ok { return; }
      hide Run, Next;
      ok := PublishRelease(p, tag);
      ok := PublishActiveLookup(p, tag, nonce);
      PublishPointer(p, tag, now);
    }

    /** The second half of a rollback: the outgoing snapshot, the pair the old snapshot pins, the pointer. */
    method SwapBack(p: nat, tag: nat, nonce: nat, now: nat) returns (ok: bool)
      requires Valid() && p in w.processes && w.processes[p].phase == Between && w.processes[p].op.Rollback?
      requires var pr := w.processes[p];
               && pr.basis.Some? && pr.basis.value.rollback.Some? && pr.release == Some(pr.basis.value.rollback.value.release)
               && pr.active.None? && pr.rollback.None? && ActiveReadable(n, w.releases, w.lookups, pr.basis.value.active)
      requires Incoming(tag) !in w.lookups && w.strays == {}
      modifies this
      ensures Valid()
      ensures var pr := old(w).processes[p];
              && (ok <==> Generation(pr.release.value.rid, nonce) !in old(w).lookups
                          && SnapshotPossible(n, old(w), pr.basis.value.active, None))
              && (!ok ==> Untouched(old(w), w))
              && (ok ==>
                var active := pr.basis.value.active;
                var c := CaptureOf(old(w).lookups[active.lookup]);
                var r := SnapshotRecord(n, active, c);
                var a := ActiveRecord(pr.release.value, Generation(pr.release.value.rid, nonce));
                && w.pointer == Some(Pointer(now, RolledBack, a, Some(r))) && w.history == old(w).history + [w.pointer.value]
                && w.releases == old(w).releases && w.lock == None && w.strays == {} && w.seen == old(w).seen
                && w.processes.Keys == old(w).processes.Keys
                && w.lookups == old(w).lookups[r.lookup := CaptureDir(c)][a.lookup := PairDir(pr.basis.value.rollback.value.capture.identity)])
    {
      hide Run, Next;
      ok := PublishRollbackSnapshot(p, tag);
      if !ok { return; }
      ok := PublishActiveLookup(p, tag, nonce);
      if !ok { return; }
      PublishPointer(p, tag, now);
    }

    /** `rollback_bundle`, undisturbed. */
    method RollbackBundle(p: nat, expected: ReleaseRef, target: ReleaseRef, tag: nat, nonce: nat, now: nat) returns (ok: bool)
      requires Valid() && p !in w.processes && Incoming(tag) !in w.lookups
      modifies this
      ensures Valid() && (ok <==> RollbackPossible(n, old(w), expected, target, nonce))
      ensures !ok ==> Untouched(old(w), w)
      ensures ok ==>
        var ptr := old(w).pointer.value;
        var c := CaptureOf(old(w).lookups[ptr.active.lookup]);
        var r := SnapshotRecord(n, ptr.active, c);
        var a := ActiveRecord(target, Generation(target.rid, nonce));
        && w.pointer == Some(Pointer(now, RolledBack, a, Some(r)))
        && w.history == old(w).history + [w.pointer.value]
        && w.releases == old(w).releases
        && w.lookups == old(w).lookups[r.lookup := CaptureDir(c)][a.lookup := PairDir(ptr.rollback.value.capture.identity)]
        && w.lock == None && w.strays == {} && w.seen == old(w).seen
        && w.processes.Keys == old(w).processes.Keys + {p}
    {
      hide Run, Next, Coherent, Capturable, Matches;
      Resolves();
      ok := Enter(p, Rollback(expected, target));
      if !ok { return; }
      ok := SwapBack(p, tag, nonce, now);
    }

    /** The release to promote is the active one: nothing but the lock is given back. */
    method LeaveAlone(p: nat)
      requires Valid() && p in w.processes && w.processes[p].phase == Between
      requires w.processes[p].op.Promote? && IsAlreadyActive(w.processes[p])
      modifies this
      ensures Valid()
      ensures w == old(w).(lock := None, processes := old(w).processes[p := old(w).processes[p].(phase := Ended)])
    {
      Dispatch(n);
      hide Run, Next;
      Step(AlreadyActive(p));
      Step(Stop(p, Left, true));
    }

    /** The second half of a promotion: new generation, outgoing snapshot, pointer. */
    method Activate(p: nat, tag: nat, nonce: nat, now: nat) returns (ok: bool)
      requires Valid() && p in w.processes && w.processes[p].phase == Between && w.processes[p].op.Promote?
      requires var pr := w.processes[p];
               && pr.release.Some? && pr.active.None? && pr.rollback.None? && !IsAlreadyActive(pr) && pr.basis.Some?
               && ActiveReadable(n, w.releases, w.lookups, pr.basis.value.active)
      requires Incoming(tag) !in w.lookups && w.strays == {}
      modifies this
      ensures Valid()
      ensures var pr := old(w).processes[p];
              && (ok <==> Generation(pr.release.value.rid, nonce) !in old(w).lookups
                          && SnapshotPossible(n, old(w), pr.basis.value.active, Some(pr.op.approved)))
              && (!ok ==> Untouched(old(w), w))
              && (ok ==>
                var active := pr.basis.value.active;
                var c := CaptureOf(old(w).lookups[active.lookup]);
                var r := SnapshotRecord(n, active, c);
                var a := ActiveRecord(pr.release.value, Generation(pr.release.value.rid, nonce));
                && w.pointer == Some(Pointer(now, Promoted, a, Some(r))) && w.history == old(w).history + [w.pointer.value]
                && w.releases == old(w).releases && w.lock == None && w.strays == {}
                && w.lookups == old(w).lookups[a.lookup := PairDir(pr.release.value.content.seed)][r.lookup := CaptureDir(c)])
    {
      hide Run, Next;
      ok := PublishActiveLookup(p, tag, nonce);
      if !ok { return; }
      ok := PublishRollbackSnapshot(p, tag);
      if !ok { return; }
      PublishPointer(p, tag, now);
    }

    /** The ordinary `promote_bundle`, undisturbed. */
    method PromoteBundle(p: nat, source: Content, expected: ReleaseRef, approved: Identity, tag: nat, nonce: nat, now: nat)
      returns (outcome: Outcome)
      requires Valid() && p !in w.processes && tag !in w.incoming && Incoming(tag) !in w.lookups
      modifies this
      ensures Valid() && outcome == PromoteOutcome(n, old(w), source, expected, approved, nonce)
      ensures !outcome.Moved? ==> Untouched(old(w), w)
      ensures outcome.Moved? ==>
        var ptr := old(w).pointer.value;
        var ref := ReleaseFor(n, old(w), source).value;
        var c := CaptureOf(old(w).lookups[ptr.active.lookup]);
        var r := SnapshotRecord(n, ptr.active, c);
        var a := ActiveRecord(ref, Generation(ref.rid, nonce));
        && w.pointer == Some(Pointer(now, Promoted, a, Some(r)))
        && w.history == old(w).history + [w.pointer.value]
        && w.releases == old(w).releases[ref.rid := Release(ref.content, Some(ref.content))]
        && w.lookups == old(w).lookups[a.lookup := PairDir(ref.content.seed)][r.lookup := CaptureDir(c)]
        && c.identity == approved
        && w.lock == None && w.strays == {}
    {
      hide Run, Next, Coherent, Capturable, Matches;
      Resolves();
      var ok := Enter(p, Promote(source, expected, approved));
      if !ok { return Refused; }
      ok := PublishRelease(p, tag);
      if !ok { return Refused; }
      if IsAlreadyActive(w.processes[p]) {
        LeaveAlone(p);
        return AlreadyThere;
      }
      ok := Activate(p, tag, nonce, now);
      outcome := if ok then Moved else Refused;
    }

    /** A runtime resolves the pointer and writes its manifest beside the active pair. */
    method WriteManifest(m: Manifest)
      requires Valid() && w.pointer.Some? && w.pointer.value.active.lookup in w.lookups
      modifies this
      ensures Valid()
      ensures var name := old(w).pointer.value.active.lookup;
              w == old(w).(lookups := old(w).lookups[name := old(w).lookups[name].(manifest := Some(m))],
                           seen := old(w).seen + {name}, touched := old(w).touched + {name})
    {
      hide Run;
      Step(Resolve);
      Step(RuntimeWrite(w.pointer.value.active.lookup, RuntimeManifest(Some(m))));
    }

    /** Roll back, perhaps let the runtime write a manifest m, and roll back again. Whether the second rollback
        succeeds can be read off the store before the first: the restored pair is the seed of its release, or m
        pins it for that release; its snapshot's name is free or holds it already; and the new generation name
        is free. Then both releases and the original pair are back. `mid` is the store between the two. */
    method RollbackTwice(p: nat, q: nat, tag: nat, nonce: nat, nonce': nat, now: nat, now': nat, m: Option<Manifest>)
      returns (first: bool, second: bool, ghost mid: World)
      requires Valid() && p !in w.processes && q !in w.processes && p != q && Incoming(tag) !in w.lookups
      requires w.pointer.Some? && w.pointer.value.rollback.Some?
      modifies this
      ensures Valid()
      ensures var ptr := old(w).pointer.value;
              var back := ptr.rollback.value;
              && (first <==> RollbackPossible(n, old(w), ptr.active.release, back.release, nonce))
              && (second ==> first)
              && (first ==>
                var restored := Capture(back.capture.identity, m);
                var c := CaptureOf(old(w).lookups[ptr.active.lookup]);
                var r := SnapshotRecord(n, ptr.active, c);
                var a := ActiveRecord(back.release, Generation(back.release.rid, nonce));
                && mid.pointer == Some(Pointer(now, RolledBack, a, Some(r)))
                && mid.releases == old(w).releases && mid.lock == None && mid.strays == {}
                && mid.lookups == old(w).lookups[r.lookup := CaptureDir(c)][a.lookup := CaptureDir(restored)]
                && (second <==>
                  && Coherent(back.release.content, restored)
                  && SnapshotFits(n, old(w), back.release.rid, restored)
                  && Generation(ptr.active.release.rid, nonce') !in old(w).lookups)
                && (!second ==> Untouched(mid, w))
                && (second ==>
                  var r' := SnapshotRecord(n, a, restored);
                  var a' := ActiveRecord(ptr.active.release, Generation(ptr.active.release.rid, nonce'));
                  && w.pointer == Some(Pointer(now', RolledBack, a', Some(r')))
                  && w.lookups == mid.lookups[r'.lookup := CaptureDir(restored)][a'.lookup := PairDir(c.identity)]
                  && w.releases == old(w).releases && w.lock == None && w.strays == {}))
    {
      hide Run, Next, Coherent, Capturable;
      var ptr := w.pointer.value;
      Resolves();
      ghost var was := w;
      first := RollbackBundle(p, ptr.active.release, ptr.rollback.value.release, tag, nonce, now);
      second := false;
      mid := w;
      if !first { return; }
      ghost var restored := Capture(ptr.rollback.value.capture.identity, m);
      if m.Some? { WriteManifest(m.value); }
      mid := w;
      BackAgain(n, was, mid, nonce, nonce', restored);
      second := RollbackBundle(q, ptr.rollback.value.release, ptr.active.release, tag, nonce', now');
    }
  }

  /** After a first rollback the second one's condition can be read off the store before the first. */
  lemma BackAgain(n: Names, was: World, mid: World, nonce: nat, nonce': nat, restored: Capture)
    requires was.pointer.Some? && was.pointer.value.rollback.Some?
    requires was.pointer.value.active.release.rid != was.pointer.value.rollback.value.release.rid
    requires was.pointer.value.active.lookup in was.lookups && HasPair(was.lookups[was.pointer.value.active.lookup])
    requires var ptr := was.pointer.value;
             var c := CaptureOf(was.lookups[ptr.active.lookup]);
             var r := SnapshotRecord(n, ptr.active, c);
             var a := ActiveRecord(ptr.rollback.value.release, Generation(ptr.rollback.value.release.rid, nonce));
             && mid.pointer.Some? && mid.pointer.value.active == a && mid.pointer.value.rollback == Some(r)
             && mid.strays == {} && mid.lock.None?
             && mid.lookups == was.lookups[r.lookup := CaptureDir(c)][a.lookup := CaptureDir(restored)]
    ensures var ptr := was.pointer.value;
            var back := ptr.rollback.value.release;
            RollbackPossible(n, mid, back, ptr.active.release, nonce')
            <==> Coherent(back.content, restored) && SnapshotFits(n, was, back.rid, restored)
                 && Generation(ptr.active.release.rid, nonce') !in was.lookups
  {
    hide Coherent;
    assert PairOf(CaptureDir(restored)) == restored.identity;
    assert CaptureOf(CaptureDir(restored)) == restored;
  }
}
