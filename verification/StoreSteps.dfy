/** Each step of the store machine keeps the invariant. */
module StoreSteps {
  import opened Common
  import opened StoreTypes
  import opened SnapshotCapture
  import opened StoreMachine
  import opened StoreInvariant

  lemma BeginStep(n: Names, w: World, p: nat, op: Op, w': World)
    requires Inv(n, w) && DoBegin(n, w, p, op) == Some(w')
    ensures Inv(n, w')
  {
    hide PointerIsLast, Chain, Distinct, Served, Faithful, SeenNamed, AllReadable;
    GlobalFrame(n, w, w');
    forall q | q in w'.processes
      ensures HolderOK(n, w', w'.processes[q]) && (Live(w'.processes[q].phase) ==> w'.lock == Some(q))
    {
      if q != p { assert HolderOK(n, w, w.processes[q]); }
    }
  }

  lemma AcquireStep(n: Names, w: World, p: nat, w': World)
    requires Inv(n, w) && DoAcquire(w, p) == Some(w')
    ensures Inv(n, w')
  {
    hide PointerIsLast, Chain, Distinct, Served, Faithful, SeenNamed, AllReadable;
    GlobalFrame(n, w, w');
    assert HolderOK(n, w, w.processes[p]);
    forall q | q in w'.processes
      ensures HolderOK(n, w', w'.processes[q]) && (Live(w'.processes[q].phase) ==> w'.lock == Some(q))
    {
      if q != p { assert HolderOK(n, w, w.processes[q]) && !Live(w.processes[q].phase); }
    }
  }

  lemma RereadStep(n: Names, w: World, p: nat, w': World)
    requires Inv(n, w) && DoReread(n, w, p) == Some(w')
    ensures Inv(n, w')
  {
    hide PointerIsLast, Chain, Distinct, Served, Faithful, SeenNamed, AllReadable;
    assert HolderOK(n, w, w.processes[p]);
    HolderStep(n, w, w', p, w'.processes[p]);
  }

  lemma MakeReleaseStep(n: Names, w: World, p: nat, tag: nat, w': World)
    requires Inv(n, w) && DoMakeRelease(n, w, p, tag) == Some(w')
    ensures Inv(n, w')
  {
    hide PointerIsLast, Chain, Distinct, Served, Faithful, SeenNamed, AllReadable;
    var pr := w.processes[p];
    assert HolderOK(n, w, pr);
    NamedIsPresent(n, w);
    HolderStep(n, w, w', p, w'.processes[p]);
  }

  lemma CopyReleaseStep(n: Names, w: World, p: nat, w': World)
    requires Inv(n, w) && DoCopyRelease(w, p) == Some(w')
    ensures Inv(n, w')
  {
    hide PointerIsLast, Chain, Distinct, Served, Faithful, SeenNamed, AllReadable;
    var pr := w.processes[p];
    assert HolderOK(n, w, pr);
    NamedIsPresent(n, w);
    HolderStep(n, w, w', p, w'.processes[p]);
  }

  lemma WriteReceiptStep(n: Names, w: World, p: nat, w': World)
    requires Inv(n, w) && DoWriteReceipt(w, p) == Some(w')
    ensures Inv(n, w')
  {
    hide PointerIsLast, Chain, Distinct, Served, Faithful, SeenNamed, AllReadable;
    var pr := w.processes[p];
    assert HolderOK(n, w, pr);
    NamedIsPresent(n, w);
    HolderStep(n, w, w', p, w'.processes[p]);
  }

  lemma RenameReleaseStep(n: Names, w: World, p: nat, w': World)
    requires Inv(n, w) && DoRenameRelease(n, w, p) == Some(w')
    ensures Inv(n, w')
  {
    hide PointerIsLast, Chain, Distinct, Served, Faithful, SeenNamed, AllReadable;
    var pr := w.processes[p];
    assert HolderOK(n, w, pr);
    NamedIsPresent(n, w);
    HolderStep(n, w, w', p, w'.processes[p]);
  }

  lemma AcceptReleaseStep(n: Names, w: World, p: nat, w': World)
    requires Inv(n, w) && DoAcceptRelease(n, w, p) == Some(w')
    ensures Inv(n, w')
  {
    hide PointerIsLast, Chain, Distinct, Served, Faithful, SeenNamed, AllReadable;
    var pr := w.processes[p];
    assert HolderOK(n, w, pr);
    NamedIsPresent(n, w);
    HolderStep(n, w, w', p, w'.processes[p]);
  }

  lemma ReuseReleaseStep(n: Names, w: World, p: nat, w': World)
    requires Inv(n, w) && DoReuseRelease(n, w, p) == Some(w')
    ensures Inv(n, w')
  {
    hide PointerIsLast, Chain, Distinct, Served, Faithful, SeenNamed, AllReadable;
    var pr := w.processes[p];
    assert HolderOK(n, w, pr);
    NamedIsPresent(n, w);
    HolderStep(n, w, w', p, w'.processes[p]);
  }

  lemma AlreadyActiveStep(n: Names, w: World, p: nat, w': World)
    requires Inv(n, w) && DoAlreadyActive(w, p) == Some(w')
    ensures Inv(n, w')
  {
    hide PointerIsLast, Chain, Distinct, Served, Faithful, SeenNamed, AllReadable;
    var pr := w.processes[p];
    assert HolderOK(n, w, pr);
    NamedIsPresent(n, w);
    HolderStep(n, w, w', p, w'.processes[p]);
  }

  lemma MakePairStep(n: Names, w: World, p: nat, tag: nat, w': World)
    requires Inv(n, w) && DoMakePair(w, p, tag) == Some(w')
    ensures Inv(n, w')
  {
    hide PointerIsLast, Chain, Distinct, Served, Faithful, SeenNamed, AllReadable;
    var pr := w.processes[p];
    assert HolderOK(n, w, pr);
    NamedIsPresent(n, w);
    HolderStep(n, w, w', p, w'.processes[p]);
  }

  /** What happens in a private directory disturbs nothing an installer has on record. */
  lemma FieldsKept(n: Names, w: World, w': World, tag: nat, pr: Process, phase: Phase)
    requires FieldsOK(n, w, pr)
    requires w'.lookups == w.lookups || (Incoming(tag) in w'.lookups && w'.lookups == w.lookups[Incoming(tag) := w'.lookups[Incoming(tag)]])
    requires w' == w.(lookups := w'.lookups, processes := w'.processes)
    ensures FieldsOK(n, w', pr.(phase := phase))
  {
    hide Coherent, ReleaseReadable, InitialPair, NamesLookup;
  }

  lemma CopyFileStep(n: Names, w: World, p: nat, w': World)
    requires Inv(n, w) && DoCopyFile(w, p) == Some(w')
    ensures Inv(n, w')
  {
    hide FieldsOK, GlobalInv, HoldersOK, FreshPair, IsAlreadyActive;
    var pr, pr' := w.processes[p], w'.processes[p];
    assert HolderOK(n, w, pr) by { HolderIn(n, w, p); }
    PrivateAgrees(n, w, w', pr.phase.tag);
    FieldsKept(n, w, w', pr.phase.tag, pr, pr'.phase);
    SamePair(pr, pr'.phase);
    HolderStep(n, w, w', p, pr');
  }

  lemma HolderIn(n: Names, w: World, p: nat)
    requires HoldersOK(n, w) && p in w.processes
    ensures HolderOK(n, w, w.processes[p])
  {
    hide HolderOK;
  }

  lemma SamePair(pr: Process, phase: Phase)
    ensures IsAlreadyActive(pr.(phase := phase)) == IsAlreadyActive(pr)
  {
  }

  lemma PrivateAgrees(n: Names, w: World, w': World, tag: nat)
    requires GlobalInv(n, w)
    requires Incoming(tag) in w'.lookups && w'.lookups == w.lookups[Incoming(tag) := w'.lookups[Incoming(tag)]]
    requires w' == w.(lookups := w'.lookups, processes := w'.processes)
    ensures Agree(w, w')
  {
    hide PointerIsLast, Chain, Distinct, Served, Faithful, SeenNamed, AllReadable, NamesLookup, NamesRelease;
    NamedIsPresent(n, w);
  }

  lemma RenamePairStep(n: Names, w: World, p: nat, nonce: nat, w': World)
    requires Inv(n, w) && DoRenamePair(w, p, nonce) == Some(w')
    ensures Inv(n, w')
  {
    hide PointerIsLast, Chain, Distinct, Served, Faithful, SeenNamed, AllReadable;
    var pr := w.processes[p];
    assert HolderOK(n, w, pr);
    NamedIsPresent(n, w);
    HolderStep(n, w, w', p, w'.processes[p]);
  }

  lemma AcceptPairStep(n: Names, w: World, p: nat, w': World)
    requires Inv(n, w) && DoAcceptPair(w, p) == Some(w')
    ensures Inv(n, w')
  {
    hide PointerIsLast, Chain, Distinct, Served, Faithful, SeenNamed, AllReadable;
    var pr := w.processes[p];
    assert HolderOK(n, w, pr);
    NamedIsPresent(n, w);
    HolderStep(n, w, w', p, w'.processes[p]);
  }

  lemma MakeSnapshotStep(n: Names, w: World, p: nat, tag: nat, w': World)
    requires Inv(n, w) && DoMakeSnapshot(w, p, tag) == Some(w')
    ensures Inv(n, w')
  {
    hide PointerIsLast, Chain, Distinct, Served, Faithful, SeenNamed, AllReadable;
    var pr := w.processes[p];
    assert HolderOK(n, w, pr);
    NamedIsPresent(n, w);
    HolderStep(n, w, w', p, w'.processes[p]);
  }

  lemma ReadSample(n: Names, w: World, p: nat, w': World)
    requires GlobalInv(n, w) && DoRead(w, p) == Some(w') && w.processes[p].basis == w.pointer
    requires SampleOK(w, w.processes[p].basis.value, w.processes[p].phase.tag, w.processes[p].phase.done, w.processes[p].phase.sample)
    ensures SampleOK(w', w'.processes[p].basis.value, w'.processes[p].phase.tag, w'.processes[p].phase.done, w'.processes[p].phase.sample)
  {
    var basis := w.pointer.value;
    if basis.active.lookup !in w.touched {
      assert w.history[|w.history| - 1] == basis;
      assert w.lookups[basis.active.lookup] == PairDir(InitialPair(w.history, |w.history| - 1));
    }
  }

  lemma ReadStep(n: Names, w: World, p: nat, w': World)
    requires Inv(n, w) && DoRead(w, p) == Some(w')
    ensures Inv(n, w')
  {
    hide PointerIsLast, Chain, Distinct, Served, Faithful, SeenNamed, AllReadable;
    var pr := w.processes[p];
    assert HolderOK(n, w, pr);
    NamedIsPresent(n, w);
    ReadSample(n, w, p, w');
    HolderStep(n, w, w', p, w'.processes[p]);
  }

  lemma TakenSample(w: World, basis: Pointer, tag: nat, s: Sample, expected: Option<Identity>, c: Capture)
    requires SampleOK(w, basis, tag, READS, s) && Judge(basis.active.release.content, expected, s) == Take(c)
    ensures Incoming(tag) in w.lookups && w.lookups[Incoming(tag)] == CaptureDir(c) && CapturedOK(w, basis, c)
    ensures Matches(expected, c.identity)
  {
  }

  lemma NoSampleYet(w: World, basis: Pointer, tag: nat)
    requires Incoming(tag) in w.lookups && w.lookups[Incoming(tag)] == EMPTY_DIR
    ensures SampleOK(w, basis, tag, 0, NO_SAMPLE)
  {
  }

  lemma DecidedPhase(n: Names, w: World, p: nat, w': World)
    requires p in w.processes && HolderOK(n, w, w.processes[p]) && DoDecide(w, p) == Some(w')
    ensures PhaseOK(n, w', w'.processes[p]) && Past(w'.processes[p].phase)
  {
    hide Judge, SampleOK, FieldsOK, CapturedOK, Coherent, Matches;
    var pr := w.processes[p];
    var basis := pr.basis.value;
    var v := Judge(basis.active.release.content, ExpectedPair(pr.op), pr.phase.sample);
    if v.Take? {
      TakenSample(w, basis, pr.phase.tag, pr.phase.sample, ExpectedPair(pr.op), v.capture);
      SameCapture(w, w', basis, v.capture);
    }
    if v.Retry? { NoSampleYet(w', basis, pr.phase.tag); }
  }

  lemma SameCapture(w: World, w': World, basis: Pointer, c: Capture)
    requires CapturedOK(w, basis, c) && w'.history == w.history && w'.touched == w.touched
    ensures CapturedOK(w', basis, c)
  {
    hide Coherent, InitialPair;
  }

  lemma DecidedHolder(n: Names, w: World, p: nat, w': World)
    requires Inv(n, w) && DoDecide(w, p) == Some(w')
    ensures Agree(w, w') && HolderOK(n, w', w'.processes[p])
  {
    hide Judge, FieldsOK, PhaseOK, PointerIsLast, Chain, Distinct, Served, Faithful, SeenNamed, AllReadable;
    assert HolderOK(n, w, w.processes[p]);
    NamedIsPresent(n, w);
    FieldsKept(n, w, w', w.processes[p].phase.tag, w.processes[p], w'.processes[p].phase);
    DecidedPhase(n, w, p, w');
  }

  lemma DecideStep(n: Names, w: World, p: nat, w': World)
    requires Inv(n, w) && DoDecide(w, p) == Some(w')
    ensures Inv(n, w')
  {
    hide Judge, GlobalInv, HolderOK, Agree, HoldersOK;
    DecidedHolder(n, w, p, w');
    HolderStep(n, w, w', p, w'.processes[p]);
  }

  lemma RenameSnapshotStep(n: Names, w: World, p: nat, w': World)
    requires Inv(n, w) && DoRenameSnapshot(n, w, p) == Some(w')
    ensures Inv(n, w')
  {
    hide PointerIsLast, Chain, Distinct, Served, Faithful, SeenNamed, AllReadable;
    var pr := w.processes[p];
    assert HolderOK(n, w, pr);
    NamedIsPresent(n, w);
    HolderStep(n, w, w', p, w'.processes[p]);
  }

  lemma ReuseSnapshotStep(n: Names, w: World, p: nat, w': World)
    requires Inv(n, w) && DoReuseSnapshot(n, w, p) == Some(w')
    ensures Inv(n, w')
  {
    hide PointerIsLast, Chain, Distinct, Served, Faithful, SeenNamed, AllReadable;
    var pr := w.processes[p];
    assert HolderOK(n, w, pr);
    NamedIsPresent(n, w);
    HolderStep(n, w, w', p, w'.processes[p]);
  }

  lemma AcceptSnapshotStep(n: Names, w: World, p: nat, w': World)
    requires Inv(n, w) && DoAcceptSnapshot(w, p) == Some(w')
    ensures Inv(n, w')
  {
    hide PointerIsLast, Chain, Distinct, Served, Faithful, SeenNamed, AllReadable;
    var pr := w.processes[p];
    assert HolderOK(n, w, pr);
    NamedIsPresent(n, w);
    HolderStep(n, w, w', p, w'.processes[p]);
  }

  lemma StageStep(n: Names, w: World, p: nat, tag: nat, now: nat, w': World)
    requires Inv(n, w) && DoStage(n, w, p, tag, now) == Some(w')
    ensures Inv(n, w')
  {
    hide PointerIsLast, Chain, Distinct, Served, Faithful, SeenNamed, AllReadable;
    var pr := w.processes[p];
    assert HolderOK(n, w, pr);
    NamedIsPresent(n, w);
    HolderStep(n, w, w', p, w'.processes[p]);
  }

  lemma NewPointer(n: Names, w: World, p: nat, w': World)
    requires Inv(n, w) && DoReplace(w, p) == Some(w')
    ensures var next := w.processes[p].phase.next;
            && Readable(n, w.releases, w.lookups, next) && Shaped(next)
            && !NamesLookup(w.history, next.active.lookup)
            && (w.history == [] ==> next.action == Initialized && next.rollback == None)
            && (w.history != [] ==> Follows(w.history[|w.history| - 1], next))
            && w.lookups[next.active.lookup] == PairDir(InitialPair(w'.history, |w.history|))
            && (next.rollback.Some? && w.history != [] && w.history[|w.history| - 1].active.lookup !in w.touched ==>
                  next.rollback.value.capture == Capture(InitialPair(w.history, |w.history| - 1), None))
  {
    var pr := w.processes[p];
    assert HolderOK(n, w, pr);
    if w.history != [] {
      assert Readable(n, w.releases, w.lookups, w.history[|w.history| - 1]);
    }
  }

  lemma {:induction false} InitialPairStable(h: seq<Pointer>, next: Pointer)
    ensures forall k | 0 <= k < |h| :: InitialPair(h + [next], k) == InitialPair(h, k)
  {
    forall k | 0 <= k < |h| ensures InitialPair(h + [next], k) == InitialPair(h, k) {
      assert (h + [next])[k] == h[k];
      if k > 0 { assert (h + [next])[k - 1] == h[k - 1]; }
    }
  }

  lemma ChainGrows(h: seq<Pointer>, next: Pointer)
    requires Chain(h)
    requires if h == [] then next.action == Initialized && next.rollback == None else Follows(h[|h| - 1], next)
    ensures Chain(h + [next])
  {
    hide Follows;
    var h' := h + [next];
    forall k {:trigger h'[k]} | 0 < k < |h'| ensures Follows(h'[k - 1], h'[k]) {
      if k < |h| { assert h'[k] == h[k]; }
    }
  }

  lemma DistinctGrows(h: seq<Pointer>, next: Pointer)
    requires Distinct(h) && !NamesLookup(h, next.active.lookup)
    ensures Distinct(h + [next])
  {
  }

  lemma ReplacedHistory(n: Names, w: World, p: nat, w': World)
    requires Inv(n, w) && DoReplace(w, p) == Some(w')
    ensures AllReadable(n, w') && PointerIsLast(w') && Chain(w'.history) && Distinct(w'.history)
  {
    hide Chain, Distinct, Readable, Served, Faithful, SeenNamed, HoldersOK, OneHolder, InitialPair;
    var next := w.processes[p].phase.next;
    NewPointer(n, w, p, w');
    ChainGrows(w.history, next);
    DistinctGrows(w.history, next);
    assert forall k | 0 <= k < |w.history| :: w'.history[k] == w.history[k];
  }

  lemma ReplacedServed(n: Names, w: World, p: nat, w': World)
    requires Inv(n, w) && DoReplace(w, p) == Some(w')
    ensures Served(w')
  {
    NewPointer(n, w, p, w');
    InitialPairStable(w.history, w.processes[p].phase.next);
    forall k {:trigger w'.history[k]} | 0 <= k < |w'.history| && w'.history[k].active.lookup !in w'.touched
      ensures w'.history[k].active.lookup in w'.lookups
              && w'.lookups[w'.history[k].active.lookup] == PairDir(InitialPair(w'.history, k))
    {
      if k < |w.history| { assert w'.history[k] == w.history[k]; }
    }
  }

  lemma ReplacedFaithful(n: Names, w: World, p: nat, w': World)
    requires Inv(n, w) && DoReplace(w, p) == Some(w')
    ensures Faithful(w')
  {
    NewPointer(n, w, p, w');
    InitialPairStable(w.history, w.processes[p].phase.next);
    forall k {:trigger w'.history[k]} | 0 < k < |w'.history| && w'.history[k].rollback.Some?
                                        && w'.history[k - 1].active.lookup !in w'.touched
      ensures w'.history[k].rollback.value.capture == Capture(InitialPair(w'.history, k - 1), None)
    {
      assert w'.history[k - 1] == w.history[k - 1];
      if k < |w.history| { assert w'.history[k] == w.history[k]; }
    }
  }

  lemma ReplaceStep(n: Names, w: World, p: nat, w': World)
    requires Inv(n, w) && DoReplace(w, p) == Some(w')
    ensures Inv(n, w')
  {
    hide AllReadable, Chain, Distinct, Served, Faithful, FieldsOK, PhaseOK;
    ReplacedHistory(n, w, p, w');
    ReplacedServed(n, w, p, w');
    ReplacedFaithful(n, w, p, w');
    forall name | name in w'.seen ensures exists k | 0 <= k < |w'.history| :: w'.history[k].active.lookup == name {
      var k :| 0 <= k < |w.history| && w.history[k].active.lookup == name;
      assert w'.history[k].active.lookup == name;
    }
    forall q | q in w'.processes
      ensures HolderOK(n, w', w'.processes[q]) && (Live(w'.processes[q].phase) ==> w'.lock == Some(q))
    {
      if q != p { assert HolderOK(n, w, w.processes[q]) && !Live(w.processes[q].phase); }
    }
  }

  lemma CleanDirAgrees(n: Names, w: World, name: LookupName, c: Cleanup)
    requires AllReadable(n, w) && !NamesLookup(w.history, name)
    ensures Agree(w, w.(lookups := CleanDir(w.lookups, name, c)))
  {
  }

  lemma CleanReleaseAgrees(n: Names, w: World, rid: nat, c: Cleanup)
    requires AllReadable(n, w) && !NamesRelease(w.history, rid)
    ensures Agree(w, w.(releases := CleanRelease(w.releases, rid, c)))
  {
  }

  /** The directory an installer's current call owns has been named by no pointer. */
  ghost predicate OwnIsUnnamed(n: Names, h: seq<Pointer>, pr: Process) {
    match pr.phase
    case ReleaseRenamed => Source(pr.op).Some? ==> !NamesRelease(h, n.release(pr.op.source.source))
    case PairRenamed(name) => !NamesLookup(h, name)
    case SnapshotRenamed(name, _) => !NamesLookup(h, name)
    case _ => true
  }

  lemma HolderOwns(n: Names, w: World, pr: Process)
    requires HolderOK(n, w, pr)
    ensures OwnIsUnnamed(n, w.history, pr)
  {
  }

  lemma SameStoreAgrees(w: World, w': World)
    ensures (w'.history == w.history && w'.pointer == w.pointer && w'.seen == w.seen && w'.touched == w.touched
             && w'.releases == w.releases && w'.lookups == w.lookups) ==> Agree(w, w')
  {
  }

  /** Whatever the cleanup of a stopping installer does, it does to nothing any pointer has named. */
  lemma CleanUpAgrees(n: Names, w: World, pr: Process, c: Cleanup)
    requires AllReadable(n, w) && OwnIsUnnamed(n, w.history, pr)
    ensures var w' := CleanUp(n, w, pr, c);
            Agree(w, w') && w'.processes == w.processes && w'.lock == w.lock
  {
    hide AllReadable, Agree, CleanDir, CleanRelease;
    NamedIsPresent(n, w);
    SameStoreAgrees(w, CleanUp(n, w, pr, c));
    match pr.phase
    case ReleaseRenamed => if Source(pr.op).Some? { CleanReleaseAgrees(n, w, n.release(pr.op.source.source), c); }
    case PairCopying(tag, _) => CleanDirAgrees(n, w, Incoming(tag), c);
    case PairRenamed(name) => CleanDirAgrees(n, w, name, c);
    case Sampling(tag, _, _, _) => CleanDirAgrees(n, w, Incoming(tag), c);
    case Sampled(tag, _) => CleanDirAgrees(n, w, Incoming(tag), c);
    case SnapshotRenamed(name, _) => CleanDirAgrees(n, w, name, c);
    case _ =>
  }

  lemma StopStep(n: Names, w: World, p: nat, c: Cleanup, unlock: bool, w': World)
    requires Inv(n, w) && DoStop(n, w, p, c, unlock) == Some(w')
    ensures Inv(n, w')
  {
    hide PointerIsLast, Chain, Distinct, Served, Faithful, SeenNamed, AllReadable;
    var pr := w.processes[p];
    HolderOwns(n, w, pr);
    CleanUpAgrees(n, w, pr, c);
    GlobalFrame(n, w, w');
    var clean := CleanUp(n, w, pr, c);
    forall q | q in w'.processes
      ensures HolderOK(n, w', w'.processes[q]) && (Live(w'.processes[q].phase) ==> w'.lock == Some(q))
    {
      if q != p {
        assert HolderOK(n, w, w.processes[q]);
        if Live(pr.phase) {
          assert !Live(w.processes[q].phase);
        } else {
          assert clean == w;
          assert pr.phase.Ready?;
        }
      }
    }
  }

  /** Steps that touch neither the store's directories nor any installer. */
  lemma QuietStep(n: Names, w: World, w': World)
    requires Inv(n, w)
    requires DoBreakLock(w) == Some(w') || (exists tag :: DoSweep(w, tag) == Some(w'))
    ensures Inv(n, w')
  {
    hide PointerIsLast, Chain, Distinct, Served, Faithful, SeenNamed, AllReadable;
    GlobalFrame(n, w, w');
    forall q | q in w'.processes ensures HolderOK(n, w', w'.processes[q]) {
      assert HolderOK(n, w, w.processes[q]);
    }
  }

  lemma ResolveGlobal(n: Names, w: World, w': World)
    requires GlobalInv(n, w) && DoResolve(w) == Some(w')
    ensures GlobalInv(n, w')
  {
    var k := |w.history| - 1;
    assert w.history[k].active.lookup == w.pointer.value.active.lookup;
  }

  lemma ResolveHolder(n: Names, w: World, w': World, pr: Process)
    requires DoResolve(w) == Some(w') && HolderOK(n, w, pr)
    ensures HolderOK(n, w', pr)
  {
  }

  lemma ResolveStep(n: Names, w: World, w': World)
    requires Inv(n, w) && DoResolve(w) == Some(w')
    ensures Inv(n, w')
  {
    hide GlobalInv, HolderOK;
    ResolveGlobal(n, w, w');
    forall q | q in w'.processes ensures HolderOK(n, w', w'.processes[q]) {
      assert HolderOK(n, w, w.processes[q]);
      ResolveHolder(n, w, w', w.processes[q]);
    }
  }

  /** A runtime write reaches only a directory some pointer has named as active. */
  lemma WriteReaches(n: Names, w: World, name: LookupName)
    requires GlobalInv(n, w) && name in w.seen
    ensures name.Generation? && NamesLookup(w.history, name)
    ensures forall k | 0 <= k < |w.history| && w.history[k].rollback.Some? :: w.history[k].rollback.value.lookup != name
  {
    var k :| 0 <= k < |w.history| && w.history[k].active.lookup == name;
    assert Shaped(w.history[k]);
  }

  lemma WriteHolder(n: Names, w: World, name: LookupName, write: Write, w': World, pr: Process)
    requires GlobalInv(n, w) && DoRuntimeWrite(w, name, write) == Some(w') && HolderOK(n, w, pr)
    ensures HolderOK(n, w', pr)
  {
    hide PointerIsLast, Chain, Distinct, Served, Faithful, SeenNamed, AllReadable;
    WriteReaches(n, w, name);
  }

  lemma WrittenReadable(n: Names, w: World, name: LookupName, write: Write, w': World)
    requires GlobalInv(n, w) && DoRuntimeWrite(w, name, write) == Some(w')
    ensures AllReadable(n, w')
  {
    hide PointerIsLast, Chain, Distinct, Served, Faithful;
    WriteReaches(n, w, name);
    forall k | 0 <= k < |w.history|
      ensures Readable(n, w'.releases, w'.lookups, w'.history[k]) && Shaped(w'.history[k])
    {
      assert Readable(n, w.releases, w.lookups, w.history[k]) && Shaped(w.history[k]);
    }
  }

  lemma WrittenGlobal(n: Names, w: World, name: LookupName, write: Write, w': World)
    requires GlobalInv(n, w) && DoRuntimeWrite(w, name, write) == Some(w')
    ensures GlobalInv(n, w')
  {
    hide AllReadable, Chain, Distinct, InitialPair;
    WrittenReadable(n, w, name, write, w');
  }

  lemma RuntimeWriteStep(n: Names, w: World, name: LookupName, write: Write, w': World)
    requires Inv(n, w) && DoRuntimeWrite(w, name, write) == Some(w')
    ensures Inv(n, w')
  {
    hide GlobalInv, HolderOK;
    WrittenGlobal(n, w, name, write, w');
    forall q | q in w'.processes ensures HolderOK(n, w', w'.processes[q]) {
      WriteHolder(n, w, name, write, w', w.processes[q]);
    }
  }

  lemma StepKeepsInv(n: Names, w: World, a: Action, w': World)
    requires Inv(n, w) && Next(n, w, a) == Some(w')
    ensures Inv(n, w')
  {
    hide Inv, DoAcceptPair, DoAcceptRelease, DoAcceptSnapshot, DoAcquire, DoAlreadyActive, DoBegin, DoCopyFile, DoCopyRelease, DoDecide,
      DoMakePair, DoMakeRelease, DoMakeSnapshot, DoRead, DoRenamePair, DoRenameRelease, DoRenameSnapshot, DoReplace, DoReread,
      DoReuseRelease, DoReuseSnapshot, DoStage, DoStop, DoWriteReceipt, DoBreakLock, DoSweep, DoResolve, DoRuntimeWrite;
    match a
    case Begin(p, op) => BeginStep(n, w, p, op, w');
    case Acquire(p) => AcquireStep(n, w, p, w');
    case Reread(p) => RereadStep(n, w, p, w');
    case MakeRelease(p, tag) => MakeReleaseStep(n, w, p, tag, w');
    case CopyRelease(p) => CopyReleaseStep(n, w, p, w');
    case WriteReceipt(p) => WriteReceiptStep(n, w, p, w');
    case RenameRelease(p) => RenameReleaseStep(n, w, p, w');
    case AcceptRelease(p) => AcceptReleaseStep(n, w, p, w');
    case ReuseRelease(p) => ReuseReleaseStep(n, w, p, w');
    case AlreadyActive(p) => AlreadyActiveStep(n, w, p, w');
    case MakePair(p, tag) => MakePairStep(n, w, p, tag, w');
    case CopyFile(p) => CopyFileStep(n, w, p, w');
    case RenamePair(p, nonce) => RenamePairStep(n, w, p, nonce, w');
    case AcceptPair(p) => AcceptPairStep(n, w, p, w');
    case MakeSnapshot(p, tag) => MakeSnapshotStep(n, w, p, tag, w');
    case Read(p) => ReadStep(n, w, p, w');
    case Decide(p) => DecideStep(n, w, p, w');
    case RenameSnapshot(p) => RenameSnapshotStep(n, w, p, w');
    case ReuseSnapshot(p) => ReuseSnapshotStep(n, w, p, w');
    case AcceptSnapshot(p) => AcceptSnapshotStep(n, w, p, w');
    case Stage(p, tag, now) => StageStep(n, w, p, tag, now, w');
    case Replace(p) => ReplaceStep(n, w, p, w');
    case Stop(p, c, unlock) => StopStep(n, w, p, c, unlock, w');
    case BreakLock => QuietStep(n, w, w');
    case Sweep(tag) => QuietStep(n, w, w');
    case Resolve => ResolveStep(n, w, w');
    case RuntimeWrite(name, write) => RuntimeWriteStep(n, w, name, write, w');
  }
}
