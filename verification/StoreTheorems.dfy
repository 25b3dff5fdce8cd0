/** Properties of whole runs of the bundle store, over every interleaving, crash point and cleanup. */
module StoreTheorems {
  import opened Common
  import opened StoreTypes
  import opened SnapshotCapture
  import opened StoreMachine
  import opened StoreInvariant
  import opened StoreSteps

  lemma {:induction false} RunKeepsInv(n: Names, w: World, actions: seq<Action>, w': World)
    requires Inv(n, w) && Run(n, w, actions) == Some(w')
    ensures Inv(n, w')
    decreases |actions|
  {
    if actions != [] {
      var v := Run(n, w, actions[..|actions| - 1]).value;
      RunKeepsInv(n, w, actions[..|actions| - 1], v);
      StepKeepsInv(n, v, actions[|actions| - 1], w');
    }
  }

  lemma Reachable(n: Names, actions: seq<Action>, w: World)
    requires Run(n, EMPTY_WORLD, actions) == Some(w)
    ensures Inv(n, w)
  {
    RunKeepsInv(n, EMPTY_WORLD, actions, w);
  }

  /** In every reachable state the pointer is absent or validates, and so does every value it ever had:
      its releases are what their receipts say, its active lookup exists, its rollback snapshot holds
      exactly the pinned bytes, and its two releases differ. */
  lemma PointerAlwaysResolves(n: Names, actions: seq<Action>, w: World)
    requires Run(n, EMPTY_WORLD, actions) == Some(w)
    ensures w.pointer.Some? ==> w.history != [] && w.pointer.value == w.history[|w.history| - 1]
    ensures w.pointer.None? ==> w.history == []
    ensures forall k | 0 <= k < |w.history| :: Readable(n, w.releases, w.lookups, w.history[k])
  {
    Reachable(n, actions, w);
  }

  /** The release is there, with its receipt, and named after its source manifest. */
  ghost predicate Stands(n: Names, releases: map<nat, Release>, ref: ReleaseRef) {
    && ref.rid in releases && releases[ref.rid].content == ref.content && releases[ref.rid].receipt == Some(ref.content)
    && ref.rid == n.release(ref.content.source)
  }

  /** Exactly which pointer values validate, record by record and file by file. */
  lemma ReadableExactly(n: Names, releases: map<nat, Release>, lookups: map<LookupName, Dir>, ptr: Pointer)
    ensures Readable(n, releases, lookups, ptr)
            <==> && Stands(n, releases, ptr.active.release)
                 && ptr.active.lookup in lookups && lookups[ptr.active.lookup].fights.Some? && lookups[ptr.active.lookup].features.Some?
                 && (ptr.rollback.Some? ==>
                       var r := ptr.rollback.value;
                       && Stands(n, releases, r.release) && r.release.rid != ptr.active.release.rid && r.lookup in lookups
                       && lookups[r.lookup].fights == Some(r.capture.identity.fights) && lookups[r.lookup].features == Some(r.capture.identity.features)
                       && lookups[r.lookup].manifest == r.capture.manifest
                       && (if r.capture.manifest.None? then r.capture.identity == r.release.content.seed
                           else r.capture.manifest.value.models == r.release.content.models && r.capture.manifest.value.pinned == r.capture.identity))
  {
  }

  /** Steps other than the replace and a stop do not touch the pointer file. */
  lemma PointerStays(n: Names, w: World, a: Action, w': World)
    requires Next(n, w, a) == Some(w') && !a.Replace? && !a.Stop?
    ensures w'.pointer == w.pointer && w'.history == w.history
  {
    hide Readable, Judge;
  }

  /** Only the atomic replace moves the pointer, it moves it to the staged value, and the staged value was
      built on the pointer it replaces. Any other step, raise, cleanup or crash leaves the old value. */
  lemma PointerIsOldOrNew(n: Names, w: World, a: Action, w': World)
    requires Inv(n, w) && Next(n, w, a) == Some(w')
    ensures a.Replace? ==>
              && a.p in w.processes && w.lock == Some(a.p)
              && w.processes[a.p].basis == w.pointer
              && w.processes[a.p].phase.Staged? && w'.pointer == Some(w.processes[a.p].phase.next)
              && w'.history == w.history + [w.processes[a.p].phase.next]
    ensures !a.Replace? ==> w'.pointer == w.pointer && w'.history == w.history
  {
    hide DoAcceptPair, DoAcceptRelease, DoAcceptSnapshot, DoAcquire, DoAlreadyActive, DoBegin, DoBreakLock, DoCopyFile,
      DoCopyRelease, DoDecide, DoMakePair, DoMakeRelease, DoMakeSnapshot, DoRead, DoRenamePair, DoRenameRelease,
      DoRenameSnapshot, DoReread, DoResolve, DoReuseRelease, DoReuseSnapshot, DoRuntimeWrite, DoStage, DoSweep,
      DoWriteReceipt;
    if a.Replace? {
      assert HolderOK(n, w, w.processes[a.p]);
    } else if a.Stop? {
      HolderOwns(n, w, w.processes[a.p]);
      CleanUpAgrees(n, w, w.processes[a.p], a.cleanup);
    } else {
      PointerStays(n, w, a, w');
    }
  }

  lemma {:induction false} HistoryGrows(n: Names, w: World, actions: seq<Action>, w': World)
    requires Inv(n, w) && Run(n, w, actions) == Some(w')
    ensures w.history <= w'.history
    decreases |actions|
  {
    if actions != [] {
      var v := Run(n, w, actions[..|actions| - 1]).value;
      HistoryGrows(n, w, actions[..|actions| - 1], v);
      RunKeepsInv(n, w, actions[..|actions| - 1], v);
      PointerIsOldOrNew(n, v, actions[|actions| - 1], w');
    }
  }

  /** No run deletes or changes what a pointer has named: releases and rollback snapshots keep their
      contents for good, and active lookups stay in place with both CSVs. */
  lemma NamedIsForever(n: Names, w: World, actions: seq<Action>, w': World, k: nat)
    requires Inv(n, w) && Run(n, w, actions) == Some(w') && k < |w.history|
    ensures var ptr := w.history[k];
      && ptr.active.release.rid in w.releases && ptr.active.release.rid in w'.releases
      && w'.releases[ptr.active.release.rid] == w.releases[ptr.active.release.rid]
      && ptr.active.lookup in w'.lookups && HasPair(w'.lookups[ptr.active.lookup])
      && (ptr.rollback.Some? ==>
        && ptr.rollback.value.lookup in w.lookups && ptr.rollback.value.lookup in w'.lookups
        && w'.lookups[ptr.rollback.value.lookup] == w.lookups[ptr.rollback.value.lookup]
        && ptr.rollback.value.release.rid in w.releases && ptr.rollback.value.release.rid in w'.releases
        && w'.releases[ptr.rollback.value.release.rid] == w.releases[ptr.rollback.value.release.rid])
  {
    RunKeepsInv(n, w, actions, w');
    HistoryGrows(n, w, actions, w');
    assert w'.history[k] == w.history[k];
    assert Readable(n, w.releases, w.lookups, w.history[k]);
    assert Readable(n, w'.releases, w'.lookups, w'.history[k]);
  }

  /** The comparison of active records alone is enough: if a run ends with the active record it started
      with, the pointer was not replaced in between, not even there and back. */
  lemma NoAba(n: Names, before: seq<Action>, w: World, actions: seq<Action>, w': World)
    requires Run(n, EMPTY_WORLD, before) == Some(w) && Run(n, w, actions) == Some(w')
    ensures w.pointer.Some? && w'.pointer.Some? && w'.pointer.value.active == w.pointer.value.active ==>
              w'.history == w.history && w'.pointer == w.pointer
  {
    hide Run, AllReadable, Served, Faithful, SeenNamed, Chain, OneHolder, HoldersOK;
    Reachable(n, before, w);
    RunKeepsInv(n, w, actions, w');
    HistoryGrows(n, w, actions, w');
    if w.pointer.Some? && w'.pointer.Some? && w'.pointer.value.active == w.pointer.value.active {
      var i, j := |w.history| - 1, |w'.history| - 1;
      assert w'.history[i] == w.history[i] == w.pointer.value;
      assert w'.history[j] == w'.pointer.value;
      assert w'.history[i].active.lookup == w'.history[j].active.lookup;
    }
  }

  // ---- what an operation saw before the lock ----

  ghost predicate SamePreflight(w: World, w': World, p: nat) {
    p in w.processes ==> p in w'.processes && w'.processes[p].op == w.processes[p].op && w'.processes[p].preflight == w.processes[p].preflight
  }

  lemma ReleaseWorkKeeps(n: Names, w: World, a: Action, w': World, p: nat)
    requires match a
             case MakeRelease(q, tag) => DoMakeRelease(n, w, q, tag) == Some(w')
             case CopyRelease(q) => DoCopyRelease(w, q) == Some(w')
             case WriteReceipt(q) => DoWriteReceipt(w, q) == Some(w')
             case RenameRelease(q) => DoRenameRelease(n, w, q) == Some(w')
             case AcceptRelease(q) => DoAcceptRelease(n, w, q) == Some(w')
             case ReuseRelease(q) => DoReuseRelease(n, w, q) == Some(w')
             case _ => false
    ensures SamePreflight(w, w', p)
  {
    hide ReleaseReadable;
  }

  lemma PairWorkKeeps(w: World, a: Action, w': World, p: nat)
    requires match a
             case MakePair(q, tag) => DoMakePair(w, q, tag) == Some(w')
             case CopyFile(q) => DoCopyFile(w, q) == Some(w')
             case RenamePair(q, nonce) => DoRenamePair(w, q, nonce) == Some(w')
             case AcceptPair(q) => DoAcceptPair(w, q) == Some(w')
             case _ => false
    ensures SamePreflight(w, w', p)
  {
  }

  lemma SnapshotWorkKeeps(n: Names, w: World, a: Action, w': World, p: nat)
    requires match a
             case MakeSnapshot(q, tag) => DoMakeSnapshot(w, q, tag) == Some(w')
             case Read(q) => DoRead(w, q) == Some(w')
             case Decide(q) => DoDecide(w, q) == Some(w')
             case RenameSnapshot(q) => DoRenameSnapshot(n, w, q) == Some(w')
             case ReuseSnapshot(q) => DoReuseSnapshot(n, w, q) == Some(w')
             case AcceptSnapshot(q) => DoAcceptSnapshot(w, q) == Some(w')
             case _ => false
    ensures SamePreflight(w, w', p)
  {
    hide Judge;
  }

  /** Neither what an operation was asked nor what it saw before the lock is ever rewritten. */
  lemma StepKeepsPreflight(n: Names, w: World, a: Action, w': World, p: nat)
    requires Next(n, w, a) == Some(w')
    ensures SamePreflight(w, w', p)
  {
    hide Readable, CleanUp, DoMakeRelease, DoCopyRelease, DoWriteReceipt, DoRenameRelease, DoAcceptRelease, DoReuseRelease, DoMakePair,
      DoCopyFile, DoRenamePair, DoAcceptPair, DoMakeSnapshot, DoRead, DoDecide, DoRenameSnapshot, DoReuseSnapshot, DoAcceptSnapshot;
    if a.MakeRelease? || a.CopyRelease? || a.WriteReceipt? || a.RenameRelease? || a.AcceptRelease? || a.ReuseRelease? {
      ReleaseWorkKeeps(n, w, a, w', p);
    } else if a.MakePair? || a.CopyFile? || a.RenamePair? || a.AcceptPair? {
      PairWorkKeeps(w, a, w', p);
    } else if a.MakeSnapshot? || a.Read? || a.Decide? || a.RenameSnapshot? || a.ReuseSnapshot? || a.AcceptSnapshot? {
      SnapshotWorkKeeps(n, w, a, w', p);
    } else if a.Stop? {
      CleanUpSpares(n, w, w.processes[a.p], a.cleanup);
    }
  }

  lemma CleanUpSpares(n: Names, w: World, pr: Process, c: Cleanup)
    ensures CleanUp(n, w, pr, c).processes == w.processes
  {
  }

  lemma {:induction false} RunKeepsPreflight(n: Names, w: World, actions: seq<Action>, w': World, p: nat)
    requires Run(n, w, actions) == Some(w') && p in w.processes
    ensures p in w'.processes && w'.processes[p].op == w.processes[p].op && w'.processes[p].preflight == w.processes[p].preflight
    decreases |actions|
  {
    hide Next;
    if actions != [] {
      var v := Run(n, w, actions[..|actions| - 1]).value;
      RunKeepsPreflight(n, w, actions[..|actions| - 1], v, p);
      StepKeepsPreflight(n, v, actions[|actions| - 1], w', p);
    }
  }

  /** Installer p begins op in the world w, which a run has reached, and another run leads on to u. */
  ghost predicate Underway(n: Names, before: seq<Action>, w: World, p: nat, op: Op, during: seq<Action>, u: World) {
    && Run(n, EMPTY_WORLD, before) == Some(w)
    && Run(n, w, [Begin(p, op)] + during) == Some(u)
  }

  lemma {:induction false} RunConcat(n: Names, w: World, a: seq<Action>, b: seq<Action>)
    ensures Run(n, w, a + b) == match Run(n, w, a) case None => None case Some(v) => Run(n, v, b)
    decreases |b|
  {
    hide Next;
    if b == [] {
      assert a + b == a;
    } else {
      RunConcat(n, w, a, b[..|b| - 1]);
      assert (a + b)[..|a + b| - 1] == a + b[..|b| - 1];
    }
  }

  lemma UnderwayIs(n: Names, before: seq<Action>, w: World, p: nat, op: Op, during: seq<Action>, u: World)
    requires Underway(n, before, w, p, op, during, u)
    ensures p in u.processes && u.processes[p].op == op && u.processes[p].preflight == if op.Initialize? then None else w.pointer
    ensures Inv(n, w) && Inv(n, u) && Run(n, w, [Begin(p, op)] + during) == Some(u) && w.history <= u.history
  {
    hide Next, Inv;
    Reachable(n, before, w);
    RunConcat(n, w, [Begin(p, op)], during);
    assert [Begin(p, op)][..0] == [];
    var v := Next(n, w, Begin(p, op)).value;
    BeginSees(n, w, p, op, v);
    RunKeepsPreflight(n, v, during, u, p);
    RunKeepsInv(n, w, [Begin(p, op)] + during, u);
    HistoryGrows(n, w, [Begin(p, op)] + during, u);
  }

  lemma BeginSees(n: Names, w: World, p: nat, op: Op, v: World)
    requires Next(n, w, Begin(p, op)) == Some(v)
    ensures p in v.processes && v.processes[p].op == op && v.processes[p].preflight == if op.Initialize? then None else w.pointer
  {
    hide Readable;
  }

  /** Over all runs, exactly when the re-read under the lock lets an operation go on: when nobody has replaced the
      pointer since its preflight, and, but for a rollback, no pointer temporary lies about. A first
      initialization wants a store with nothing in it. */
  lemma RereadExactly(n: Names, before: seq<Action>, w: World, p: nat, op: Op, during: seq<Action>, u: World)
    requires Underway(n, before, w, p, op, during, u) && At(u, p, Locked)
    ensures Next(n, u, Reread(p)).Some?
            <==> if op.Initialize? then u.history == [] && u.strays == {} && u.releases == map[] && u.incoming == map[] && u.lookups == map[]
                 else u.history == w.history && (op.Rollback? || u.strays == {})
  {
    hide Run, Next, Served, Faithful, SeenNamed, Chain, OneHolder;
    UnderwayIs(n, before, w, p, op, during, u);
    assert HolderOK(n, u, u.processes[p]);
    RereadMeans(n, u, p);
    if !op.Initialize? {
      NoAba(n, before, w, [Begin(p, op)] + during, u);
      assert AllReadable(n, u);
    }
  }

  lemma RereadMeans(n: Names, u: World, p: nat)
    requires p in u.processes && u.processes[p].phase == Locked && PreflightOK(u.processes[p])
    requires u.pointer.Some? ==> Readable(n, u.releases, u.lookups, u.pointer.value)
    ensures var pr := u.processes[p];
            Next(n, u, Reread(p)).Some?
            <==> if pr.op.Initialize? then u.pointer == None && u.strays == {} && u.releases == map[] && u.incoming == map[] && u.lookups == map[]
                 else && u.pointer.Some? && u.pointer.value.active == pr.preflight.value.active
                      && (pr.op.Handover? ==> u.pointer == pr.preflight)
                      && (pr.op.Rollback? ==> u.pointer.value.rollback == pr.preflight.value.rollback)
                      && (pr.op.Rollback? || u.strays == {})
  {
    hide Readable;
  }

  /** Over all runs, what an operation puts in place is what it was asked for, built on the pointer its preflight
      saw: nobody has replaced that in between, the outgoing release is the expected one and is what is retained
      for rollback, the incoming one is the source's or the rollback target, and a promotion seals the very pair
      that was approved. */
  lemma ReplaceIsAsAsked(n: Names, before: seq<Action>, w: World, p: nat, op: Op, during: seq<Action>, u: World, x: World)
    requires Underway(n, before, w, p, op, during, u) && Next(n, u, Replace(p)) == Some(x)
    ensures u.history == w.history && x.history == w.history + [x.history[|x.history| - 1]] && x.pointer == Some(x.history[|x.history| - 1])
    ensures var next := x.pointer.value;
            match op
            case Initialize(source) => w.history == [] && next.active.release.content.source == source.source && next.rollback == None
            case Promote(source, expected, approved) =>
              && w.pointer.Some? && w.pointer.value.active.release == expected
              && next.active.release.content.source == source.source && next.active.release.rid != expected.rid
              && next.rollback.Some? && next.rollback.value.release == expected && next.rollback.value.capture.identity == approved
            case Handover(source, expected) =>
              && w.pointer.Some? && w.pointer.value.active.release == expected
              && next.active.release.content.source == source.source && next.active.release.rid != expected.rid && next.rollback == None
            case Rollback(expected, target) =>
              && w.pointer.Some? && w.pointer.value.active.release == expected
              && next.active.release == target && next.rollback.Some? && next.rollback.value.release == expected
  {
    hide Run, Next, Served, Faithful, SeenNamed, Chain, OneHolder, AllReadable, Distinct;
    UnderwayIs(n, before, w, p, op, during, u);
    PointerIsOldOrNew(n, u, Replace(p), x);
    assert HolderOK(n, u, u.processes[p]);
    if op.Initialize? {
      assert u.history == [];
    } else {
      NoAba(n, before, w, [Begin(p, op)] + during, u);
    }
  }

  /** The pointer's history is one chain, from an initialization, of ordinary promotions that each set rollback
      to the release active before, handovers that set none, and rollbacks that exchange the two; no activation
      reuses a lookup. */
  lemma LinearHistory(n: Names, actions: seq<Action>, w: World)
    requires Run(n, EMPTY_WORLD, actions) == Some(w)
    ensures Chain(w.history) && Distinct(w.history)
  {
    Reachable(n, actions, w);
  }

  /** What activation k serves changes only by runtime writes addressed to activation k's own lookup:
      a process still writing to any other one, and every installer and crash, leave it as it was. */
  lemma {:induction false} OnlyOwnWriters(n: Names, w: World, actions: seq<Action>, w': World, k: nat)
    requires Inv(n, w) && Run(n, w, actions) == Some(w') && k < |w.history|
    requires forall i | 0 <= i < |actions| && actions[i].RuntimeWrite? :: actions[i].name != w.history[k].active.lookup
    ensures w.history[k].active.lookup in w.lookups && w.history[k].active.lookup in w'.lookups
    ensures w'.lookups[w.history[k].active.lookup] == w.lookups[w.history[k].active.lookup]
    decreases |actions|
  {
    assert Readable(n, w.releases, w.lookups, w.history[k]);
    if actions != [] {
      var before, a := actions[..|actions| - 1], actions[|actions| - 1];
      var v := Run(n, w, before).value;
      OnlyOwnWriters(n, w, before, v, k);
      RunKeepsInv(n, w, before, v);
      HistoryGrows(n, w, before, v);
      assert v.history[k] == w.history[k];
      StepSparesLookup(n, v, a, w', w.history[k].active.lookup);
    }
  }

  lemma StepSparesLookup(n: Names, w: World, a: Action, w': World, name: LookupName)
    requires Inv(n, w) && Next(n, w, a) == Some(w')
    requires NamesLookup(w.history, name) && name in w.lookups
    requires a.RuntimeWrite? ==> a.name != name
    ensures name in w'.lookups && w'.lookups[name] == w.lookups[name]
  {
    hide PointerIsLast, Chain, Distinct, Served, Faithful, SeenNamed, AllReadable, DoAcceptPair, DoAcceptRelease,
      DoAcceptSnapshot, DoAcquire, DoAlreadyActive, DoBegin, DoBreakLock, DoCopyFile, DoCopyRelease, DoDecide,
      DoMakePair, DoMakeRelease, DoMakeSnapshot, DoRead, DoRenamePair, DoRenameRelease, DoRenameSnapshot, DoReplace,
      DoReread, DoResolve, DoReuseRelease, DoReuseSnapshot, DoStage, DoSweep, DoWriteReceipt;
    NamedIsPresent(n, w);
    if a.Stop? {
      HolderOwns(n, w, w.processes[a.p]);
      CleanUpAgrees(n, w, w.processes[a.p], a.cleanup);
    } else if !a.RuntimeWrite? {
      InstallerSpares(n, w, a, w', name);
    }
  }

  lemma PairSpares(w: World, a: Action, w': World, name: LookupName)
    requires name in w.lookups && !name.Incoming?
    requires match a
             case MakePair(p, tag) => DoMakePair(w, p, tag) == Some(w')
             case CopyFile(p) => DoCopyFile(w, p) == Some(w')
             case RenamePair(p, nonce) => DoRenamePair(w, p, nonce) == Some(w')
             case _ => false
    ensures name in w'.lookups && w'.lookups[name] == w.lookups[name]
  {
  }

  lemma SnapshotSpares(n: Names, w: World, a: Action, w': World, name: LookupName)
    requires name in w.lookups && !name.Incoming?
    requires match a
             case MakeSnapshot(p, tag) => DoMakeSnapshot(w, p, tag) == Some(w')
             case Read(p) => DoRead(w, p) == Some(w')
             case Decide(p) => DoDecide(w, p) == Some(w')
             case RenameSnapshot(p) => DoRenameSnapshot(n, w, p) == Some(w')
             case ReuseSnapshot(p) => DoReuseSnapshot(n, w, p) == Some(w')
             case _ => false
    ensures name in w'.lookups && w'.lookups[name] == w.lookups[name]
  {
    hide Judge;
  }

  lemma InstallerSpares(n: Names, w: World, a: Action, w': World, name: LookupName)
    requires Next(n, w, a) == Some(w') && name in w.lookups && !name.Incoming?
    requires !a.RuntimeWrite? && !a.Stop?
    ensures name in w'.lookups && w'.lookups[name] == w.lookups[name]
  {
    hide Readable, DoMakePair, DoCopyFile, DoRenamePair, DoMakeSnapshot, DoRead, DoDecide, DoRenameSnapshot, DoReuseSnapshot;
    if a.MakePair? || a.CopyFile? || a.RenamePair? {
      PairSpares(w, a, w', name);
    } else if a.MakeSnapshot? || a.Read? || a.Decide? || a.RenameSnapshot? || a.ReuseSnapshot? {
      SnapshotSpares(n, w, a, w', name);
    }
  }

  /** Until a runtime writes in it, an activation serves exactly the pair it was made from: the release
      seed, or after a rollback the pair that the snapshot of the outgoing generation pinned. */
  lemma ServesItsOrigin(n: Names, actions: seq<Action>, w: World, k: nat)
    requires Run(n, EMPTY_WORLD, actions) == Some(w) && k < |w.history|
    requires w.history[k].active.lookup !in w.touched
    ensures w.history[k].active.lookup in w.lookups
    ensures w.lookups[w.history[k].active.lookup] == PairDir(InitialPair(w.history, k))
  {
    Reachable(n, actions, w);
  }

  /** Two rollbacks in a row restore both releases, and the activation they end with starts from the pair
      the first of them captured; with no runtime write to the original activation, that is its own pair. */
  lemma TwoRollbacksRestore(n: Names, actions: seq<Action>, w: World, k: nat)
    requires Run(n, EMPTY_WORLD, actions) == Some(w) && k + 2 < |w.history|
    requires w.history[k + 1].action == RolledBack && w.history[k + 2].action == RolledBack
    ensures w.history[k + 2].active.release == w.history[k].active.release
    ensures w.history[k].rollback.Some? && w.history[k + 2].rollback.Some?
    ensures w.history[k + 2].rollback.value.release == w.history[k].rollback.value.release
    ensures w.history[k + 1].rollback.Some?
    ensures InitialPair(w.history, k + 2) == w.history[k + 1].rollback.value.capture.identity
    ensures w.history[k].active.lookup !in w.touched ==> InitialPair(w.history, k + 2) == InitialPair(w.history, k)
  {
    Reachable(n, actions, w);
    var h := w.history;
    assert Follows(h[k], h[k + 1]) by { assert h[k + 1] == h[k + 1]; }
    assert Follows(h[k + 1], h[k + 2]) by { assert h[k + 2] == h[k + 2]; }
  }

  // ---- what a crash can cost ----

  /** No pointer yet, something already under releases/ or lookups/, and nobody between its re-read and
      its replace. */
  predicate Stranded(w: World) {
    && w.pointer.None?
    && (w.releases != map[] || w.incoming != map[] || w.lookups != map[])
    && w.seen == {}
    && forall p | p in w.processes :: !Past(w.processes[p].phase) && !w.processes[p].phase.Settled?
  }

  /** A crash of the first initialization after it has created anything is final: no later run, with the
      lock broken and the top level swept as often as one likes, ever sets the pointer. */
  lemma {:induction false} StrandedForever(n: Names, w: World, actions: seq<Action>, w': World)
    requires Stranded(w) && Run(n, w, actions) == Some(w')
    ensures Stranded(w') && w'.releases == w.releases && w'.incoming == w.incoming && w'.lookups == w.lookups
    decreases |actions|
  {
    if actions != [] {
      var v := Run(n, w, actions[..|actions| - 1]).value;
      StrandedForever(n, w, actions[..|actions| - 1], v);
      StrandedStep(n, v, actions[|actions| - 1], w');
    }
  }

  /** The steps of an installer that has re-read the pointer. */
  predicate IsWork(a: Action) {
    || a.MakeRelease? || a.CopyRelease? || a.WriteReceipt? || a.RenameRelease? || a.AcceptRelease? || a.ReuseRelease?
    || a.AlreadyActive? || a.MakePair? || a.CopyFile? || a.RenamePair? || a.AcceptPair? || a.MakeSnapshot? || a.Read?
    || a.Decide? || a.RenameSnapshot? || a.ReuseSnapshot? || a.AcceptSnapshot? || a.Stage? || a.Replace?
  }

  lemma StrandedPublishesNothing(n: Names, w: World, a: Action)
    requires Stranded(w) && IsWork(a) && a.p in w.processes
    ensures (a.MakeRelease? || a.CopyRelease? || a.WriteReceipt? || a.RenameRelease? || a.AcceptRelease? || a.ReuseRelease?
             || a.AlreadyActive? || a.MakePair? || a.CopyFile? || a.RenamePair? || a.AcceptPair?) ==> Next(n, w, a).None?
  {
    hide DoMakeSnapshot, DoRead, DoDecide, DoRenameSnapshot, DoReuseSnapshot, DoAcceptSnapshot, DoStage, DoReplace, DoStop, DoBegin, DoReread,
      Stranded;
    StrandedPhases(w, a.p);
  }

  lemma StrandedPhases(w: World, p: nat)
    requires Stranded(w) && p in w.processes
    ensures !Past(w.processes[p].phase) && !w.processes[p].phase.Settled?
  {
  }

  lemma StrandedDoesNoWork(n: Names, w: World, a: Action)
    requires Stranded(w) && IsWork(a)
    ensures Next(n, w, a).None?
  {
    hide DoMakeRelease, DoCopyRelease, DoWriteReceipt, DoRenameRelease, DoAcceptRelease, DoReuseRelease, DoAlreadyActive, DoMakePair, DoCopyFile,
      DoRenamePair, DoAcceptPair, DoStop, DoBegin, DoReread, Readable, Judge;
    if a.p in w.processes { StrandedPublishesNothing(n, w, a); } else { NobodyWorks(n, w, a); }
  }

  lemma NobodyWorks(n: Names, w: World, a: Action)
    requires IsWork(a) && a.p !in w.processes
    ensures Next(n, w, a).None?
  {
  }

  lemma StrandedStep(n: Names, w: World, a: Action, w': World)
    requires Stranded(w) && Next(n, w, a) == Some(w')
    ensures Stranded(w') && w'.releases == w.releases && w'.incoming == w.incoming && w'.lookups == w.lookups
  {
    hide Readable, DoAcceptPair, DoAcceptRelease, DoAcceptSnapshot, DoAlreadyActive, DoCopyFile, DoCopyRelease, DoDecide, DoMakePair,
      DoMakeRelease, DoMakeSnapshot, DoRead, DoRenamePair, DoRenameRelease, DoRenameSnapshot, DoReplace, DoReuseRelease, DoReuseSnapshot,
      DoStage, DoWriteReceipt;
    if IsWork(a) { StrandedDoesNoWork(n, w, a); }
  }

  /** A pointer temporary left at the top level, and nobody on the way. */
  predicate Fouled(w: World) {
    w.strays != {} && forall p | p in w.processes :: w.processes[p].phase.Ended?
  }

  /** A crash while the pointer temporary exists closes the store: until the operator sweeps it, no
      operation starts and the pointer, which still validates, does not move. */
  lemma {:induction false} FouledStaysClosed(n: Names, w: World, actions: seq<Action>, w': World)
    requires Fouled(w) && Run(n, w, actions) == Some(w')
    requires forall i | 0 <= i < |actions| :: !actions[i].Sweep?
    ensures Fouled(w') && w'.pointer == w.pointer && w'.processes == w.processes
    decreases |actions|
  {
    if actions != [] {
      var v := Run(n, w, actions[..|actions| - 1]).value;
      FouledStaysClosed(n, w, actions[..|actions| - 1], v);
      FouledStep(n, v, actions[|actions| - 1], w');
    }
  }

  lemma FouledStep(n: Names, w: World, a: Action, w': World)
    requires Fouled(w) && Next(n, w, a) == Some(w') && !a.Sweep?
    ensures Fouled(w') && w'.pointer == w.pointer && w'.processes == w.processes
  {
  }
}
