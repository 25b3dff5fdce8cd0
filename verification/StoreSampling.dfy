/** The capture protocol inside the store machine: whatever other installers, operators and runtime writers do
    between its reads, an installer's attempt is the attempt of SnapshotCapture on what it read; and the order in
    which an installer takes its steps. */
module StoreSampling {
  import opened Common
  import opened StoreTypes
  import opened SnapshotCapture
  import opened StoreMachine

  /** The action is a step of installer p. */
  predicate By(a: Action, p: nat) {
    !a.BreakLock? && !a.Sweep? && !a.Resolve? && !a.RuntimeWrite? && a.p == p
  }

  ghost predicate Sampling(w: World, p: nat, tag: nat, attempt: nat, done: nat) {
    && p in w.processes && w.processes[p].basis.Some?
    && w.processes[p].phase.Sampling? && w.processes[p].phase.tag == tag && w.processes[p].phase.attempt == attempt
    && w.processes[p].phase.done == done
  }

  ghost predicate SameBut(w: World, w': World, p: nat) {
    (p in w'.processes <==> p in w.processes) && (p in w.processes ==> w'.processes[p] == w.processes[p])
  }

  lemma OthersReleases(n: Names, w: World, a: Action, w': World, p: nat)
    requires Next(n, w, a) == Some(w') && !By(a, p)
    requires a.MakeRelease? || a.CopyRelease? || a.WriteReceipt? || a.RenameRelease? || a.AcceptRelease? || a.ReuseRelease?
    ensures SameBut(w, w', p)
  {
    hide ReleaseReadable;
  }

  lemma OthersPairs(n: Names, w: World, a: Action, w': World, p: nat)
    requires Next(n, w, a) == Some(w') && !By(a, p)
    requires a.MakePair? || a.CopyFile? || a.RenamePair? || a.AcceptPair?
    ensures SameBut(w, w', p)
  {
    hide PairDue, IsAlreadyActive, FreshPair;
  }

  lemma OthersSnapshots(n: Names, w: World, a: Action, w': World, p: nat)
    requires Next(n, w, a) == Some(w') && !By(a, p)
    requires a.MakeSnapshot? || a.Read? || a.Decide? || a.RenameSnapshot? || a.ReuseSnapshot? || a.AcceptSnapshot?
    ensures SameBut(w, w', p)
  {
    hide SnapshotDue, Judge;
  }

  lemma CleanUpLeaves(n: Names, w: World, pr: Process, c: Cleanup)
    ensures CleanUp(n, w, pr, c).processes == w.processes
  {
  }

  lemma OthersLeave(n: Names, w: World, a: Action, w': World, p: nat)
    requires Next(n, w, a) == Some(w') && !By(a, p)
    ensures SameBut(w, w', p)
  {
    hide Readable, CleanUp, RollbackReadable, StageDue;
    if a.MakeRelease? || a.CopyRelease? || a.WriteReceipt? || a.RenameRelease? || a.AcceptRelease? || a.ReuseRelease? {
      OthersReleases(n, w, a, w', p);
    } else if a.MakePair? || a.CopyFile? || a.RenamePair? || a.AcceptPair? {
      OthersPairs(n, w, a, w', p);
    } else if a.MakeSnapshot? || a.Read? || a.Decide? || a.RenameSnapshot? || a.ReuseSnapshot? || a.AcceptSnapshot? {
      OthersSnapshots(n, w, a, w', p);
    } else if a.Stop? {
      CleanUpLeaves(n, w, w.processes[a.p], a.cleanup);
    }
  }

  /** In the middle of an attempt an installer can read on, decide or stop, and nothing else. */
  lemma OnlyReads(n: Names, w: World, a: Action, w': World, p: nat)
    requires Next(n, w, a) == Some(w') && By(a, p) && p in w.processes && w.processes[p].phase.Sampling?
    ensures a.Read? || a.Decide? || a.Stop?
  {
    hide Readable, CleanUp, RollbackReadable, ReleaseReadable, Judge, IsAlreadyActive, FreshPair;
  }

  // ---- what was read ----

  /** The lookup directory that installer p is copying, as it stands. */
  ghost function SourceDir(w: Option<World>, p: nat): Dir {
    if w.Some? && p in w.value.processes && w.value.processes[p].basis.Some?
       && w.value.processes[p].basis.value.active.lookup in w.value.lookups
    then w.value.lookups[w.value.processes[p].basis.value.active.lookup]
    else EMPTY_DIR
  }

  /** The directory's states at installer p's reads along a run. */
  ghost function DirsRead(n: Names, w: World, actions: seq<Action>, p: nat): seq<Dir> {
    if actions == [] then [] else
      var front := actions[..|actions| - 1];
      DirsRead(n, w, front, p) + if actions[|actions| - 1] == Read(p) then [SourceDir(Run(n, w, front), p)] else []
  }

  /** The sample holds what the reads so far found: the CSVs before, the manifest, the CSVs and manifest copied, the
      CSVs after, the manifest after. */
  ghost predicate AsRead(s: Sample, dirs: seq<Dir>) {
    && (forall i | 0 <= i < |dirs| :: HasPair(dirs[i]))
    && (|dirs| > 0 ==> dirs[0].fights == Some(s.before.fights)) && (|dirs| > 1 ==> dirs[1].features == Some(s.before.features))
    && (|dirs| > 2 ==> dirs[2].manifest == s.manifestBefore)
    && (|dirs| > 3 ==> dirs[3].fights == Some(s.copied.fights)) && (|dirs| > 4 ==> dirs[4].features == Some(s.copied.features))
    && (|dirs| > 5 ==> s.manifestCopied == if dirs[2].manifest.Some? then dirs[5].manifest else None)
    && (|dirs| > 6 ==> dirs[6].fights == Some(s.after.fights)) && (|dirs| > 7 ==> dirs[7].features == Some(s.after.features))
    && (|dirs| > 8 ==> dirs[8].manifest == s.manifestAfter)
  }

  lemma ReadOn(w: World, w': World, p: nat, tag: nat, attempt: nat, dirs: seq<Dir>)
    requires Sampling(w, p, tag, attempt, |dirs|) && AsRead(w.processes[p].phase.sample, dirs) && DoRead(w, p) == Some(w')
    ensures var dirs' := dirs + [SourceDir(Some(w), p)];
            && Sampling(w', p, tag, attempt, |dirs'|) && AsRead(w'.processes[p].phase.sample, dirs') && |dirs'| <= READS
            && w'.processes[p].op == w.processes[p].op && w'.processes[p].basis == w.processes[p].basis
  {
    var dirs' := dirs + [SourceDir(Some(w), p)];
    assert forall i | 0 <= i < |dirs| :: dirs'[i] == dirs[i];
    assert dirs'[|dirs|] == w.lookups[w.processes[p].basis.value.active.lookup];
  }

  ghost predicate Undecided(actions: seq<Action>, p: nat) {
    forall a | a in actions && By(a, p) :: !a.Decide? && !a.Stop?
  }

  /** Along any run the sample of an attempt is what its own reads found, in their order and number. */
  lemma {:induction false} SampleIsRead(n: Names, w: World, actions: seq<Action>, u: World, p: nat, tag: nat, attempt: nat)
    requires Run(n, w, actions) == Some(u) && Undecided(actions, p)
    requires Sampling(w, p, tag, attempt, 0)
    ensures var dirs := DirsRead(n, w, actions, p);
            && |dirs| <= READS && Sampling(u, p, tag, attempt, |dirs|) && AsRead(u.processes[p].phase.sample, dirs)
            && u.processes[p].op == w.processes[p].op && u.processes[p].basis == w.processes[p].basis
    decreases |actions|
  {
    hide Next, AsRead, SourceDir;
    if actions == [] {
      assert AsRead(w.processes[p].phase.sample, []) by { NothingRead(w.processes[p].phase.sample); }
    } else {
      var front, a := actions[..|actions| - 1], actions[|actions| - 1];
      var v := Run(n, w, front).value;
      assert a in actions && forall b | b in front :: b in actions;
      SampleIsRead(n, w, front, v, p, tag, attempt);
      SampleStep(n, v, a, u, p, tag, attempt, DirsRead(n, w, front, p));
    }
  }

  lemma NothingRead(s: Sample)
    ensures AsRead(s, [])
  {
  }

  lemma SampleStep(n: Names, v: World, a: Action, u: World, p: nat, tag: nat, attempt: nat, dirs: seq<Dir>)
    requires Next(n, v, a) == Some(u) && (By(a, p) ==> !a.Decide? && !a.Stop?)
    requires |dirs| <= READS && Sampling(v, p, tag, attempt, |dirs|) && AsRead(v.processes[p].phase.sample, dirs)
    ensures var dirs' := dirs + if a == Read(p) then [SourceDir(Some(v), p)] else [];
            && |dirs'| <= READS && Sampling(u, p, tag, attempt, |dirs'|) && AsRead(u.processes[p].phase.sample, dirs')
            && u.processes[p].op == v.processes[p].op && u.processes[p].basis == v.processes[p].basis
  {
    hide Next, AsRead, SourceDir;
    if By(a, p) {
      OnlyReads(n, v, a, u, p);
      assert a == Read(p);
      NextRead(n, v, u, p);
      ReadOn(v, u, p, tag, attempt, dirs);
    } else {
      OthersLeave(n, v, a, u, p);
      assert dirs + [] == dirs;
    }
  }

  lemma NextRead(n: Names, w: World, w': World, p: nat)
    ensures Next(n, w, Read(p)) == DoRead(w, p) && Next(n, w, Decide(p)) == DoDecide(w, p)
  {
    hide DoRead, DoDecide;
  }

  // ---- what is decided ----

  function Scheduled(dirs: seq<Dir>): Schedule {
    (t: nat) => if t < |dirs| then dirs[t] else EMPTY_DIR
  }

  lemma SampledAt(s: Sample, dirs: seq<Dir>)
    requires AsRead(s, dirs) && |dirs| == READS
    ensures SampleAt(Scheduled(dirs), 0) == Some(s)
  {
  }

  /** What comes of nine reads along any run is what SnapshotCapture says of them: the capture is taken, the operation
      raises, or another attempt begins, of three in all. So all that is proved there of a writer that never
      waits holds of the store. */
  lemma DecidedAsRead(n: Names, w: World, actions: seq<Action>, u: World, p: nat, tag: nat, attempt: nat)
    requires Run(n, w, actions) == Some(u) && Undecided(actions, p)
    requires Sampling(w, p, tag, attempt, 0) && |DirsRead(n, w, actions, p)| == READS
    ensures Sampling(u, p, tag, attempt, READS) && u.processes[p].op == w.processes[p].op && u.processes[p].basis == w.processes[p].basis
    ensures var dirs, pr := DirsRead(n, w, actions, p), u.processes[p];
            var expected := if pr.op.Promote? then Some(pr.op.approved) else None;
            var next := Next(n, u, Decide(p));
            match AttemptAt(pr.basis.value.active.release.content, expected, Scheduled(dirs), 0)
            case Take(c) => next.Some? && p in next.value.processes && next.value.processes[p] == pr.(phase := Sampled(tag, c))
            case Raise => next == None
            case Retry =>
              if attempt < 2 then
                next.Some? && p in next.value.processes && next.value.processes[p] == pr.(phase := Phase.Sampling(tag, attempt + 1, 0, NO_SAMPLE))
              else next == None
  {
    hide Next, Run, DirsRead, AsRead, Judge, SampleAt;
    SampleIsRead(n, w, actions, u, p, tag, attempt);
    SampledAt(u.processes[p].phase.sample, DirsRead(n, w, actions, p));
    NextRead(n, u, u, p);
  }

  // ---- the order of an operation's steps ----

  /** A promotion publishes its new generation and then seals the outgoing lookup, a rollback the other way round;
      each does both once, and the pointer is staged last. */
  ghost predicate InTurn(pr: Process) {
    match pr.phase
    case PairCopying(_, _) => pr.active.None? && pr.release.Some? && (pr.op.Rollback? <==> pr.rollback.Some?)
    case PairRenamed(_) => pr.active.None? && pr.release.Some? && (pr.op.Rollback? <==> pr.rollback.Some?)
    case Sampling(_, _, _, _) => pr.release.Some? && pr.rollback.None? && (if pr.op.Rollback? then pr.active.None? else pr.op.Promote? && pr.active.Some?)
    case Sampled(_, _) => pr.release.Some? && pr.rollback.None? && (if pr.op.Rollback? then pr.active.None? else pr.op.Promote? && pr.active.Some?)
    case SnapshotRenamed(_, _) => pr.release.Some? && pr.rollback.None? && (if pr.op.Rollback? then pr.active.None? else pr.op.Promote? && pr.active.Some?)
    case Staged(_, _) => pr.active.Some? && (pr.rollback.Some? <==> pr.op.Promote? || pr.op.Rollback?)
    case Settled => true
    case Ended => true
    case _ => Consistent(pr)
  }

  /** What an operation has when it is between two of its parts. */
  predicate Consistent(pr: Process) {
    && (pr.op.Rollback? && pr.active.Some? ==> pr.rollback.Some?)
    && (!pr.op.Rollback? && pr.rollback.Some? ==> pr.op.Promote? && pr.active.Some?)
    && (pr.phase.Ready? || pr.phase.Locked? ==> pr.active.None? && pr.rollback.None?)
    && (pr.phase.ReleaseCopying? || pr.phase.ReleaseCopied? || pr.phase.ReleaseReceipted? || pr.phase.ReleaseRenamed? ==>
          pr.active.None? && pr.rollback.None?)
    && (pr.release.None? ==> pr.active.None? && pr.rollback.None? && (pr.op.Rollback? ==> pr.basis.None?))
  }

  ghost predicate AllInTurn(w: World) {
    forall p | p in w.processes :: InTurn(w.processes[p])
  }

  lemma OwnReleases(n: Names, w: World, a: Action, w': World, p: nat)
    requires Next(n, w, a) == Some(w') && By(a, p) && p in w.processes && InTurn(w.processes[p])
    requires a.MakeRelease? || a.CopyRelease? || a.WriteReceipt? || a.RenameRelease? || a.AcceptRelease? || a.ReuseRelease?
    ensures p in w'.processes && InTurn(w'.processes[p])
  {
    hide ReleaseReadable;
  }

  lemma OwnPairs(n: Names, w: World, a: Action, w': World, p: nat)
    requires Next(n, w, a) == Some(w') && By(a, p) && p in w.processes && InTurn(w.processes[p])
    requires a.MakePair? || a.CopyFile? || a.RenamePair? || a.AcceptPair?
    ensures p in w'.processes && InTurn(w'.processes[p])
  {
    hide IsAlreadyActive, FreshPair;
  }

  lemma OwnSnapshots(n: Names, w: World, a: Action, w': World, p: nat)
    requires Next(n, w, a) == Some(w') && By(a, p) && p in w.processes && InTurn(w.processes[p])
    requires a.MakeSnapshot? || a.RenameSnapshot? || a.ReuseSnapshot? || a.AcceptSnapshot?
    ensures p in w'.processes && InTurn(w'.processes[p])
  {
  }

  lemma OwnReads(n: Names, w: World, a: Action, w': World, p: nat)
    requires Next(n, w, a) == Some(w') && By(a, p) && p in w.processes && InTurn(w.processes[p])
    requires a.Read? || a.Decide?
    ensures p in w'.processes && InTurn(w'.processes[p])
  {
    hide Judge;
  }

  lemma OwnEntry(n: Names, w: World, a: Action, w': World, p: nat)
    requires Next(n, w, a) == Some(w') && By(a, p) && (p in w.processes ==> InTurn(w.processes[p]))
    requires a.Begin? || a.Acquire? || a.Reread?
    ensures p in w'.processes && InTurn(w'.processes[p])
  {
    hide Readable;
  }

  lemma OwnExit(n: Names, w: World, a: Action, w': World, p: nat)
    requires Next(n, w, a) == Some(w') && By(a, p) && p in w.processes && InTurn(w.processes[p])
    requires a.AlreadyActive? || a.Stage? || a.Replace? || a.Stop?
    ensures p in w'.processes && InTurn(w'.processes[p])
  {
    hide CleanUp, RollbackReadable, IsAlreadyActive;
  }

  lemma Acts(n: Names, w: World, a: Action, p: nat)
    requires Next(n, w, a).Some? && By(a, p) && !a.Begin?
    ensures p in w.processes
  {
    hide Readable, CleanUp, RollbackReadable, ReleaseReadable, Judge, IsAlreadyActive, FreshPair, PairDue, SnapshotDue, StageDue;
  }

  lemma OwnStep(n: Names, w: World, a: Action, w': World, p: nat)
    requires Next(n, w, a) == Some(w') && By(a, p) && (p in w.processes ==> InTurn(w.processes[p]))
    ensures p in w'.processes && InTurn(w'.processes[p])
  {
    hide Next, InTurn;
    if !a.Begin? { Acts(n, w, a, p); }
    if a.Begin? || a.Acquire? || a.Reread? {
      OwnEntry(n, w, a, w', p);
    } else if a.MakeRelease? || a.CopyRelease? || a.WriteReceipt? || a.RenameRelease? || a.AcceptRelease? || a.ReuseRelease? {
      OwnReleases(n, w, a, w', p);
    } else if a.MakePair? || a.CopyFile? || a.RenamePair? || a.AcceptPair? {
      OwnPairs(n, w, a, w', p);
    } else if a.MakeSnapshot? || a.RenameSnapshot? || a.ReuseSnapshot? || a.AcceptSnapshot? {
      OwnSnapshots(n, w, a, w', p);
    } else if a.Read? || a.Decide? {
      OwnReads(n, w, a, w', p);
    } else {
      OwnExit(n, w, a, w', p);
    }
  }

  lemma StepInTurn(n: Names, w: World, a: Action, w': World)
    requires Next(n, w, a) == Some(w') && AllInTurn(w)
    ensures AllInTurn(w')
  {
    hide Next, InTurn;
    forall q | q in w'.processes ensures InTurn(w'.processes[q]) {
      if By(a, q) { OwnStep(n, w, a, w', q); } else { OthersLeave(n, w, a, w', q); }
    }
  }

  /** So it is in every reachable state, whatever the interleaving. */
  lemma {:induction false} AlwaysInTurn(n: Names, actions: seq<Action>, w: World)
    requires Run(n, EMPTY_WORLD, actions) == Some(w)
    ensures AllInTurn(w)
    decreases |actions|
  {
    hide Next;
    if actions != [] {
      var v := Run(n, EMPTY_WORLD, actions[..|actions| - 1]).value;
      AlwaysInTurn(n, actions[..|actions| - 1], v);
      StepInTurn(n, v, actions[|actions| - 1], w);
    }
  }
}
