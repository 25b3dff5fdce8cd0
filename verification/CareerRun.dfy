/** scripts/build_pre_ufc_career_supplement.py: one run over the queued fighters, committing in batches. A run
    may be killed between any two durable writes; what it leaves is a prefix of its log. */
module CareerRun {
  import opened Common
  import opened CareerStates

  /** One fighter of the run. */
  datatype Entry = Entry(key: string, candidate: Candidate)

  /** How finalizing an output goes: written, written and then raising, or refused by an integrity guard. */
  datatype OutputFate = Stored | StoredThenRaised | RefusedOutput

  /** How recording the references goes (ordinary-provider runs only); the checkpoint is saved on the way. */
  datatype ReferenceFate = Noted | RaisedEarly | RaisedLate

  datatype Fate = Fate(output: OutputFate, references: ReferenceFate)

  const BATCH := 50

  ghost predicate DistinctKeys(entries: seq<Entry>) {
    forall i, j | 0 <= i < j < |entries| :: entries[i].key != entries[j].key
  }

  function PrepareAll(states: Checkpoint, entries: seq<Entry>, track: Track, migrate: bool, n: nat): Checkpoint
    requires n <= |entries|
  {
    if n == 0 then states
    else
      var before := PrepareAll(states, entries, track, migrate, n - 1);
      before[entries[n - 1].key := Prepare(before, entries[n - 1].key, entries[n - 1].candidate, Legacy(entries[n - 1].candidate, track, migrate))]
  }

  lemma {:induction false} PreparedUntouched(states: Checkpoint, entries: seq<Entry>, track: Track, migrate: bool, n: nat, key: string)
    requires n <= |entries| && forall i | 0 <= i < n :: entries[i].key != key
    ensures var p := PrepareAll(states, entries, track, migrate, n);
            (key in p <==> key in states) && (key in states ==> p[key] == states[key])
  {
    if n > 0 { PreparedUntouched(states, entries, track, migrate, n - 1, key); }
  }

  lemma PrepareOneKeeps(log: seq<Write>, track: Track, states: Checkpoint, key: string, c: Candidate, legacy: Option<int>)
    requires AllGood(states) && AllBacked(log, track, states)
    ensures var p := states[key := Prepare(states, key, c, legacy)];
            AllGood(p) && AllBacked(log, track, p) && p[key].fingerprint == FingerprintOf(c)
            && (key in states ==> Evolved(states[key], p[key]))
  {
    hide Prepare, Good, Evolved, Written;
    PrepareKeeps(states, key, c, legacy);
  }

  lemma {:induction false} PrepareAllKeeps(log: seq<Write>, track: Track, states: Checkpoint, entries: seq<Entry>, migrate: bool, n: nat)
    requires n <= |entries| && DistinctKeys(entries) && AllGood(states) && AllBacked(log, track, states)
    ensures var p := PrepareAll(states, entries, track, migrate, n);
            && AllGood(p) && AllEvolved(states, p) && AllBacked(log, track, p)
            && forall i | 0 <= i < n :: entries[i].key in p && p[entries[i].key].fingerprint == FingerprintOf(entries[i].candidate)
  {
    hide Prepare, AllGood, AllBacked, FingerprintOf;
    if n > 0 {
      PrepareAllKeeps(log, track, states, entries, migrate, n - 1);
      var before, e := PrepareAll(states, entries, track, migrate, n - 1), entries[n - 1];
      PreparedUntouched(states, entries, track, migrate, n - 1, e.key);
      PrepareOneKeeps(log, track, before, e.key, e.candidate, Legacy(e.candidate, track, migrate));
    } else {
      EvolvedRefl(states);
    }
  }

  /** Preparing all entries prepares each of them as it was. */
  lemma {:induction false} PreparedAt(states: Checkpoint, entries: seq<Entry>, track: Track, migrate: bool, n: nat, i: nat)
    requires i < n <= |entries| && DistinctKeys(entries)
    ensures var p, e := PrepareAll(states, entries, track, migrate, n), entries[i];
            && e.key in p && (ShouldScrape(p[e.key]) <==> Outstanding(states, e.key, e.candidate, Legacy(e.candidate, track, migrate)))
  {
    hide Prepare, ShouldScrape, Legacy;
    var before, last := PrepareAll(states, entries, track, migrate, n - 1), entries[n - 1];
    if i < n - 1 {
      PreparedAt(states, entries, track, migrate, n - 1, i);
    } else {
      PreparedUntouched(states, entries, track, migrate, n - 1, last.key);
      PreparedIsOutstanding(before, last.key, last.candidate, Legacy(last.candidate, track, migrate));
    }
  }

  lemma {:induction false} LastSavedSane(log: seq<Write>, track: Track)
    requires Sane(log)
    ensures AllGood(LastSaved(log, track)) && AllBacked(log, track, LastSaved(log, track))
  {
    if log != [] {
      var w, before := log[|log| - 1], log[..|log| - 1];
      LastSavedSane(before, track);
      forall s: State | Backed(before, track, s) ensures Backed(log, track, s) {
        assert log == before + [w];
        BackedLater(before, w, track, s);
      }
    }
  }

  lemma BackedLater(log: seq<Write>, w: Write, track: Track, s: State)
    requires Backed(log, track, s)
    ensures Backed(log + [w], track, s)
  {
    if ScrapedSuccess(s) {
      var j :| 0 <= j < |log| && log[j].Output? && log[j].track == track && forall r | r in s.rows :: r in log[j].rows;
      assert (log + [w])[j] == log[j];
    }
  }

  /** What holds of a track's working copy between durable writes: a success not yet backed by an output has
      its rows waiting for the next one. */
  ghost predicate Waiting(log: seq<Write>, track: Track, states: Checkpoint, rows: seq<CareerRow>, attempted: set<string>) {
    && AllGood(states) && AllEvolved(LastSaved(log, track), states)
    && forall k | k in states && !Backed(log, track, states[k]) :: k in attempted && forall r | r in states[k].rows :: r in rows
  }

  /** What a track can be rolled back to. */
  ghost predicate Committed(log: seq<Write>, track: Track, states: Checkpoint) {
    AllGood(states) && AllEvolved(LastSaved(log, track), states) && AllBacked(log, track, states)
  }

  lemma Append(log: seq<Write>, w: Write)
    requires Sane(log) && Follows(log, w)
    ensures Sane(log + [w])
    ensures w.Saved? ==> LastSaved(log + [w], w.track) == w.states
    ensures forall track | !(w.Saved? && w.track == track) :: LastSaved(log + [w], track) == LastSaved(log, track)
    ensures forall track, s | Backed(log, track, s) :: Backed(log + [w], track, s)
    ensures w.Output? ==> Written(log + [w], w.track, w.rows)
  {
    assert (log + [w])[..|log|] == log;
    forall track, s | Backed(log, track, s) ensures Backed(log + [w], track, s) { BackedLater(log, w, track, s); }
    if w.Output? { assert (log + [w])[|log|] == w; }
  }

  lemma EvolvedRefl(states: Checkpoint)
    ensures AllEvolved(states, states)
  {
  }

  /** Refusing what was attempted leaves only backed successes. */
  lemma RefusedIsCommitted(log: seq<Write>, track: Track, states: Checkpoint, rows: seq<CareerRow>, attempted: set<string>)
    requires Waiting(log, track, states, rows, attempted)
    ensures Committed(log, track, Refused(states, attempted))
  {
    hide Backed;
    var refused := Refused(states, attempted);
    forall k | k in refused ensures Good(refused[k]) && Backed(log, track, refused[k]) {
      assert Good(states[k]);
      if k in attempted { RefusedBacked(log, track, refused[k]); }
    }
    forall k | k in LastSaved(log, track) ensures k in refused && Evolved(LastSaved(log, track)[k], refused[k]) {
      assert Evolved(LastSaved(log, track)[k], states[k]);
    }
  }

  lemma RefusedBacked(log: seq<Write>, track: Track, s: State)
    requires s.status == ReferenceWriteRefused
    ensures Backed(log, track, s)
  {
  }

  lemma WaitingLater(log: seq<Write>, log': seq<Write>, track: Track, states: Checkpoint, rows: seq<CareerRow>, attempted: set<string>)
    requires Waiting(log, track, states, rows, attempted)
    requires LastSaved(log', track) == LastSaved(log, track) && forall s | Backed(log, track, s) :: Backed(log', track, s)
    ensures Waiting(log', track, states, rows, attempted)
  {
    hide Backed, LastSaved, Good, Evolved;
  }

  lemma CommittedLater(log: seq<Write>, log': seq<Write>, track: Track, states: Checkpoint)
    requires Committed(log, track, states)
    requires LastSaved(log', track) == LastSaved(log, track) && forall s | Backed(log, track, s) :: Backed(log', track, s)
    ensures Committed(log', track, states)
  {
    hide Backed, LastSaved, Good, Evolved;
  }

  lemma CommittedSaved(log: seq<Write>, log': seq<Write>, track: Track, states: Checkpoint)
    requires Committed(log, track, states)
    requires LastSaved(log', track) == states && forall s | Backed(log, track, s) :: Backed(log', track, s)
    ensures Committed(log', track, states)
  {
    hide Backed, LastSaved, Good;
    EvolvedRefl(states);
  }

  lemma CommittedWaits(log: seq<Write>, track: Track, states: Checkpoint, rows: seq<CareerRow>, attempted: set<string>)
    requires Committed(log, track, states)
    ensures Waiting(log, track, states, rows, attempted)
  {
    hide Backed, LastSaved, Good, Evolved;
  }

  lemma WrittenBacks(log: seq<Write>, track: Track, states: Checkpoint, rows: seq<CareerRow>, attempted: set<string>)
    requires Waiting(log, track, states, rows, attempted) && Written(log, track, rows)
    ensures Committed(log, track, states)
  {
    hide LastSaved, Good, Evolved;
    var j :| 0 <= j < |log| && log[j].Output? && log[j].track == track && forall r | r in rows :: r in log[j].rows;
    forall k | k in states ensures Backed(log, track, states[k]) {
    }
  }

  /** One fighter queued for scraping, on which tracks. */
  datatype Job = Job(entry: Entry, pro: bool, amateur: bool)

  ghost predicate Ready(states: Checkpoint, e: Entry, wanted: bool) {
    && e.key in states && states[e.key].fingerprint == FingerprintOf(e.candidate)
    && (wanted ==> ShouldScrape(states[e.key]))
  }

  ghost predicate AllReady(pro: Checkpoint, amateur: Checkpoint, jobs: seq<Job>, i: nat) {
    forall k | i <= k < |jobs| :: Ready(pro, jobs[k].entry, jobs[k].pro) && Ready(amateur, jobs[k].entry, jobs[k].amateur)
  }

  predicate Wanted(pro: Checkpoint, amateur: Checkpoint, e: Entry) {
    e.key in pro && e.key in amateur && (ShouldScrape(pro[e.key]) || ShouldScrape(amateur[e.key]))
  }

  function JobOf(pro: Checkpoint, amateur: Checkpoint, e: Entry): Job
    requires e.key in pro && e.key in amateur
  {
    Job(e, ShouldScrape(pro[e.key]), ShouldScrape(amateur[e.key]))
  }

  lemma RecordWaits(log: seq<Write>, track: Track, states: Checkpoint, rows: seq<CareerRow>, rows': seq<CareerRow>, attempted: set<string>,
                    e: Entry, scraped: Scraped)
    requires Waiting(log, track, states, rows, attempted) && Ready(states, e, true) && e.key in attempted
    requires rows' == rows + if scraped.Rows? then scraped.rows else []
    ensures Waiting(log, track, Record(states, e.key, e.candidate, scraped), rows', attempted)
  {
    hide Record, ShouldScrape, LastSaved, Written;
    RecordKeeps(states, e.key, e.candidate, scraped);
    var states' := Record(states, e.key, e.candidate, scraped);
    forall k | k in LastSaved(log, track) ensures Evolved(LastSaved(log, track)[k], states'[k]) {
      assert Evolved(LastSaved(log, track)[k], states[k]) && Evolved(states[k], states'[k]);
    }
  }

  /** The career builder: the durable writes so far, the working copies, the last committed copies, and the
      rows the next outputs are made of. */
  class Builder {
    const ordinary: bool
    var log: seq<Write>
    var pro: Checkpoint
    var amateur: Checkpoint
    var committedPro: Checkpoint
    var committedAmateur: Checkpoint
    var proRows: seq<CareerRow>
    var amateurRows: seq<CareerRow>
    var attempted: set<string>

    ghost predicate Valid()
      reads this
    {
      && Sane(log)
      && Waiting(log, Pro, pro, proRows, attempted) && Waiting(log, Amateur, amateur, amateurRows, attempted)
      && Committed(log, Pro, committedPro) && Committed(log, Amateur, committedAmateur)
    }

    /** Resume from the last durable checkpoints; the outputs' rows are read back as they are. */
    constructor (ordinary: bool, log: seq<Write>, entries: seq<Entry>, migrate: bool, proRows: seq<CareerRow>, amateurRows: seq<CareerRow>)
      requires Sane(log) && DistinctKeys(entries)
      ensures Valid() && this.log == log && this.ordinary == ordinary && attempted == {}
      ensures pro == PrepareAll(LastSaved(log, Pro), entries, Pro, migrate, |entries|)
      ensures amateur == PrepareAll(LastSaved(log, Amateur), entries, Amateur, migrate, |entries|)
      ensures forall i | 0 <= i < |entries| :: Ready(pro, entries[i], false) && Ready(amateur, entries[i], false)
    {
      hide PrepareAll;
      var p := PrepareAll(LastSaved(log, Pro), entries, Pro, migrate, |entries|);
      var a := PrepareAll(LastSaved(log, Amateur), entries, Amateur, migrate, |entries|);
      this.ordinary := ordinary;
      this.log := log;
      pro, amateur, committedPro, committedAmateur := p, a, p, a;
      this.proRows, this.amateurRows, attempted := proRows, amateurRows, {};
      LastSavedSane(log, Pro);
      LastSavedSane(log, Amateur);
      PrepareAllKeeps(log, Pro, LastSaved(log, Pro), entries, migrate, |entries|);
      PrepareAllKeeps(log, Amateur, LastSaved(log, Amateur), entries, migrate, |entries|);
    }

    /** `save_checkpoint`. */
    method Save(track: Track, states: Checkpoint)
      requires Sane(log) && Committed(log, track, states)
      modifies this`log
      ensures log == old(log) + [Saved(track, states)] && Sane(log)
      ensures LastSaved(log, track) == states
      ensures forall other | other != track :: LastSaved(log, other) == LastSaved(old(log), other)
      ensures forall other, s | Backed(old(log), other, s) :: Backed(log, other, s)
    {
      Append(log, Saved(track, states));
      log := log + [Saved(track, states)];
    }

    /** `_finalize_output`. */
    method Finalize(track: Track, rows: seq<CareerRow>, fate: OutputFate) returns (ok: bool)
      requires Sane(log)
      modifies this`log
      ensures log == old(log) + (if fate.RefusedOutput? then [] else [Output(track, rows)]) && Sane(log)
      ensures ok <==> fate.Stored?
      ensures ok ==> Written(log, track, rows)
      ensures forall other :: LastSaved(log, other) == LastSaved(old(log), other)
      ensures forall other, s | Backed(old(log), other, s) :: Backed(log, other, s)
    {
      if !fate.RefusedOutput? {
        Append(log, Output(track, rows));
        log := log + [Output(track, rows)];
      }
      ok := fate.Stored?;
    }

    /** `_record_track_references`: nothing to do outside ordinary-provider runs; in them the checkpoint is
        saved on the way. */
    method RecordReferences(track: Track, states: Checkpoint, fate: ReferenceFate) returns (ok: bool)
      requires Sane(log) && Committed(log, track, states)
      modifies this`log
      ensures Sane(log) && Committed(log, track, states)
      ensures ok <==> !ordinary || fate.Noted?
      ensures log == old(log) + if ordinary && !fate.RaisedEarly? then [Saved(track, states)] else []
      ensures forall other | other != track :: LastSaved(log, other) == LastSaved(old(log), other)
      ensures forall other, s | Backed(old(log), other, s) :: Backed(log, other, s)
    {
      if !ordinary { return true; }
      if fate.RaisedEarly? { return false; }
      Save(track, states);
      EvolvedRefl(states);
      ok := fate.Noted?;
    }

    /** `_preserve_reference_failure`. */
    method PreserveAmateur()
      requires Sane(log) && Waiting(log, Amateur, amateur, amateurRows, attempted)
      modifies this`log, this`amateur
      ensures amateur == Refused(old(amateur), attempted) && log == old(log) + [Saved(Amateur, amateur)] && Sane(log)
      ensures LastSaved(log, Amateur) == amateur && LastSaved(log, Pro) == LastSaved(old(log), Pro)
    {
      RefusedIsCommitted(log, Amateur, amateur, amateurRows, attempted);
      amateur := Refused(amateur, attempted);
      Save(Amateur, amateur);
    }

    method PreserveBoth()
      requires Sane(log) && Waiting(log, Pro, pro, proRows, attempted) && Waiting(log, Amateur, amateur, amateurRows, attempted)
      modifies this`log, this`pro, this`amateur
      ensures pro == Refused(old(pro), attempted) && amateur == Refused(old(amateur), attempted)
      ensures log == old(log) + [Saved(Pro, pro), Saved(Amateur, amateur)] && Sane(log)
      ensures LastSaved(log, Pro) == pro && LastSaved(log, Amateur) == amateur
    {
      hide Refused, Waiting, Sane;
      RefusedIsCommitted(log, Pro, pro, proRows, attempted);
      pro := Refused(pro, attempted);
      ghost var before := log;
      Save(Pro, pro);
      WaitingLater(before, log, Amateur, amateur, amateurRows, attempted);
      PreserveAmateur();
    }

    /** The pro output could not be stored: both tracks go back, or are refused for good. */
    method AbandonPro()
      requires Valid()
      modifies this`log, this`pro, this`amateur
      ensures Sane(log)
      ensures !ordinary ==> pro == old(committedPro) && amateur == old(committedAmateur)
      ensures ordinary ==> pro == Refused(old(pro), attempted) && amateur == Refused(old(amateur), attempted)
      ensures log == old(log) + [Saved(Pro, pro), Saved(Amateur, amateur)]
      ensures LastSaved(log, Pro) == pro && LastSaved(log, Amateur) == amateur
    {
      hide Refused, Sane, LastSaved, Waiting, Committed, Backed;
      if ordinary { PreserveBoth(); return; }
      pro, amateur := committedPro, committedAmateur;
      ghost var before := log;
      Save(Pro, pro);
      CommittedLater(before, log, Amateur, amateur);
      Save(Amateur, amateur);
    }

    /** The pro output is stored: its references, then its checkpoint. */
    method CheckpointPro(references: ReferenceFate) returns (ok: bool)
      requires Valid() && Committed(log, Pro, pro)
      modifies this`log, this`pro, this`amateur, this`committedPro
      ensures Sane(log) && old(log) <= log
      ensures ok <==> !ordinary || references.Noted?
      ensures ok ==> Valid() && pro == old(pro) && amateur == old(amateur) && committedPro == pro && LastSaved(log, Pro) == pro
      ensures ok && !ordinary ==> log == old(log) + [Saved(Pro, pro)]
      ensures !ok ==> pro == Refused(old(pro), attempted) && amateur == Refused(old(amateur), attempted)
      ensures !ok ==> LastSaved(log, Pro) == pro && LastSaved(log, Amateur) == amateur
    {
      hide Refused, Sane, LastSaved, Waiting, Committed, Backed;
      ghost var written := log;
      ok := RecordReferences(Pro, pro, references);
      WaitingLater(written, log, Amateur, amateur, amateurRows, attempted);
      CommittedLater(written, log, Amateur, committedAmateur);
      CommittedWaits(log, Pro, pro, proRows, attempted);
      if !ok { PreserveBoth(); return; }
      ghost var recorded := log;
      Save(Pro, pro);
      committedPro := pro;
      WaitingLater(recorded, log, Amateur, amateur, amateurRows, attempted);
      CommittedLater(recorded, log, Amateur, committedAmateur);
      CommittedSaved(recorded, log, Pro, pro);
      CommittedWaits(log, Pro, pro, proRows, attempted);
    }

    /** The pro half of `_commit_current_outputs`. */
    method CommitPro(fate: Fate) returns (ok: bool)
      requires Valid()
      modifies this`log, this`pro, this`amateur, this`committedPro
      ensures Sane(log) && old(log) <= log
      ensures ok <==> fate.output.Stored? && (!ordinary || fate.references.Noted?)
      ensures ok ==> Valid() && pro == old(pro) && amateur == old(amateur) && committedPro == pro && LastSaved(log, Pro) == pro
      ensures ok && !ordinary ==> log == old(log) + [Output(Pro, proRows), Saved(Pro, pro)]
      ensures !ok && !ordinary ==>
                && pro == old(committedPro) && amateur == old(committedAmateur)
                && log == old(log) + (if fate.output.RefusedOutput? then [] else [Output(Pro, proRows)]) + [Saved(Pro, pro), Saved(Amateur, amateur)]
      ensures !ok && ordinary ==> pro == Refused(old(pro), attempted) && amateur == Refused(old(amateur), attempted)
      ensures !ok ==> LastSaved(log, Pro) == pro && LastSaved(log, Amateur) == amateur
    {
      hide Refused, Sane, LastSaved, Waiting, Committed, Backed, Written;
      ghost var before := log;
      ok := Finalize(Pro, proRows, fate.output);
      WaitingLater(before, log, Pro, pro, proRows, attempted);
      WaitingLater(before, log, Amateur, amateur, amateurRows, attempted);
      CommittedLater(before, log, Pro, committedPro);
      CommittedLater(before, log, Amateur, committedAmateur);
      if !ok { AbandonPro(); return; }
      WrittenBacks(log, Pro, pro, proRows, attempted);
      ok := CheckpointPro(fate.references);
    }

    /** The amateur half. */
    method CommitAmateur(fate: Fate) returns (ok: bool)
      requires Valid()
      modifies this`log, this`amateur, this`committedAmateur
      ensures Sane(log) && old(log) <= log && LastSaved(log, Pro) == LastSaved(old(log), Pro)
      ensures ok <==> fate.output.Stored? && (!ordinary || fate.references.Noted?)
      ensures ok ==> Valid() && amateur == old(amateur) && committedAmateur == amateur
      ensures ok && !ordinary ==> log == old(log) + [Output(Amateur, amateurRows), Saved(Amateur, amateur)]
      ensures !ok && !ordinary ==>
                && amateur == old(committedAmateur)
                && log == old(log) + (if fate.output.RefusedOutput? then [] else [Output(Amateur, amateurRows)]) + [Saved(Amateur, amateur)]
      ensures !ok && ordinary ==> amateur == Refused(old(amateur), attempted)
      ensures LastSaved(log, Amateur) == amateur
    {
      hide Refused, Sane, AllBacked, AllGood, LastSaved, Waiting, Committed, Backed, Written, AllEvolved;
      ghost var before := log;
      var stored := Finalize(Amateur, amateurRows, fate.output);
      WaitingLater(before, log, Amateur, amateur, amateurRows, attempted);
      WaitingLater(before, log, Pro, pro, proRows, attempted);
      CommittedLater(before, log, Amateur, committedAmateur);
      CommittedLater(before, log, Pro, committedPro);
      if !stored {
        if ordinary { PreserveAmateur(); return false; }
        amateur := committedAmateur;
        Save(Amateur, amateur);
        return false;
      }
      WrittenBacks(log, Amateur, amateur, amateurRows, attempted);
      ghost var written := log;
      var noted := RecordReferences(Amateur, amateur, fate.references);
      WaitingLater(written, log, Pro, pro, proRows, attempted);
      CommittedLater(written, log, Pro, committedPro);
      CommittedWaits(log, Amateur, amateur, amateurRows, attempted);
      if !noted { PreserveAmateur(); return false; }
      ghost var recorded := log;
      Save(Amateur, amateur);
      committedAmateur := amateur;
      EvolvedRefl(amateur);
      WaitingLater(recorded, log, Pro, pro, proRows, attempted);
      CommittedLater(recorded, log, Pro, committedPro);
      CommittedSaved(recorded, log, Amateur, amateur);
      CommittedWaits(log, Amateur, amateur, amateurRows, attempted);
      ok := true;
    }

    /** `_commit_current_outputs`: outputs before checkpoints, pro before amateur. Outside ordinary-provider
        runs a failure takes back exactly the batch that was not committed, and a pro track already committed
        stays so; inside them nothing is taken back and what was attempted is refused for good. */
    method Commit(proFate: Fate, amateurFate: Fate) returns (failed: Option<Track>)
      requires Valid()
      modifies this`log, this`pro, this`amateur, this`committedPro, this`committedAmateur
      ensures Sane(log) && old(log) <= log
      ensures failed == FailedTrack(ordinary, proFate, amateurFate)
      ensures failed.None? ==> Valid() && pro == old(pro) && amateur == old(amateur) && committedPro == pro && committedAmateur == amateur
      ensures failed.None? && !ordinary ==>
                log == old(log) + [Output(Pro, proRows), Saved(Pro, pro), Output(Amateur, amateurRows), Saved(Amateur, amateur)]
      ensures failed == Some(Pro) && !ordinary ==>
                && pro == old(committedPro) && amateur == old(committedAmateur)
                && log == old(log) + (if proFate.output.RefusedOutput? then [] else [Output(Pro, proRows)]) + [Saved(Pro, pro), Saved(Amateur, amateur)]
      ensures failed == Some(Amateur) && !ordinary ==>
                && pro == old(pro) == committedPro && amateur == old(committedAmateur)
                && log == old(log) + [Output(Pro, proRows), Saved(Pro, pro)]
                          + (if amateurFate.output.RefusedOutput? then [] else [Output(Amateur, amateurRows)]) + [Saved(Amateur, amateur)]
      ensures failed.Some? && ordinary ==>
                && amateur == Refused(old(amateur), attempted)
                && pro == if failed == Some(Pro) then Refused(old(pro), attempted) else old(pro)
      ensures LastSaved(log, Pro) == pro && LastSaved(log, Amateur) == amateur
    {
      hide Sane, LastSaved, Waiting, Committed, Refused;
      var proOk := CommitPro(proFate);
      if !proOk { return Some(Pro); }
      var amateurOk := CommitAmateur(amateurFate);
      if !amateurOk { return Some(Amateur); }
      failed := None;
    }

    /** One fetch on the pro track. */
    method ScrapePro(e: Entry, scraped: Scraped)
      requires Valid() && Ready(pro, e, true) && e.key in attempted
      modifies this`pro, this`proRows
      ensures Valid() && pro == Record(old(pro), e.key, e.candidate, scraped)
      ensures proRows == old(proRows) + if scraped.Rows? then scraped.rows else []
    {
      if scraped.Rows? { proRows := proRows + scraped.rows; }
      RecordWaits(log, Pro, pro, old(proRows), proRows, attempted, e, scraped);
      pro := Record(pro, e.key, e.candidate, scraped);
    }

    method ScrapeAmateur(e: Entry, scraped: Scraped)
      requires Valid() && Ready(amateur, e, true) && e.key in attempted
      modifies this`amateur, this`amateurRows
      ensures Valid() && amateur == Record(old(amateur), e.key, e.candidate, scraped)
      ensures amateurRows == old(amateurRows) + if scraped.Rows? then scraped.rows else []
    {
      if scraped.Rows? { amateurRows := amateurRows + scraped.rows; }
      RecordWaits(log, Amateur, amateur, old(amateurRows), amateurRows, attempted, e, scraped);
      amateur := Record(amateur, e.key, e.candidate, scraped);
    }

    /** The queue of a run: whoever is to be scraped on some track, in order, up to the limit. */
    method Enqueue(entries: seq<Entry>, limit: Option<int>) returns (jobs: seq<Job>)
      requires DistinctKeys(entries)
      requires forall i | 0 <= i < |entries| :: Ready(pro, entries[i], false) && Ready(amateur, entries[i], false)
      ensures jobs == UpTo(QueueOf(pro, amateur, entries), limit)
      ensures AllReady(pro, amateur, jobs, 0) && DistinctJobs(jobs)
      ensures forall k | 0 <= k < |jobs| :: jobs[k].entry in entries && (jobs[k].pro || jobs[k].amateur)
    {
      hide ShouldScrape, QueueOf, AllReady, DistinctJobs, Ready;
      jobs := [];
      assert QueueOf(pro, amateur, []) == [] by { NobodyQueued(pro, amateur); }
      for i := 0 to |entries|
        invariant jobs == QueueOf(pro, amateur, entries[..i])
      {
        var e := entries[i];
        InBoth(pro, amateur, e);
        OneMoreEntry(pro, amateur, entries, i);
        var wantPro, wantAmateur := ShouldScrape(pro[e.key]), ShouldScrape(amateur[e.key]);
        if wantPro || wantAmateur { jobs := jobs + [Job(e, wantPro, wantAmateur)]; }
      }
      assert entries[..|entries|] == entries;
      QueueFits(pro, amateur, entries);
      PrefixFits(pro, amateur, entries, jobs, UpTo(jobs, limit));
      jobs := UpTo(jobs, limit);
    }

    /** One fighter, on the tracks that want it. */
    method Attempt(job: Job, onPro: Scraped, onAmateur: Scraped)
      requires Valid() && Ready(pro, job.entry, job.pro) && Ready(amateur, job.entry, job.amateur)
      modifies this
      ensures Valid() && log == old(log) && attempted == old(attempted) + {job.entry.key}
      ensures committedPro == old(committedPro) && committedAmateur == old(committedAmateur)
      ensures pro == if job.pro then Record(old(pro), job.entry.key, job.entry.candidate, onPro) else old(pro)
      ensures amateur == if job.amateur then Record(old(amateur), job.entry.key, job.entry.candidate, onAmateur) else old(amateur)
    {
      hide Sane, Committed, Record, LastSaved, FingerprintOf, ShouldScrape, Backed, AllEvolved, AllGood;
      attempted := attempted + {job.entry.key};
      if job.pro { ScrapePro(job.entry, onPro); }
      if job.amateur { ScrapeAmateur(job.entry, onAmateur); }
    }

    /** The commit before every fiftieth fighter. */
    method CommitIfDue(i: nat, proFate: Fate, amateurFate: Fate) returns (failed: Option<Track>)
      requires Valid()
      modifies this`log, this`pro, this`amateur, this`committedPro, this`committedAmateur
      ensures Sane(log) && old(log) <= log
      ensures failed == if Due(i) then FailedTrack(ordinary, proFate, amateurFate) else None
      ensures failed.None? ==> Valid() && pro == old(pro) && amateur == old(amateur)
      ensures failed.None? ==> committedPro == (if Due(i) then pro else old(committedPro))
                               && committedAmateur == (if Due(i) then amateur else old(committedAmateur))
      ensures !Due(i) ==> log == old(log)
      ensures failed.Some? ==> TakenBack(this, failed.value, old(pro), old(amateur), old(committedPro), old(committedAmateur))
    {
      hide Waiting, Committed, LastSaved, Sane;
      failed := None;
      if Due(i) { failed := Commit(proFate, amateurFate); }
    }

    /** The main loop: a commit before every fiftieth fighter and one at the end. `at` is the number of jobs
        attempted when a commit fails: the first due one whose writes do. Outside ordinary-provider runs the
        durable checkpoints then hold exactly the jobs of the last commit before, or on a pro track already
        committed those up to `at`; inside them all the jobs up to `at`, refused. */
    method Process(jobs: seq<Job>, onPro: string -> Scraped, onAmateur: string -> Scraped, proFates: nat -> Fate, amateurFates: nat -> Fate)
      returns (failed: Option<Track>, at: nat)
      requires Valid() && AllReady(pro, amateur, jobs, 0)
      requires DistinctJobs(jobs)
      modifies this
      ensures Sane(log) && old(log) <= log && at <= |jobs|
      ensures forall k: nat | k < at && Due(k) :: FailedTrack(ordinary, proFates(k), amateurFates(k)) == None
      ensures Due(at) || at == |jobs|
      ensures failed == FailedTrack(ordinary, proFates(at), amateurFates(at))
      ensures failed.None? ==> Valid() && at == |jobs|
      ensures failed.None? ==> LastSaved(log, Pro) == RecordAll(old(pro), jobs, Pro, onPro, |jobs|)
                               && LastSaved(log, Amateur) == RecordAll(old(amateur), jobs, Amateur, onAmateur, |jobs|)
      ensures failed.None? ==> forall k | 0 <= k < |jobs| ::
                && Done(jobs[k].pro, jobs[k].entry, onPro, old(pro), LastSaved(log, Pro))
                && Done(jobs[k].amateur, jobs[k].entry, onAmateur, old(amateur), LastSaved(log, Amateur))
      ensures failed.Some? && !ordinary ==>
                && LastSaved(log, Pro) == (if failed.value.Pro? then CommittedAt(old(committedPro), old(pro), jobs, Pro, onPro, at)
                                           else RecordAll(old(pro), jobs, Pro, onPro, at))
                && LastSaved(log, Amateur) == CommittedAt(old(committedAmateur), old(amateur), jobs, Amateur, onAmateur, at)
      ensures failed.Some? && ordinary ==>
                var tried := old(attempted) + KeysOf(jobs, at);
                var p := RecordAll(old(pro), jobs, Pro, onPro, at);
                && LastSaved(log, Pro) == (if failed.value.Pro? then Refused(p, tried) else p)
                && LastSaved(log, Amateur) == Refused(RecordAll(old(amateur), jobs, Amateur, onAmateur, at), tried)
    {
      hide Ready, AllReady, DistinctJobs, Waiting, Committed, LastSaved, Sane, Record, Refused, RecordAll, CommittedAt, FailedTrack, KeysOf, Done, Due;
      ReadyOn(pro, amateur, jobs);
      NothingRecorded(committedPro, pro, jobs, Pro, onPro);
      NothingRecorded(committedAmateur, amateur, jobs, Amateur, onAmateur);
      for i := 0 to |jobs|
        invariant Valid() && old(log) <= log
        invariant forall k: nat | k < i && Due(k) :: FailedTrack(ordinary, proFates(k), amateurFates(k)) == None
        invariant attempted == old(attempted) + KeysOf(jobs, i)
        invariant pro == RecordAll(old(pro), jobs, Pro, onPro, i) && amateur == RecordAll(old(amateur), jobs, Amateur, onAmateur, i)
        invariant committedPro == CommittedAt(old(committedPro), old(pro), jobs, Pro, onPro, i)
        invariant committedAmateur == CommittedAt(old(committedAmateur), old(amateur), jobs, Amateur, onAmateur, i)
      {
        at := i;
        failed := CommitIfDue(i, proFates(i), amateurFates(i));
        if failed.Some? { return; }
        var job := jobs[i];
        ReadyInTurn(old(pro), jobs, Pro, onPro, i);
        ReadyInTurn(old(amateur), jobs, Amateur, onAmateur, i);
        OneMoreRecorded(old(committedPro), old(pro), jobs, Pro, onPro, i);
        OneMoreRecorded(old(committedAmateur), old(amateur), jobs, Amateur, onAmateur, i);
        Attempt(job, onPro(job.entry.key), onAmateur(job.entry.key));
      }
      at := |jobs|;
      failed := Commit(proFates(|jobs|), amateurFates(|jobs|));
      AllDone(old(pro), jobs, Pro, onPro);
      AllDone(old(amateur), jobs, Amateur, onAmateur);
    }
  }

  function QueueOf(pro: Checkpoint, amateur: Checkpoint, entries: seq<Entry>): seq<Job> {
    if entries == [] then [] else
      var last := entries[|entries| - 1];
      QueueOf(pro, amateur, entries[..|entries| - 1]) + if Wanted(pro, amateur, last) then [JobOf(pro, amateur, last)] else []
  }

  lemma NobodyQueued(pro: Checkpoint, amateur: Checkpoint)
    ensures QueueOf(pro, amateur, []) == []
  {
  }

  lemma InBoth(pro: Checkpoint, amateur: Checkpoint, e: Entry)
    requires Ready(pro, e, false) && Ready(amateur, e, false)
    ensures e.key in pro && e.key in amateur
  {
  }

  lemma OneMoreEntry(pro: Checkpoint, amateur: Checkpoint, entries: seq<Entry>, i: nat)
    requires i < |entries| && entries[i].key in pro && entries[i].key in amateur
    ensures var e := entries[i];
            QueueOf(pro, amateur, entries[..i + 1])
            == QueueOf(pro, amateur, entries[..i])
               + if ShouldScrape(pro[e.key]) || ShouldScrape(amateur[e.key]) then [Job(e, ShouldScrape(pro[e.key]), ShouldScrape(amateur[e.key]))] else []
  {
    hide ShouldScrape;
    assert entries[..i + 1][..i] == entries[..i];
  }

  ghost predicate Fits(pro: Checkpoint, amateur: Checkpoint, entries: seq<Entry>, jobs: seq<Job>) {
    && AllReady(pro, amateur, jobs, 0) && DistinctJobs(jobs)
    && forall k | 0 <= k < |jobs| :: jobs[k].entry in entries && (jobs[k].pro || jobs[k].amateur)
  }

  lemma FitsMore(pro: Checkpoint, amateur: Checkpoint, front: seq<Entry>, e: Entry, jobs: seq<Job>, job: Job)
    requires Fits(pro, amateur, front, jobs) && forall x | x in front :: x.key != e.key
    requires job.entry == e && (job.pro || job.amateur) && Ready(pro, e, job.pro) && Ready(amateur, e, job.amateur)
    ensures Fits(pro, amateur, front + [e], jobs) && Fits(pro, amateur, front + [e], jobs + [job])
  {
    hide Ready;
    var more := jobs + [job];
    assert forall k | 0 <= k < |jobs| :: more[k] == jobs[k];
    assert e in front + [e] && forall x | x in front :: x in front + [e];
  }

  lemma FitsStill(pro: Checkpoint, amateur: Checkpoint, front: seq<Entry>, e: Entry, jobs: seq<Job>)
    requires Fits(pro, amateur, front, jobs)
    ensures Fits(pro, amateur, front + [e], jobs)
  {
    hide Ready;
    assert forall x | x in front :: x in front + [e];
  }

  lemma {:induction false} QueueFits(pro: Checkpoint, amateur: Checkpoint, entries: seq<Entry>)
    requires DistinctKeys(entries) && forall i | 0 <= i < |entries| :: Ready(pro, entries[i], false) && Ready(amateur, entries[i], false)
    ensures Fits(pro, amateur, entries, QueueOf(pro, amateur, entries))
  {
    hide ShouldScrape, Fits;
    if entries == [] {
      assert Fits(pro, amateur, [], []) by { NobodyFits(pro, amateur); }
    } else {
      var n := |entries| - 1;
      var front, e, jobs := entries[..n], entries[n], QueueOf(pro, amateur, entries[..n]);
      QueueFits(pro, amateur, front);
      assert entries == front + [e];
      FitsStill(pro, amateur, front, e, jobs);
      if Wanted(pro, amateur, e) {
        FitsMore(pro, amateur, front, e, jobs, JobOf(pro, amateur, e));
        assert QueueOf(pro, amateur, entries) == jobs + [JobOf(pro, amateur, e)];
      } else {
        assert QueueOf(pro, amateur, entries) == jobs;
      }
    }
  }

  lemma NobodyFits(pro: Checkpoint, amateur: Checkpoint)
    ensures Fits(pro, amateur, [], [])
  {
  }

  lemma PrefixFits(pro: Checkpoint, amateur: Checkpoint, entries: seq<Entry>, jobs: seq<Job>, jobs': seq<Job>)
    requires Fits(pro, amateur, entries, jobs) && jobs' <= jobs
    ensures Fits(pro, amateur, entries, jobs')
  {
    hide Ready;
    assert forall k | 0 <= k < |jobs'| :: jobs'[k] == jobs[k];
  }

  /** The slice that `--max-fighters` takes: none asked for and nought are no limit, and a negative one leaves as
      many out at the end. */
  function UpTo(jobs: seq<Job>, limit: Option<int>): seq<Job> {
    if limit.None? || limit.value == 0 || limit.value >= |jobs| then jobs
    else if limit.value > 0 then jobs[..limit.value]
    else if |jobs| + limit.value > 0 then jobs[..|jobs| + limit.value]
    else []
  }

  ghost predicate QueuedOn(jobs: seq<Job>, e: Entry, track: Track) {
    exists k :: 0 <= k < |jobs| && jobs[k].entry == e && WantedOn(jobs[k], track)
  }

  lemma {:induction false} QueuedExactly(pro: Checkpoint, amateur: Checkpoint, entries: seq<Entry>, e: Entry, track: Track)
    requires e.key in pro && e.key in amateur
    ensures QueuedOn(QueueOf(pro, amateur, entries), e, track)
            <==> e in entries && ShouldScrape(if track.Pro? then pro[e.key] else amateur[e.key])
  {
    hide ShouldScrape;
    if entries != [] {
      var front, last := entries[..|entries| - 1], entries[|entries| - 1];
      var before, jobs := QueueOf(pro, amateur, front), QueueOf(pro, amateur, entries);
      QueuedExactly(pro, amateur, front, e, track);
      assert entries == front + [last];
      assert forall k | 0 <= k < |before| :: jobs[k] == before[k];
      if last == e && Wanted(pro, amateur, e) { assert jobs[|before|] == JobOf(pro, amateur, e); }
    }
  }

  /** A commit is due before this job. */
  predicate Due(i: nat) {
    (i + 1) % BATCH == 0
  }

  /** A commit comes before the fiftieth fighter, and then before every fiftieth and no other. */
  lemma DueEveryFifty(i: nat)
    ensures i < 49 ==> !Due(i)
    ensures Due(49) && (Due(i + 50) <==> Due(i))
    ensures Due(i) ==> forall j | i < j < i + 50 :: !Due(j)
  {
  }

  /** The track on which a commit fails. */
  function FailedTrack(ordinary: bool, proFate: Fate, amateurFate: Fate): Option<Track> {
    if !(proFate.output.Stored? && (!ordinary || proFate.references.Noted?)) then Some(Pro)
    else if !(amateurFate.output.Stored? && (!ordinary || amateurFate.references.Noted?)) then Some(Amateur)
    else None
  }

  /** A commit goes through exactly if both outputs are stored, and, in ordinary-provider runs, both tracks' references
      recorded; otherwise it fails on the first track that is in the way. */
  lemma FailedExactly(ordinary: bool, proFate: Fate, amateurFate: Fate)
    ensures FailedTrack(ordinary, proFate, amateurFate) == None
            <==> && proFate.output == Stored && amateurFate.output == Stored
                 && (ordinary ==> proFate.references == Noted && amateurFate.references == Noted)
    ensures FailedTrack(ordinary, proFate, amateurFate) == Some(Pro)
            <==> proFate.output != Stored || (ordinary && proFate.references != Noted)
  {
  }

  /** What the durable checkpoints hold after a commit failed on the track. */
  ghost predicate TakenBack(b: Builder, failed: Track, pro: Checkpoint, amateur: Checkpoint, committedPro: Checkpoint, committedAmateur: Checkpoint)
    reads b
  {
    if b.ordinary then
      && LastSaved(b.log, Pro) == (if failed.Pro? then Refused(pro, b.attempted) else pro)
      && LastSaved(b.log, Amateur) == Refused(amateur, b.attempted)
    else
      && LastSaved(b.log, Pro) == (if failed.Pro? then committedPro else pro)
      && LastSaved(b.log, Amateur) == committedAmateur
  }

  predicate WantedOn(job: Job, track: Track) {
    if track.Pro? then job.pro else job.amateur
  }

  /** The first n jobs of a track recorded. */
  function RecordAll(states: Checkpoint, jobs: seq<Job>, track: Track, fetch: string -> Scraped, n: nat): Checkpoint
    requires n <= |jobs|
  {
    if n == 0 then states
    else
      var before, e := RecordAll(states, jobs, track, fetch, n - 1), jobs[n - 1].entry;
      if WantedOn(jobs[n - 1], track) then Record(before, e.key, e.candidate, fetch(e.key)) else before
  }

  /** How many of the first n jobs are committed: those before the last due commit. */
  function CommitPoint(n: nat): (c: nat)
    ensures c <= n
  {
    if n == 0 then 0 else if Due(n - 1) then n - 1 else CommitPoint(n - 1)
  }

  /** The last committed copy when n jobs have been attempted: the one from before the run until a commit is due. */
  function CommittedAt(committed: Checkpoint, states: Checkpoint, jobs: seq<Job>, track: Track, fetch: string -> Scraped, n: nat): Checkpoint
    requires n <= |jobs|
  {
    if CommitPoint(n) == 0 then committed else RecordAll(states, jobs, track, fetch, CommitPoint(n))
  }

  function KeysOf(jobs: seq<Job>, n: nat): set<string>
    requires n <= |jobs|
  {
    set k | 0 <= k < n :: jobs[k].entry.key
  }

  lemma NothingRecorded(committed: Checkpoint, states: Checkpoint, jobs: seq<Job>, track: Track, fetch: string -> Scraped)
    ensures RecordAll(states, jobs, track, fetch, 0) == states && CommittedAt(committed, states, jobs, track, fetch, 0) == committed
    ensures KeysOf(jobs, 0) == {}
  {
  }

  lemma OneMoreRecorded(committed: Checkpoint, states: Checkpoint, jobs: seq<Job>, track: Track, fetch: string -> Scraped, n: nat)
    requires n < |jobs|
    ensures var before, e := RecordAll(states, jobs, track, fetch, n), jobs[n].entry;
            RecordAll(states, jobs, track, fetch, n + 1)
            == if WantedOn(jobs[n], track) then Record(before, e.key, e.candidate, fetch(e.key)) else before
    ensures CommittedAt(committed, states, jobs, track, fetch, n + 1)
            == if Due(n) then RecordAll(states, jobs, track, fetch, n) else CommittedAt(committed, states, jobs, track, fetch, n)
    ensures KeysOf(jobs, n + 1) == KeysOf(jobs, n) + {jobs[n].entry.key}
  {
    hide Record;
  }

  ghost predicate DistinctJobs(jobs: seq<Job>) {
    forall i, j | 0 <= i < j < |jobs| :: jobs[i].entry.key != jobs[j].entry.key
  }

  lemma {:induction false} LaterJobsWait(states: Checkpoint, jobs: seq<Job>, track: Track, fetch: string -> Scraped, n: nat, key: string)
    requires n <= |jobs| && key in states && key !in KeysOf(jobs, n)
    requires forall k | 0 <= k < |jobs| :: Ready(states, jobs[k].entry, false)
    ensures var after := RecordAll(states, jobs, track, fetch, n); key in after && after[key] == states[key]
  {
    hide Record, WantedOn;
    if n > 0 {
      var before, e := RecordAll(states, jobs, track, fetch, n - 1), jobs[n - 1].entry;
      assert key !in KeysOf(jobs, n - 1);
      assert e.key in KeysOf(jobs, n);
      LaterJobsWait(states, jobs, track, fetch, n - 1, key);
      RecordTouchesOne(before, e, fetch(e.key), key);
    }
  }

  lemma RecordTouchesOne(states: Checkpoint, e: Entry, scraped: Scraped, key: string)
    requires key in states && key != e.key
    ensures var after := Record(states, e.key, e.candidate, scraped); key in after && after[key] == states[key]
  {
  }

  lemma SameRecord(states: Checkpoint, other: Checkpoint, e: Entry, scraped: Scraped)
    requires e.key in states && e.key in other && other[e.key] == states[e.key] && states[e.key].fingerprint == FingerprintOf(e.candidate)
    ensures var a, b := Record(states, e.key, e.candidate, scraped), Record(other, e.key, e.candidate, scraped);
            e.key in a && e.key in b && a[e.key] == b[e.key]
  {
  }

  /** When its turn comes a job is as ready as it was when it was queued. */
  lemma ReadyInTurn(states: Checkpoint, jobs: seq<Job>, track: Track, fetch: string -> Scraped, n: nat)
    requires n < |jobs| && DistinctJobs(jobs) && forall k | 0 <= k < |jobs| :: Ready(states, jobs[k].entry, WantedOn(jobs[k], track))
    ensures Ready(RecordAll(states, jobs, track, fetch, n), jobs[n].entry, WantedOn(jobs[n], track))
  {
    hide RecordAll, FingerprintOf, ShouldScrape, WantedOn;
    LaterJobsWait(states, jobs, track, fetch, n, jobs[n].entry.key);
  }

  lemma ReadyOn(pro: Checkpoint, amateur: Checkpoint, jobs: seq<Job>)
    requires AllReady(pro, amateur, jobs, 0)
    ensures forall k | 0 <= k < |jobs| :: Ready(pro, jobs[k].entry, WantedOn(jobs[k], Pro)) && Ready(pro, jobs[k].entry, false)
    ensures forall k | 0 <= k < |jobs| :: Ready(amateur, jobs[k].entry, WantedOn(jobs[k], Amateur)) && Ready(amateur, jobs[k].entry, false)
  {
    hide FingerprintOf, ShouldScrape;
  }

  /** Of the first n jobs each has its one fetch recorded. */
  lemma {:induction false} EarlierJobsAreDone(states: Checkpoint, jobs: seq<Job>, track: Track, fetch: string -> Scraped, n: nat, k: nat)
    requires k < n <= |jobs| && DistinctJobs(jobs)
    requires forall i | 0 <= i < |jobs| :: Ready(states, jobs[i].entry, false)
    ensures Done(WantedOn(jobs[k], track), jobs[k].entry, fetch, states, RecordAll(states, jobs, track, fetch, n))
  {
    hide Record, WantedOn, FingerprintOf;
    var before, last, e := RecordAll(states, jobs, track, fetch, n - 1), jobs[n - 1].entry, jobs[k].entry;
    if k < n - 1 {
      EarlierJobsAreDone(states, jobs, track, fetch, n - 1, k);
      RecordTouchesOne(before, last, fetch(last.key), e.key);
    } else {
      LaterJobsWait(states, jobs, track, fetch, n - 1, e.key);
      SameRecord(states, before, e, fetch(e.key));
    }
  }

  lemma AllDone(states: Checkpoint, jobs: seq<Job>, track: Track, fetch: string -> Scraped)
    requires DistinctJobs(jobs) && forall k | 0 <= k < |jobs| :: Ready(states, jobs[k].entry, false)
    ensures forall k | 0 <= k < |jobs| ::
              Done(if track.Pro? then jobs[k].pro else jobs[k].amateur, jobs[k].entry, fetch, states, RecordAll(states, jobs, track, fetch, |jobs|))
  {
    hide RecordAll, Done, Ready, DistinctJobs;
    forall k: nat | k < |jobs|
      ensures Done(WantedOn(jobs[k], track), jobs[k].entry, fetch, states, RecordAll(states, jobs, track, fetch, |jobs|))
    {
      EarlierJobsAreDone(states, jobs, track, fetch, |jobs|, k);
    }
  }

  /** Recording the first n jobs: each of them is done, and every later job, and whoever has no job, is as before. */
  lemma RecordedExactly(states: Checkpoint, jobs: seq<Job>, track: Track, fetch: string -> Scraped, n: nat)
    requires n <= |jobs| && DistinctJobs(jobs)
    requires forall k | 0 <= k < |jobs| :: Ready(states, jobs[k].entry, false)
    ensures var after := RecordAll(states, jobs, track, fetch, n);
            && (forall k | 0 <= k < n :: Done(WantedOn(jobs[k], track), jobs[k].entry, fetch, states, after))
            && (forall key | key in states && key !in KeysOf(jobs, n) :: key in after && after[key] == states[key])
  {
    hide RecordAll, Done, Ready, WantedOn, DistinctJobs;
    forall k: nat | k < n ensures Done(WantedOn(jobs[k], track), jobs[k].entry, fetch, states, RecordAll(states, jobs, track, fetch, n)) {
      EarlierJobsAreDone(states, jobs, track, fetch, n, k);
    }
    forall key | key in states && key !in KeysOf(jobs, n)
      ensures key in RecordAll(states, jobs, track, fetch, n) && RecordAll(states, jobs, track, fetch, n)[key] == states[key]
    {
      LaterJobsWait(states, jobs, track, fetch, n, key);
    }
  }

  /** A job's state afterwards is its state before with the fetch recorded, or untouched where not wanted. */
  ghost predicate Done(wanted: bool, e: Entry, fetch: string -> Scraped, before: Checkpoint, after: Checkpoint) {
    && e.key in before && e.key in after
    && after[e.key] == if wanted then Record(before, e.key, e.candidate, fetch(e.key))[e.key] else before[e.key]
  }

  /** One run as it happens: its inputs, and how many durable writes it lives to make. */
  datatype RunPlan = RunPlan(ordinary: bool, entries: seq<Entry>, migrate: bool, limit: Option<int>, proRows: seq<CareerRow>,
                             amateurRows: seq<CareerRow>, onPro: string -> Scraped, onAmateur: string -> Scraped,
                             proFates: nat -> Fate, amateurFates: nat -> Fate, lives: Option<nat>)

  /** Two queued jobs stand in the order of their entries. */
  ghost predicate InOrder(entries: seq<Entry>, jobs: seq<Job>) {
    forall k, l | 0 <= k < l < |jobs| :: EntryBefore(entries, jobs[k].entry, jobs[l].entry)
  }

  ghost predicate EntryBefore(entries: seq<Entry>, a: Entry, b: Entry) {
    exists i, j :: 0 <= i < j < |entries| && entries[i] == a && entries[j] == b
  }

  lemma OrderMore(front: seq<Entry>, e: Entry, jobs: seq<Job>, job: Job)
    requires InOrder(front, jobs) && job.entry == e && forall k | 0 <= k < |jobs| :: jobs[k].entry in front
    ensures InOrder(front + [e], jobs) && InOrder(front + [e], jobs + [job])
  {
    var entries, more := front + [e], jobs + [job];
    forall a, b | EntryBefore(front, a, b) ensures EntryBefore(entries, a, b) {
      var i, j :| 0 <= i < j < |front| && front[i] == a && front[j] == b;
      assert entries[i] == a && entries[j] == b;
    }
    forall k | 0 <= k < |jobs| ensures EntryBefore(entries, jobs[k].entry, e) {
      var i :| 0 <= i < |front| && front[i] == jobs[k].entry;
      assert entries[i] == jobs[k].entry && entries[|front|] == e;
    }
    assert forall k | 0 <= k < |jobs| :: more[k] == jobs[k];
  }

  lemma {:induction false} QueueInOrder(pro: Checkpoint, amateur: Checkpoint, entries: seq<Entry>)
    ensures InOrder(entries, QueueOf(pro, amateur, entries))
    ensures forall k | 0 <= k < |QueueOf(pro, amateur, entries)| :: QueueOf(pro, amateur, entries)[k].entry in entries
  {
    hide ShouldScrape, EntryBefore;
    if entries != [] {
      var n := |entries| - 1;
      QueueInOrder(pro, amateur, entries[..n]);
      assert entries == entries[..n] + [entries[n]];
      OrderMore(entries[..n], entries[n], QueueOf(pro, amateur, entries[..n]), Job(entries[n], true, true));
      if Wanted(pro, amateur, entries[n]) {
        OrderMore(entries[..n], entries[n], QueueOf(pro, amateur, entries[..n]), JobOf(pro, amateur, entries[n]));
      }
    }
  }

  /** What is queued of an entry on a track: what the durable checkpoint leaves to do. */
  ghost predicate QueuedAsLeft(plan: RunPlan, log: seq<Write>, jobs: seq<Job>, e: Entry) {
    && (QueuedOn(jobs, e, Pro) <==> Outstanding(LastSaved(log, Pro), e.key, e.candidate, if plan.migrate then e.candidate.legacyPro else None))
    && (QueuedOn(jobs, e, Amateur) <==>
          Outstanding(LastSaved(log, Amateur), e.key, e.candidate, if plan.migrate then e.candidate.legacyAmateur else None))
  }

  /** A resumed run up to its queue. `all` holds, in the order of the entries, exactly those that are outstanding on
      a track in its durable checkpoint; the limit takes its first jobs. */
  method Resume(plan: RunPlan, log: seq<Write>) returns (b: Builder, jobs: seq<Job>, ghost all: seq<Job>)
    requires Sane(log) && DistinctKeys(plan.entries)
    ensures fresh(b) && b.Valid() && b.log == log && AllReady(b.pro, b.amateur, jobs, 0) && DistinctJobs(jobs)
    ensures (forall e | e in plan.entries :: QueuedAsLeft(plan, log, all, e)) && InOrder(plan.entries, all)
    ensures forall job | job in all :: job.entry in plan.entries
    ensures jobs <= all
    ensures (plan.limit.None? || plan.limit.value == 0) ==> jobs == all
    ensures plan.limit.Some? && plan.limit.value > 0 ==> |jobs| == plan.limit.value || (|jobs| < plan.limit.value && jobs == all)
    ensures plan.limit.Some? && plan.limit.value < 0 ==> |all| - |jobs| == -plan.limit.value || (|all| < -plan.limit.value && jobs == [])
  {
    hide Sane, LastSaved, ShouldScrape, Outstanding, QueuedOn, PrepareAll, Legacy, Waiting, Committed, QueueOf;
    var entries := plan.entries;
    b := new Builder(plan.ordinary, log, entries, plan.migrate, plan.proRows, plan.amateurRows);
    jobs := b.Enqueue(entries, plan.limit);
    all := QueueOf(b.pro, b.amateur, entries);
    QueueInOrder(b.pro, b.amateur, entries);
    forall i | 0 <= i < |entries| ensures QueuedAsLeft(plan, log, all, entries[i]) {
      PreparedAt(LastSaved(log, Pro), entries, Pro, plan.migrate, |entries|, i);
      PreparedAt(LastSaved(log, Amateur), entries, Amateur, plan.migrate, |entries|, i);
      QueuedExactly(b.pro, b.amateur, entries, entries[i], Pro);
      QueuedExactly(b.pro, b.amateur, entries, entries[i], Amateur);
      LegacyOf(entries[i].candidate, plan.migrate);
    }
  }

  lemma LegacyOf(c: Candidate, migrate: bool)
    ensures Legacy(c, Pro, migrate) == (if migrate then c.legacyPro else None)
    ensures Legacy(c, Amateur, migrate) == (if migrate then c.legacyAmateur else None)
  {
  }

  /** Any number of resumed runs, each killed anywhere or not at all. */
  method Campaign(plans: seq<RunPlan>) returns (log: seq<Write>)
    requires forall i | 0 <= i < |plans| :: DistinctKeys(plans[i].entries)
    ensures Sane(log)
  {
    hide Sane, DistinctKeys;
    log := [];
    assert Sane([]) by { EmptySane(); }
    for i := 0 to |plans|
      invariant Sane(log)
    {
      var plan := plans[i];
      assert DistinctKeys(plans[i].entries);
      var b, jobs, all := Resume(plan, log);
      var failed, at := b.Process(jobs, plan.onPro, plan.onAmateur, plan.proFates, plan.amateurFates);
      var kept := if plan.lives.Some? && plan.lives.value < |b.log| - |log| then |log| + plan.lives.value else |b.log|;
      SanePrefix(b.log, kept);
      log := b.log[..kept];
    }
  }

  lemma EmptySane()
    ensures Sane([])
  {
  }
}
