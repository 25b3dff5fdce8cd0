/** scripts/build_pre_ufc_career_supplement.py: the retry state of one fighter on one track, and what a
    sequence of durable writes may look like. */
module CareerStates {
  import opened Common

  const MAX_RETRY_ATTEMPTS := 3

  /** The hash of the stable id and the debut boundary, and of nothing else. */
  datatype Fingerprint = Fingerprint(id: string, debut: string)

  /** The last two are the row counts the old-format checkpoints of the tracks hold under the fighter's names. */
  datatype Candidate = Candidate(id: string, debut: string, name: string, legacyPro: Option<int>, legacyAmateur: Option<int>)

  datatype Status =
    | Pending | ZeroRows | TransientFailure | Success | ProcessingRefused
    | ExhaustedZeroRows | ExhaustedTransientFailure | ReferenceWriteRefused

  datatype CareerRow = CareerRow(fighter: string, bout: string)

  /** One identity's entry in a checkpoint. `rows` are the rows its row count counts. */
  datatype State = State(name: string, fingerprint: Fingerprint, attempts: nat, status: Status, rows: seq<CareerRow>)

  type Checkpoint = map<string, State>

  datatype Track = Pro | Amateur

  datatype Scraped = Rows(rows: seq<CareerRow>) | AcquisitionError | Refusal

  function FingerprintOf(c: Candidate): Fingerprint {
    Fingerprint(c.id, c.debut)
  }

  /** The old-format count to migrate from, if any. */
  function Legacy(c: Candidate, track: Track, migrate: bool): Option<int> {
    if !migrate then None else if track.Pro? then c.legacyPro else c.legacyAmateur
  }

  /** `_prepare_identity_state`. A migrated success counts rows that no scrape of this format fetched. */
  function Prepare(states: Checkpoint, key: string, c: Candidate, legacy: Option<int>): State {
    if key in states && states[key].fingerprint == FingerprintOf(c) then states[key].(name := c.name)
    else
      var begun := State(c.name, FingerprintOf(c), 0, Pending, []);
      if key !in states && legacy.Some? && legacy.value > 0 then begun.(status := Success)
      else if key !in states && legacy == Some(0) then begun.(status := ZeroRows)
      else begun
  }

  predicate Exhausted(s: Status) {
    s == ExhaustedZeroRows || s == ExhaustedTransientFailure || s == ReferenceWriteRefused
  }

  predicate Final(s: Status) {
    s == Success || Exhausted(s)
  }

  /** `_state_should_scrape`. */
  predicate ShouldScrape(s: State) {
    if Final(s.status) then false
    else if s.status == ZeroRows || s.status == TransientFailure then s.attempts < MAX_RETRY_ATTEMPTS
    else true
  }

  /** `_record_identity_attempt`. */
  function RecordAttempt(states: Checkpoint, key: string, c: Candidate, rows: Option<seq<CareerRow>>): Checkpoint {
    var s := Prepare(states, key, c, None);
    var attempts := s.attempts + 1;
    var spent := attempts >= MAX_RETRY_ATTEMPTS;
    states[key :=
      match rows
      case None => s.(attempts := attempts, status := if spent then ExhaustedTransientFailure else TransientFailure, rows := [])
      case Some(found) =>
        if found == [] then s.(attempts := attempts, status := if spent then ExhaustedZeroRows else ZeroRows, rows := [])
        else s.(attempts := attempts, status := Success, rows := found)]
  }

  /** `_record_processing_refusal`. */
  function RecordRefusal(states: Checkpoint, key: string, c: Candidate): Checkpoint {
    states[key := Prepare(states, key, c, None).(status := ProcessingRefused)]
  }

  function Record(states: Checkpoint, key: string, c: Candidate, scraped: Scraped): Checkpoint {
    match scraped
    case Rows(rows) => RecordAttempt(states, key, c, Some(rows))
    case AcquisitionError => RecordAttempt(states, key, c, None)
    case Refusal => RecordRefusal(states, key, c)
  }

  /** `_preserve_reference_failure`: what was attempted in this run is refused for good. */
  function Refused(states: Checkpoint, attempted: set<string>): Checkpoint {
    map k | k in states :: if k in attempted then states[k].(status := ReferenceWriteRefused) else states[k]
  }

  // ---- the bounded retry budget ----

  /** Anything still to be scraped has attempts left; only a spent budget is exhausted. */
  predicate Good(s: State) {
    && s.attempts <= MAX_RETRY_ATTEMPTS
    && (ShouldScrape(s) || s.status in {ZeroRows, TransientFailure, Pending, ProcessingRefused} ==> s.attempts < MAX_RETRY_ATTEMPTS)
    && (s.status in {ExhaustedZeroRows, ExhaustedTransientFailure} ==> s.attempts == MAX_RETRY_ATTEMPTS)
    && (s.status == Success && s.attempts > 0 ==> s.rows != [])
  }

  predicate AllGood(states: Checkpoint) {
    forall k | k in states :: Good(states[k])
  }

  /** With an unchanged fingerprint attempts only grow, and success and exhaustion are for good, save that a
      failed reference write may still be noted. */
  predicate Evolved(s: State, s': State) {
    s.fingerprint == s'.fingerprint ==>
      && s.attempts <= s'.attempts
      && (Final(s.status) ==> s'.attempts == s.attempts && (s'.status == s.status || s'.status == ReferenceWriteRefused))
  }

  ghost predicate AllEvolved(states: Checkpoint, states': Checkpoint) {
    forall k | k in states :: k in states' && Evolved(states[k], states'[k])
  }

  predicate ScrapedSuccess(s: State) {
    s.status == Success && s.attempts > 0
  }

  /** The retry flag asks for nothing the queue does not already hold. */
  lemma ZeroRowFlagAddsNothing(s: State, flag: bool)
    ensures ShouldScrape(s) || (flag && s.status == ZeroRows && s.attempts < MAX_RETRY_ATTEMPTS) <==> ShouldScrape(s)
  {
  }

  lemma PrepareKeeps(states: Checkpoint, key: string, c: Candidate, legacy: Option<int>)
    requires AllGood(states)
    ensures var s := Prepare(states, key, c, legacy);
            && Good(s) && s.fingerprint == FingerprintOf(c)
            && (key in states ==> Evolved(states[key], s))
            && (ScrapedSuccess(s) ==> key in states && ScrapedSuccess(states[key]) && s.rows == states[key].rows)
            && (!(key in states && states[key].fingerprint == FingerprintOf(c)) ==>
                  && s.attempts == 0
                  && (s.status == Success <==> key !in states && legacy.Some? && legacy.value > 0)
                  && (s.status == ZeroRows <==> key !in states && legacy == Some(0))
                  && (ShouldScrape(s) <==> s.status != Success))
  {
  }

  /** One recorded scrape of a queued state spends one attempt at most and stays within the budget; a refusal
      to process, or a change of display name, spends none. */
  lemma RecordKeeps(states: Checkpoint, key: string, c: Candidate, scraped: Scraped)
    requires AllGood(states) && key in states && states[key].fingerprint == FingerprintOf(c) && ShouldScrape(states[key])
    ensures var states' := Record(states, key, c, scraped);
            && AllGood(states') && AllEvolved(states, states')
            && states'[key].attempts == states[key].attempts + (if scraped.Refusal? then 0 else 1)
            && states'[key].fingerprint == FingerprintOf(c)
            && (states'[key].status == Success <==> scraped.Rows? && scraped.rows != [])
            && (states'[key].status == ProcessingRefused <==> scraped.Refusal?)
            && (states'[key].status in {TransientFailure, ExhaustedTransientFailure} <==> scraped.AcquisitionError?)
            && (Exhausted(states'[key].status) <==> states'[key].attempts == MAX_RETRY_ATTEMPTS && !scraped.Refusal?
                                                    && states'[key].status != Success)
            && (ScrapedSuccess(states'[key]) ==> states'[key].rows == scraped.rows)
            && (ShouldScrape(states'[key]) <==> scraped.Refusal? || (states'[key].status != Success && states'[key].attempts < 3))
            && states'.Keys == states.Keys && forall k | k in states && k != key :: states'[k] == states[k]
  {
  }

  /** What is still to be scraped of an entry, given the durable checkpoint: whatever is not known under this id and
      debut, unless an old count says it was found; and of what is known, whatever has neither been found nor
      been given up. */
  ghost predicate Outstanding(durable: Checkpoint, key: string, c: Candidate, legacy: Option<int>) {
    if key in durable && durable[key].fingerprint.id == c.id && durable[key].fingerprint.debut == c.debut then
      durable[key].status in {Pending, ProcessingRefused} || (durable[key].status in {ZeroRows, TransientFailure} && durable[key].attempts < 3)
    else key in durable || legacy.None? || legacy.value <= 0
  }

  /** Preparation queues exactly what is outstanding. */
  lemma PreparedIsOutstanding(states: Checkpoint, key: string, c: Candidate, legacy: Option<int>)
    ensures ShouldScrape(Prepare(states, key, c, legacy)) <==> Outstanding(states, key, c, legacy)
  {
  }

  lemma RenameSpendsNothing(states: Checkpoint, key: string, c: Candidate, name: string, legacy: Option<int>)
    requires key in states && states[key].fingerprint == FingerprintOf(c)
    ensures var renamed := Prepare(states, key, c.(name := name), legacy);
            renamed.attempts == states[key].attempts && renamed.status == states[key].status && renamed.rows == states[key].rows
            && renamed.name == name
  {
  }

  // ---- durable writes ----

  /** Atomic replacements of the two files of a track, in the order they became durable. */
  datatype Write = Output(track: Track, rows: seq<CareerRow>) | Saved(track: Track, states: Checkpoint)

  function LastSaved(log: seq<Write>, track: Track): Checkpoint {
    if log == [] then map[]
    else
      var w := log[|log| - 1];
      if w.Saved? && w.track == track then w.states else LastSaved(log[..|log| - 1], track)
  }

  /** An output write of the track had all the rows to work with. */
  ghost predicate Written(log: seq<Write>, track: Track, rows: seq<CareerRow>) {
    exists j :: 0 <= j < |log| && log[j].Output? && log[j].track == track && forall r | r in rows :: r in log[j].rows
  }

  ghost predicate Backed(log: seq<Write>, track: Track, s: State) {
    ScrapedSuccess(s) ==> Written(log, track, s.rows)
  }

  ghost predicate AllBacked(log: seq<Write>, track: Track, states: Checkpoint) {
    forall k | k in states :: Backed(log, track, states[k])
  }

  ghost predicate Follows(log: seq<Write>, w: Write) {
    w.Saved? ==> AllGood(w.states) && AllEvolved(LastSaved(log, w.track), w.states) && AllBacked(log, w.track, w.states)
  }

  ghost predicate Sane(log: seq<Write>) {
    log == [] || (Sane(log[..|log| - 1]) && Follows(log[..|log| - 1], log[|log| - 1]))
  }

  lemma {:induction false} SanePrefix(log: seq<Write>, n: nat)
    requires Sane(log) && n <= |log|
    ensures Sane(log[..n])
  {
    if n < |log| {
      SanePrefix(log[..|log| - 1], n);
      assert log[..|log| - 1][..n] == log[..n];
    } else {
      assert log[..n] == log;
    }
  }

  lemma {:induction false} SaneAt(log: seq<Write>, i: nat)
    requires Sane(log) && i < |log|
    ensures Follows(log[..i], log[i])
  {
    SanePrefix(log, i + 1);
    assert log[..i + 1][..i] == log[..i];
  }

  /** A durable checkpoint records a scraped success only after an output write of its track that had the rows. */
  lemma {:induction false} OutputComesFirst(log: seq<Write>, i: nat, key: string)
    requires Sane(log) && i < |log| && log[i].Saved? && key in log[i].states
    requires log[i].states[key].status == Success && log[i].states[key].attempts > 0
    ensures exists j :: 0 <= j < i && log[j].Output? && log[j].track == log[i].track
                        && forall r | r in log[i].states[key].rows :: r in log[j].rows
    ensures log[i].states[key].rows != []
  {
    SaneAt(log, i);
    assert Backed(log[..i], log[i].track, log[i].states[key]);
    assert Good(log[i].states[key]);
    var j :| 0 <= j < |log[..i]| && log[..i][j].Output? && log[..i][j].track == log[i].track
             && forall r | r in log[i].states[key].rows :: r in log[..i][j].rows;
  }

  /** Every durable state is within its budget. */
  lemma {:induction false} DurableAttemptsBounded(log: seq<Write>, i: nat, key: string)
    requires Sane(log) && i < |log| && log[i].Saved? && key in log[i].states
    ensures var s := log[i].states[key];
            && s.attempts <= 3
            && (ShouldScrape(s) || s.status in {Pending, ZeroRows, TransientFailure, ProcessingRefused} ==> s.attempts < 3)
            && (s.status in {ExhaustedZeroRows, ExhaustedTransientFailure} ==> s.attempts == 3)
  {
    SaneAt(log, i);
    assert Good(log[i].states[key]);
  }

  lemma {:induction false} LastSavedIs(log: seq<Write>, track: Track, i: nat)
    requires i < |log| && log[i].Saved? && log[i].track == track
    requires forall j | i < j < |log| :: !(log[j].Saved? && log[j].track == track)
    ensures LastSaved(log, track) == log[i].states
  {
    if i < |log| - 1 { LastSavedIs(log[..|log| - 1], track, i); }
  }

  /** Between durable checkpoints of one track over which a fingerprint stays the same, attempts never go down
      and a settled identity is never scraped again. */
  lemma {:induction false} SettledForGood(log: seq<Write>, track: Track, i: nat, j: nat, key: string)
    requires Sane(log) && i <= j < |log| && log[i].Saved? && log[j].Saved? && log[i].track == log[j].track == track
    requires key in log[i].states
    requires forall k | i <= k <= j && log[k].Saved? && log[k].track == track && key in log[k].states ::
               log[k].states[key].fingerprint == log[i].states[key].fingerprint
    ensures key in log[j].states && Evolved(log[i].states[key], log[j].states[key])
    ensures var s, s' := log[i].states[key], log[j].states[key];
            && s.attempts <= s'.attempts
            && (s.status in {Success, ExhaustedZeroRows, ExhaustedTransientFailure, ReferenceWriteRefused} ==>
                  s'.attempts == s.attempts && s'.status in {s.status, ReferenceWriteRefused})
    decreases j
  {
    if i < j {
      SaneAt(log, j);
      var m := PreviousSave(log, track, i, j);
      SettledForGood(log, track, i, m, key);
      LastSavedIs(log[..j], track, m);
    }
  }

  lemma {:induction false} PreviousSave(log: seq<Write>, track: Track, i: nat, j: nat) returns (m: nat)
    requires i < j <= |log| && log[i].Saved? && log[i].track == track
    ensures i <= m < j && log[m].Saved? && log[m].track == track
    ensures forall k | m < k < j :: !(log[k].Saved? && log[k].track == track)
  {
    m := j - 1;
    while !(log[m].Saved? && log[m].track == track)
      invariant i <= m < j
      invariant forall k | m < k < j :: !(log[k].Saved? && log[k].track == track)
      decreases m
    {
      m := m - 1;
    }
  }
}
