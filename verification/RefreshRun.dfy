/** scripts/build_profile_supplement_from_external_profiles.py: one refresh run asks the sources for what the
    candidates' profiles lack, and publishes all of it or nothing. */
module RefreshRun {
  import opened Common
  import opened RowMerge

  type Profile = map<string, string>

  /** What a source says about a candidate: a page with the values read from it, the fields whose value
      matches its review, whether the page is the bound fighter's, and the columns of the row; or one of the
      ways of failing. */
  datatype Answer =
    | Page(found: Profile, reviewed: set<string>, verified: bool, columns: Row)
    | NoPage
    | Unverified
    | ProcessingFailure
    | SourceFailure(outage: bool)

  datatype Outcome = Recovered(fields: Profile, row: Row) | Nothing | Rejected | Broken | Failed(out: bool)

  datatype Recovery = Recovery(key: string, source: string, fields: Profile, row: Row)

  datatype Run = Run(state: map<string, Profile>, results: seq<Recovery>, outages: set<string>,
                     processing: nat, failures: nat, rejections: nat)

  function RecoverableFields(source: string): (fields: set<string>)
    ensures fields <= TARGET_FIELDS
  {
    if source == "martialbot" then {"height", "reach", "stance", "dob"}
    else if source == "espn" || source == "fightdx" then {"height", "reach", "weight", "stance", "dob"}
    else if source == "wikipedia" then {"reach", "stance", "dob"}
    else if source == "tapology" then {"height", "reach", "weight", "dob"}
    else if source == "sherdog" then {"height", "weight", "dob"}
    else {}
  }

  /** The same table by field. */
  lemma WhoGives(source: string)
    ensures "height" in RecoverableFields(source) <==> source in {"martialbot", "espn", "fightdx", "tapology", "sherdog"}
    ensures "reach" in RecoverableFields(source) <==> source in {"martialbot", "espn", "fightdx", "wikipedia", "tapology"}
    ensures "weight" in RecoverableFields(source) <==> source in {"espn", "fightdx", "tapology", "sherdog"}
    ensures "stance" in RecoverableFields(source) <==> source in {"martialbot", "espn", "fightdx", "wikipedia"}
    ensures "dob" in RecoverableFields(source) <==> source in {"martialbot", "espn", "fightdx", "wikipedia", "tapology", "sherdog"}
  {
  }

  function ProfileOf(state: map<string, Profile>, key: string): Profile {
    if key in state then state[key] else map[]
  }

  predicate Has(t: Reader, profile: Profile, field: string) {
    Present(t, field, Get(profile, field))
  }

  predicate HasGap(t: Reader, source: string, profile: Profile) {
    exists f | f in RecoverableFields(source) :: !Has(t, profile, f)
  }

  /** The fields a page adds to a profile. */
  function Additions(t: Reader, source: string, profile: Profile, found: Profile): Profile {
    AdditionsAmong(t, profile, found, RecoverableFields(source))
  }

  function AdditionsAmong(t: Reader, profile: Profile, found: Profile, fields: set<string>): Profile {
    map f | f in fields && !Has(t, profile, f) && Has(t, found, f) :: Get(found, f)
  }

  lemma OneMoreField(t: Reader, profile: Profile, found: Profile, fields: set<string>, f: string)
    ensures AdditionsAmong(t, profile, found, fields + {f})
            == if !Has(t, profile, f) && Has(t, found, f) then AdditionsAmong(t, profile, found, fields)[f := Get(found, f)]
               else AdditionsAmong(t, profile, found, fields)
  {
    hide Has;
  }

  /** `_recover_profile_fields`. */
  method RecoverProfileFields(t: Reader, source: string, profile: Profile, found: Profile) returns (added: Profile)
    ensures added == Additions(t, source, profile, found)
  {
    hide Has, RecoverableFields, AdditionsAmong;
    added := map[];
    var fields := RecoverableFields(source);
    var left := fields;
    assert fields - left == {} && AdditionsAmong(t, profile, found, {}) == map[] by { NoFields(t, profile, found); }
    while left != {}
      invariant left <= fields && added == AdditionsAmong(t, profile, found, fields - left)
      decreases |left|
    {
      var field :| field in left;
      OneMoreField(t, profile, found, fields - left, field);
      assert fields - left + {field} == fields - (left - {field});
      if !Has(t, profile, field) && Has(t, found, field) { added := added[field := Get(found, field)]; }
      left := left - {field};
    }
    assert fields - {} == fields;
  }

  lemma NoFields(t: Reader, profile: Profile, found: Profile)
    ensures AdditionsAmong(t, profile, found, {}) == map[]
  {
  }

  function OutcomeOf(t: Reader, source: string, profile: Profile, answer: Answer): Outcome {
    match answer
    case Page(found, reviewed, verified, columns) =>
      var fields := Additions(t, source, profile, found);
      if fields == map[] then Nothing
      else if !verified || !(fields.Keys <= reviewed) then Rejected
      else Recovered(fields, RowOf(columns, fields))
    case NoPage => Nothing
    case Unverified => Rejected
    case ProcessingFailure => Broken
    case SourceFailure(outage) => Failed(outage)
  }

  /** The row carries the recovered fields and no other target field. */
  function RowOf(columns: Row, fields: Profile): Row {
    map f | f in columns.Keys + TARGET_FIELDS :: if f in TARGET_FIELDS then Get(fields, f) else columns[f]
  }

  function Visit(t: Reader, run: Run, key: string, source: string, answer: Answer): Run {
    var profile := ProfileOf(run.state, key);
    if source in run.outages || !HasGap(t, source, profile) then run
    else
      match OutcomeOf(t, source, profile, answer)
      case Recovered(fields, row) =>
        run.(state := run.state[key := profile + fields], results := run.results + [Recovery(key, source, fields, row)])
      case Nothing => run
      case Rejected => run.(rejections := run.rejections + 1)
      case Broken => run.(processing := run.processing + 1)
      case Failed(out) =>
        run.(failures := run.failures + 1, outages := if source == "espn" && out then run.outages + {source} else run.outages)
  }

  /** The first n sources, asked about one candidate. */
  function AskSources(t: Reader, run: Run, key: string, sources: seq<string>, ask: string -> Answer, n: nat): Run
    requires n <= |sources|
  {
    if n == 0 then run
    else Visit(t, AskSources(t, run, key, sources, ask, n - 1), key, sources[n - 1], ask(sources[n - 1]))
  }

  /** The first n candidates; one without a key is passed over. */
  function AskAll(t: Reader, run: Run, keys: seq<string>, sources: seq<string>, ask: (nat, string) -> Answer, n: nat): Run
    requires n <= |keys|
  {
    if n == 0 then run
    else
      var before := AskAll(t, run, keys, sources, ask, n - 1);
      if keys[n - 1] == "" then before
      else AskSources(t, before, keys[n - 1], sources, s => ask(n - 1, s), |sources|)
  }

  function Start(state: map<string, Profile>): Run {
    Run(state, [], {}, 0, 0, 0)
  }

  /** One source is asked about one candidate. */
  method AskSource(t: Reader, run: Run, key: string, source: string, answer: Answer) returns (run': Run)
    ensures run' == Visit(t, run, key, source, answer)
  {
    hide HasGap, RecoverableFields, Has, RowOf, AdditionsAmong;
    run' := run;
    var profile := ProfileOf(run.state, key);
    if source in run.outages || !HasGap(t, source, profile) { return; }
    match answer
    case Page(found, reviewed, verified, columns) =>
      var fields := RecoverProfileFields(t, source, profile, found);
      if fields == map[] { return; }
      if !verified || !(fields.Keys <= reviewed) {
        run' := run'.(rejections := run'.rejections + 1);
      } else {
        run' := run'.(results := run'.results + [Recovery(key, source, fields, RowOf(columns, fields))]);
        run' := run'.(state := run'.state[key := profile + fields]);
      }
    case NoPage =>
    case Unverified => run' := run'.(rejections := run'.rejections + 1);
    case ProcessingFailure => run' := run'.(processing := run'.processing + 1);
    case SourceFailure(outage) =>
      if source == "espn" && outage { run' := run'.(outages := run'.outages + {source}); }
      run' := run'.(failures := run'.failures + 1);
  }

  /** The loop of `run_profile_supplement_refresh` over candidates and sources. */
  method Refresh(t: Reader, state: map<string, Profile>, keys: seq<string>, sources: seq<string>, ask: (nat, string) -> Answer)
    returns (run: Run)
    ensures run == AskAll(t, Start(state), keys, sources, ask, |keys|)
  {
    hide Visit;
    run := Start(state);
    for i := 0 to |keys|
      invariant run == AskAll(t, Start(state), keys, sources, ask, i)
    {
      var key := keys[i];
      if key == "" { continue; }
      ghost var before := run;
      for j := 0 to |sources|
        invariant run == AskSources(t, before, key, sources, s => ask(i, s), j)
      {
        run := AskSource(t, run, key, sources[j], ask(i, sources[j]));
      }
    }
  }

  // ---- whole runs ----

  ghost predicate Clash(a: Recovery, b: Recovery) {
    a.key == b.key && exists f :: f in a.fields && f in b.fields
  }

  /** What every run keeps: a recovery has something to give, only what its source can, only what was missing
      from the start and what no other recovery gives; and the profiles hold the start's values and the
      recoveries', nothing else. */
  ghost predicate Kept(t: Reader, start: map<string, Profile>, run: Run) {
    && (forall i | 0 <= i < |run.results| :: Sound(t, start, run.results[i]))
    && (forall i, j | 0 <= i < j < |run.results| :: !Clash(run.results[i], run.results[j]))
    && (forall key, f | Has(t, ProfileOf(start, key), f) :: Get(ProfileOf(run.state, key), f) == Get(ProfileOf(start, key), f))
    && (forall i, f | 0 <= i < |run.results| && f in run.results[i].fields ::
          Get(ProfileOf(run.state, run.results[i].key), f) == run.results[i].fields[f])
    && (forall key, f | Has(t, ProfileOf(run.state, key), f) && !Has(t, ProfileOf(start, key), f) ::
          Supplied(run.results, key, f))
  }

  ghost predicate Sound(t: Reader, start: map<string, Profile>, r: Recovery) {
    && r.fields != map[] && r.fields.Keys <= RecoverableFields(r.source)
    && (forall f | f in r.fields :: Present(t, f, r.fields[f]) && !Has(t, ProfileOf(start, r.key), f))
    && (forall f | f in TARGET_FIELDS :: Get(r.row, f) == Get(r.fields, f))
  }

  ghost predicate Supplied(results: seq<Recovery>, key: string, f: string) {
    exists i :: 0 <= i < |results| && results[i].key == key && f in results[i].fields
  }

  lemma VisitKeeps(t: Reader, start: map<string, Profile>, run: Run, key: string, source: string, answer: Answer)
    requires Kept(t, start, run)
    ensures Kept(t, start, Visit(t, run, key, source, answer))
    ensures run.outages <= Visit(t, run, key, source, answer).outages
    ensures forall k, f | Has(t, ProfileOf(run.state, k), f) :: Has(t, ProfileOf(Visit(t, run, key, source, answer).state, k), f)
  {
    hide RecoverableFields, Present, Kept, Additions, RowOf;
    var profile := ProfileOf(run.state, key);
    var outcome := OutcomeOf(t, source, profile, answer);
    KeptIgnoresCounts(t, start, run, Visit(t, run, key, source, answer));
    if source !in run.outages && HasGap(t, source, profile) && outcome.Recovered? {
      RecoveryKeeps(t, start, run, key, source, answer.found, answer.columns);
    }
  }

  lemma KeptIgnoresCounts(t: Reader, start: map<string, Profile>, run: Run, run': Run)
    requires Kept(t, start, run)
    ensures run'.state == run.state && run'.results == run.results ==> Kept(t, start, run')
  {
    hide Sound, Clash, Supplied, Present;
  }

  function WithRecovery(t: Reader, run: Run, key: string, source: string, found: Profile, columns: Row): Run {
    var fields := Additions(t, source, ProfileOf(run.state, key), found);
    run.(state := run.state[key := ProfileOf(run.state, key) + fields],
         results := run.results + [Recovery(key, source, fields, RowOf(columns, fields))])
  }

  lemma AdditionsAt(t: Reader, source: string, profile: Profile, found: Profile)
    ensures var fields := Additions(t, source, profile, found);
            && fields.Keys <= RecoverableFields(source)
            && forall f | f in fields :: Present(t, f, fields[f]) && !Has(t, profile, f)
  {
  }

  lemma StateAfter(t: Reader, run: Run, key: string, source: string, found: Profile, columns: Row, k: string, f: string)
    ensures var fields := Additions(t, source, ProfileOf(run.state, key), found);
            Get(ProfileOf(WithRecovery(t, run, key, source, found, columns).state, k), f)
            == if k == key && f in fields then fields[f] else Get(ProfileOf(run.state, k), f)
  {
    hide Additions;
  }

  lemma NewIsSound(t: Reader, start: map<string, Profile>, run: Run, key: string, source: string, found: Profile, columns: Row)
    requires Kept(t, start, run) && Additions(t, source, ProfileOf(run.state, key), found) != map[]
    ensures var fields := Additions(t, source, ProfileOf(run.state, key), found);
            Sound(t, start, Recovery(key, source, fields, RowOf(columns, fields)))
  {
    hide RecoverableFields, Present, Additions, Clash, Supplied;
    AdditionsAt(t, source, ProfileOf(run.state, key), found);
  }

  lemma NewIsApart(t: Reader, start: map<string, Profile>, run: Run, key: string, source: string, found: Profile, i: nat)
    requires Kept(t, start, run) && i < |run.results| && run.results[i].key == key
    ensures forall f | f in run.results[i].fields :: f !in Additions(t, source, ProfileOf(run.state, key), found)
  {
    hide RecoverableFields, Present, Additions, Clash, Supplied;
    AdditionsAt(t, source, ProfileOf(run.state, key), found);
    assert Sound(t, start, run.results[i]);
  }

  lemma SuppliedStill(results: seq<Recovery>, r: Recovery, k: string, f: string)
    requires Supplied(results, k, f)
    ensures Supplied(results + [r], k, f)
  {
    var i :| 0 <= i < |results| && results[i].key == k && f in results[i].fields;
    assert (results + [r])[i] == results[i];
  }

  lemma NewIsSupplied(t: Reader, start: map<string, Profile>, run: Run, key: string, source: string, found: Profile, columns: Row, k: string, f: string)
    requires Kept(t, start, run) && !Has(t, ProfileOf(start, k), f)
    requires Has(t, ProfileOf(WithRecovery(t, run, key, source, found, columns).state, k), f)
    ensures Supplied(WithRecovery(t, run, key, source, found, columns).results, k, f)
  {
    hide RecoverableFields, Present, Additions, Sound, ProfileOf, RowOf, Clash;
    var run' := WithRecovery(t, run, key, source, found, columns);
    var fields := Additions(t, source, ProfileOf(run.state, key), found);
    StateAfter(t, run, key, source, found, columns, k, f);
    if k == key && f in fields {
      assert run'.results[|run.results|].key == k;
    } else {
      SuppliedStill(run.results, run'.results[|run.results|], k, f);
    }
  }

  lemma ResultsStand(t: Reader, start: map<string, Profile>, run: Run, key: string, source: string, found: Profile, columns: Row)
    requires Kept(t, start, run) && Additions(t, source, ProfileOf(run.state, key), found) != map[]
    ensures var run' := WithRecovery(t, run, key, source, found, columns);
            && (forall i, f | 0 <= i < |run'.results| && f in run'.results[i].fields ::
                  Get(ProfileOf(run'.state, run'.results[i].key), f) == run'.results[i].fields[f])
            && (forall i, j | 0 <= i < j < |run'.results| :: !Clash(run'.results[i], run'.results[j]))
  {
    hide RecoverableFields, Present, Additions, Sound, ProfileOf, RowOf, Supplied;
    var run' := WithRecovery(t, run, key, source, found, columns);
    forall i: nat, f | i < |run'.results| && f in run'.results[i].fields
      ensures Get(ProfileOf(run'.state, run'.results[i].key), f) == run'.results[i].fields[f]
    {
      StateAfter(t, run, key, source, found, columns, run'.results[i].key, f);
      if i < |run.results| && run.results[i].key == key { NewIsApart(t, start, run, key, source, found, i); }
    }
    forall i: nat | i < |run.results| && run.results[i].key == key ensures !Clash(run.results[i], run'.results[|run.results|]) {
      NewIsApart(t, start, run, key, source, found, i);
    }
  }

  lemma RecoveryKeeps(t: Reader, start: map<string, Profile>, run: Run, key: string, source: string, found: Profile, columns: Row)
    requires Kept(t, start, run) && Additions(t, source, ProfileOf(run.state, key), found) != map[]
    ensures var run' := WithRecovery(t, run, key, source, found, columns);
            && Kept(t, start, run')
            && forall k, f | Has(t, ProfileOf(run.state, k), f) :: Has(t, ProfileOf(run'.state, k), f)
  {
    hide RecoverableFields, Present, Additions, Sound, ProfileOf, RowOf, Supplied, Clash;
    var run' := WithRecovery(t, run, key, source, found, columns);
    NewIsSound(t, start, run, key, source, found, columns);
    AdditionsAt(t, source, ProfileOf(run.state, key), found);
    ResultsStand(t, start, run, key, source, found, columns);
    forall k, f | Has(t, ProfileOf(run.state, k), f)
      ensures Get(ProfileOf(run'.state, k), f) == Get(ProfileOf(run.state, k), f) && Has(t, ProfileOf(run'.state, k), f)
    {
      StateAfter(t, run, key, source, found, columns, k, f);
    }
    forall k, f | Has(t, ProfileOf(start, k), f) ensures Get(ProfileOf(run'.state, k), f) == Get(ProfileOf(start, k), f) {
      assert Has(t, ProfileOf(run.state, k), f);
    }
    forall k, f | Has(t, ProfileOf(run'.state, k), f) && !Has(t, ProfileOf(start, k), f) ensures Supplied(run'.results, k, f) {
      NewIsSupplied(t, start, run, key, source, found, columns, k, f);
    }
  }

  lemma {:induction false} AskSourcesKeeps(t: Reader, start: map<string, Profile>, run: Run, key: string, sources: seq<string>,
                                           ask: string -> Answer, n: nat)
    requires n <= |sources| && Kept(t, start, run)
    ensures var run' := AskSources(t, run, key, sources, ask, n);
            && Kept(t, start, run') && run.outages <= run'.outages
            && forall k, f | Has(t, ProfileOf(run.state, k), f) :: Has(t, ProfileOf(run'.state, k), f)
  {
    hide Kept, Visit, Has;
    if n > 0 {
      AskSourcesKeeps(t, start, run, key, sources, ask, n - 1);
      VisitKeeps(t, start, AskSources(t, run, key, sources, ask, n - 1), key, sources[n - 1], ask(sources[n - 1]));
    }
  }

  lemma {:induction false} AskAllKeeps(t: Reader, start: map<string, Profile>, keys: seq<string>, sources: seq<string>,
                                       ask: (nat, string) -> Answer, n: nat)
    requires n <= |keys|
    ensures Kept(t, start, AskAll(t, Start(start), keys, sources, ask, n))
  {
    hide Kept, AskSources;
    if n > 0 {
      AskAllKeeps(t, start, keys, sources, ask, n - 1);
      if keys[n - 1] != "" {
        AskSourcesKeeps(t, start, AskAll(t, Start(start), keys, sources, ask, n - 1), keys[n - 1], sources, s => ask(n - 1, s), |sources|);
      }
    } else {
      StartIsKept(t, start);
    }
  }

  lemma StartIsKept(t: Reader, start: map<string, Profile>)
    ensures Kept(t, start, Start(start))
  {
    hide Present, Sound, Clash, RecoverableFields;
  }

  /** Over a whole run each field of each fighter is recovered at most once, from a source allowed to give it,
      and never when the profile had it; every profile ends with what it had and what was recovered. */
  lemma EachFieldRecoveredOnce(t: Reader, start: map<string, Profile>, keys: seq<string>, sources: seq<string>, ask: (nat, string) -> Answer)
    ensures var run := AskAll(t, Start(start), keys, sources, ask, |keys|);
            && (forall i, j, f | 0 <= i < j < |run.results| && run.results[i].key == run.results[j].key && f in run.results[i].fields ::
                  f !in run.results[j].fields)
            && (forall i | 0 <= i < |run.results| :: Sound(t, start, run.results[i]))
            && (forall key, f | f in TARGET_FIELDS ::
                  Has(t, ProfileOf(run.state, key), f) <==> Has(t, ProfileOf(start, key), f) || Supplied(run.results, key, f))
  {
    hide Sound, Present;
    AskAllKeeps(t, start, keys, sources, ask, |keys|);
    var run := AskAll(t, Start(start), keys, sources, ask, |keys|);
    forall i, j, f | 0 <= i < j < |run.results| && run.results[i].key == run.results[j].key && f in run.results[i].fields
      ensures f !in run.results[j].fields
    {
      assert !Clash(run.results[i], run.results[j]);
    }
    forall key, f | Supplied(run.results, key, f) ensures Has(t, ProfileOf(run.state, key), f) {
      var i :| 0 <= i < |run.results| && run.results[i].key == key && f in run.results[i].fields;
      SoundGives(t, start, run.results[i], f);
    }
  }

  lemma SoundGives(t: Reader, start: map<string, Profile>, r: Recovery, f: string)
    requires Sound(t, start, r) && f in r.fields
    ensures Present(t, f, r.fields[f])
  {
  }

  /** A page that could be used in full. */
  ghost predicate Usable(answer: Answer) {
    answer.Page? && answer.verified && TARGET_FIELDS <= answer.reviewed
  }

  lemma VisitRecovers(t: Reader, run: Run, key: string, source: string, answer: Answer, f: string)
    requires Usable(answer) && source !in run.outages && f in RecoverableFields(source) && Has(t, answer.found, f)
    ensures Has(t, ProfileOf(Visit(t, run, key, source, answer).state, key), f)
  {
    hide RecoverableFields, Present, RowOf;
    var profile := ProfileOf(run.state, key);
    var fields := Additions(t, source, profile, answer.found);
    AdditionsAt(t, source, profile, answer.found);
    if HasGap(t, source, profile) {
      assert !Has(t, profile, f) ==> f in fields;
      assert fields.Keys <= answer.reviewed;
      StateAfter(t, run, key, source, answer.found, answer.columns, key, f);
    }
  }

  lemma {:induction false} AskSourcesRecovers(t: Reader, start: map<string, Profile>, run: Run, key: string, sources: seq<string>,
                                              ask: string -> Answer, n: nat, j: nat, f: string)
    requires j < n <= |sources| && Kept(t, start, run)
    requires Usable(ask(sources[j])) && f in RecoverableFields(sources[j]) && Has(t, ask(sources[j]).found, f)
    requires sources[j] !in AskSources(t, run, key, sources, ask, n).outages
    ensures Has(t, ProfileOf(AskSources(t, run, key, sources, ask, n).state, key), f)
  {
    hide Kept, Visit, Has, Usable, RecoverableFields;
    var before := AskSources(t, run, key, sources, ask, n - 1);
    AskSourcesKeeps(t, start, run, key, sources, ask, n - 1);
    VisitKeeps(t, start, before, key, sources[n - 1], ask(sources[n - 1]));
    if j == n - 1 {
      VisitRecovers(t, before, key, sources[j], ask(sources[j]), f);
    } else {
      AskSourcesRecovers(t, start, run, key, sources, ask, n - 1, j, f);
    }
  }

  /** No gap is left that a source still available could have closed with a page of the verified fighter and
      reviewed fields. */
  lemma {:induction false} NothingUsableIsPassedOver(t: Reader, start: map<string, Profile>, keys: seq<string>, sources: seq<string>,
                                                     ask: (nat, string) -> Answer, n: nat, i: nat, j: nat, f: string)
    requires i < n <= |keys| && keys[i] != "" && j < |sources|
    requires Usable(ask(i, sources[j])) && f in RecoverableFields(sources[j]) && Has(t, ask(i, sources[j]).found, f)
    requires sources[j] !in AskAll(t, Start(start), keys, sources, ask, n).outages
    ensures Has(t, ProfileOf(AskAll(t, Start(start), keys, sources, ask, n).state, keys[i]), f)
  {
    hide Kept, AskSources, Has, Usable, RecoverableFields;
    var before := AskAll(t, Start(start), keys, sources, ask, n - 1);
    AskAllKeeps(t, start, keys, sources, ask, n - 1);
    var one := s => ask(n - 1, s);
    if keys[n - 1] != "" { AskSourcesKeeps(t, start, before, keys[n - 1], sources, one, |sources|); }
    if i == n - 1 {
      AskSourcesRecovers(t, start, before, keys[i], sources, one, |sources|, j, f);
    } else {
      NothingUsableIsPassedOver(t, start, keys, sources, ask, n - 1, i, j, f);
    }
  }

  // ---- what a run has come to, turn by turn ----

  /** One source with one candidate, and what it would answer. */
  datatype Turn = Turn(key: string, source: string, answer: Answer)

  function TurnsOf(key: string, sources: seq<string>, ask: string -> Answer, n: nat): (turns: seq<Turn>)
    requires n <= |sources|
  {
    if n == 0 then [] else TurnsOf(key, sources, ask, n - 1) + [Turn(key, sources[n - 1], ask(sources[n - 1]))]
  }

  /** The turns of a run in order; a candidate without a key has none. */
  function AllTurns(keys: seq<string>, sources: seq<string>, ask: (nat, string) -> Answer, n: nat): seq<Turn>
    requires n <= |keys|
  {
    if n == 0 then []
    else
      var before := AllTurns(keys, sources, ask, n - 1);
      if keys[n - 1] == "" then before else before + TurnsOf(keys[n - 1], sources, s => ask(n - 1, s), |sources|)
  }

  /** How many turns the first n candidates have, of which those without a key have none. */
  function TurnsBefore(keys: seq<string>, each: nat, n: nat): nat
    requires n <= |keys|
  {
    if n == 0 then 0 else TurnsBefore(keys, each, n - 1) + if keys[n - 1] == "" then 0 else each
  }

  lemma {:induction false} TurnOf(key: string, sources: seq<string>, ask: string -> Answer, n: nat)
    requires n <= |sources|
    ensures |TurnsOf(key, sources, ask, n)| == n
    ensures forall j | 0 <= j < n :: TurnsOf(key, sources, ask, n)[j] == Turn(key, sources[j], ask(sources[j]))
  {
    if n > 0 { TurnOf(key, sources, ask, n - 1); }
  }

  lemma {:induction false} TurnCount(keys: seq<string>, sources: seq<string>, ask: (nat, string) -> Answer, n: nat)
    requires n <= |keys|
    ensures |AllTurns(keys, sources, ask, n)| == TurnsBefore(keys, |sources|, n)
  {
    if n > 0 {
      TurnCount(keys, sources, ask, n - 1);
      TurnOf(keys[n - 1], sources, s => ask(n - 1, s), |sources|);
    }
  }

  /** Candidate i, if it has a key, has one turn with every source in order, behind those of the candidates
      before it, and there are no other turns. */
  lemma {:induction false} TurnAt(keys: seq<string>, sources: seq<string>, ask: (nat, string) -> Answer, n: nat, i: nat, j: nat)
    requires i < n <= |keys| && keys[i] != "" && j < |sources|
    ensures var turns := AllTurns(keys, sources, ask, n);
            && |turns| == TurnsBefore(keys, |sources|, n)
            && InTurn(turns, TurnsBefore(keys, |sources|, i) + j, Turn(keys[i], sources[j], ask(i, sources[j])))
  {
    hide TurnsOf;
    TurnCount(keys, sources, ask, n);
    if i < n - 1 {
      TurnAt(keys, sources, ask, n - 1, i, j);
    } else {
      TurnCount(keys, sources, ask, i);
      TurnOf(keys[i], sources, s => ask(i, s), |sources|);
    }
  }

  predicate InTurn(turns: seq<Turn>, k: nat, turn: Turn) {
    k < |turns| && turns[k] == turn
  }

  function Over(t: Reader, run: Run, turns: seq<Turn>): Run {
    if turns == [] then run
    else
      var last := turns[|turns| - 1];
      Visit(t, Over(t, run, turns[..|turns| - 1]), last.key, last.source, last.answer)
  }

  lemma {:induction false} OverConcat(t: Reader, run: Run, a: seq<Turn>, b: seq<Turn>)
    ensures Over(t, run, a + b) == Over(t, Over(t, run, a), b)
  {
    hide Visit;
    if b == [] {
      assert a + b == a;
    } else {
      OverConcat(t, run, a, b[..|b| - 1]);
      assert (a + b)[..|a + b| - 1] == a + b[..|b| - 1];
    }
  }

  lemma {:induction false} SourcesInTurn(t: Reader, run: Run, key: string, sources: seq<string>, ask: string -> Answer, n: nat)
    requires n <= |sources|
    ensures Over(t, run, TurnsOf(key, sources, ask, n)) == AskSources(t, run, key, sources, ask, n)
  {
    hide Visit;
    if n > 0 {
      SourcesInTurn(t, run, key, sources, ask, n - 1);
      var turns := TurnsOf(key, sources, ask, n);
      assert turns[..|turns| - 1] == TurnsOf(key, sources, ask, n - 1);
    }
  }

  lemma {:induction false} CandidatesInTurn(t: Reader, run: Run, keys: seq<string>, sources: seq<string>, ask: (nat, string) -> Answer, n: nat)
    requires n <= |keys|
    ensures Over(t, run, AllTurns(keys, sources, ask, n)) == AskAll(t, run, keys, sources, ask, n)
  {
    hide Visit;
    if n > 0 {
      CandidatesInTurn(t, run, keys, sources, ask, n - 1);
      if keys[n - 1] != "" {
        var before := AllTurns(keys, sources, ask, n - 1);
        var now := TurnsOf(keys[n - 1], sources, s => ask(n - 1, s), |sources|);
        OverConcat(t, run, before, now);
        SourcesInTurn(t, Over(t, run, before), keys[n - 1], sources, s => ask(n - 1, s), |sources|);
      }
    }
  }

  /** The run when turn k comes. */
  function Before(t: Reader, start: map<string, Profile>, turns: seq<Turn>, k: nat): Run
    requires k <= |turns|
  {
    Over(t, Start(start), turns[..k])
  }

  /** In turn k the source is really asked: it is not out, and the profile lacks a field that it can give. */
  ghost predicate Asked(t: Reader, start: map<string, Profile>, turns: seq<Turn>, k: nat) {
    && k < |turns| && turns[k].source !in Before(t, start, turns, k).outages
    && exists f :: f in RecoverableFields(turns[k].source) && !Has(t, ProfileOf(Before(t, start, turns, k).state, turns[k].key), f)
  }

  /** The page adds the field to what the profile holds at the time. */
  ghost predicate Adds(t: Reader, start: map<string, Profile>, turns: seq<Turn>, k: nat, f: string) {
    && k < |turns| && turns[k].answer.Page? && f in RecoverableFields(turns[k].source)
    && !Has(t, ProfileOf(Before(t, start, turns, k).state, turns[k].key), f) && Has(t, turns[k].answer.found, f)
  }

  datatype Veto = Failure | Processing | Rejection

  /** Turn k counts against the run. */
  ghost predicate Counts(t: Reader, start: map<string, Profile>, turns: seq<Turn>, k: nat, veto: Veto) {
    Asked(t, start, turns, k)
    && var answer := turns[k].answer;
       match veto
       case Failure => answer.SourceFailure?
       case Processing => answer.ProcessingFailure?
       case Rejection =>
         || answer.Unverified?
         || (answer.Page? && (exists f :: Adds(t, start, turns, k, f))
             && (!answer.verified || exists f :: Adds(t, start, turns, k, f) && f !in answer.reviewed))
  }

  /** Turn k is a recovery: a verified page of which every field it adds is reviewed, and there is one. */
  ghost predicate Recovers(t: Reader, start: map<string, Profile>, turns: seq<Turn>, k: nat) {
    && Asked(t, start, turns, k) && turns[k].answer.Page? && turns[k].answer.verified
    && (exists f :: Adds(t, start, turns, k, f))
    && forall f :: Adds(t, start, turns, k, f) ==> f in turns[k].answer.reviewed
  }

  /** What is recovered in turn k: the fields the page adds, with its values, in a row of its columns. */
  ghost predicate IsRecoveryOf(t: Reader, start: map<string, Profile>, turns: seq<Turn>, k: nat, r: Recovery) {
    && Recovers(t, start, turns, k) && r.key == turns[k].key && r.source == turns[k].source
    && (forall f :: f in r.fields <==> Adds(t, start, turns, k, f))
    && (forall f | f in r.fields :: r.fields[f] == Get(turns[k].answer.found, f))
    && (forall c :: Get(r.row, c) == if c in TARGET_FIELDS then Get(r.fields, c) else Get(turns[k].answer.columns, c))
  }

  ghost function Counted(t: Reader, start: map<string, Profile>, turns: seq<Turn>, veto: Veto): set<nat> {
    set k: nat | k < |turns| && Counts(t, start, turns, k, veto)
  }

  ghost function Recovering(t: Reader, start: map<string, Profile>, turns: seq<Turn>): set<nat> {
    set k: nat | k < |turns| && Recovers(t, start, turns, k)
  }

  ghost predicate EspnOut(t: Reader, start: map<string, Profile>, turns: seq<Turn>) {
    exists k: nat :: Asked(t, start, turns, k) && turns[k].source == "espn" && turns[k].answer == SourceFailure(true)
  }

  lemma EarlierTurns(t: Reader, start: map<string, Profile>, turns: seq<Turn>, n: nat, k: nat)
    requires k < n <= |turns|
    ensures Asked(t, start, turns[..n], k) == Asked(t, start, turns, k)
    ensures forall f :: Adds(t, start, turns[..n], k, f) == Adds(t, start, turns, k, f)
    ensures turns[..n][k] == turns[k]
  {
    hide Over, Has, RecoverableFields, ProfileOf;
    assert turns[..n][..k] == turns[..k];
  }

  lemma EarlierCount(t: Reader, start: map<string, Profile>, turns: seq<Turn>, n: nat, k: nat)
    requires k < n <= |turns|
    ensures forall veto :: Counts(t, start, turns[..n], k, veto) == Counts(t, start, turns, k, veto)
    ensures Recovers(t, start, turns[..n], k) == Recovers(t, start, turns, k)
    ensures forall r :: IsRecoveryOf(t, start, turns[..n], k, r) == IsRecoveryOf(t, start, turns, k, r)
  {
    hide Asked, Adds;
    EarlierTurns(t, start, turns, n, k);
  }

  /** What the answer of a turn is taken for. */
  lemma OutcomeMeans(t: Reader, start: map<string, Profile>, turns: seq<Turn>, k: nat)
    requires k < |turns|
    ensures var outcome := OutcomeOf(t, turns[k].source, ProfileOf(Before(t, start, turns, k).state, turns[k].key), turns[k].answer);
            var adding := exists f :: Adds(t, start, turns, k, f);
            var reviewed := turns[k].answer.Page? && forall f :: Adds(t, start, turns, k, f) ==> f in turns[k].answer.reviewed;
            && (outcome.Failed? <==> turns[k].answer.SourceFailure?) && (outcome.Failed? ==> outcome.out == turns[k].answer.outage)
            && (outcome.Broken? <==> turns[k].answer.ProcessingFailure?)
            && (outcome.Rejected? <==> turns[k].answer.Unverified? || (turns[k].answer.Page? && adding && (!turns[k].answer.verified || !reviewed)))
            && (outcome.Recovered? <==> turns[k].answer.Page? && adding && turns[k].answer.verified && reviewed)
            && (outcome.Recovered? ==>
                  && (forall f :: f in outcome.fields <==> Adds(t, start, turns, k, f))
                  && (forall f | f in outcome.fields :: outcome.fields[f] == Get(turns[k].answer.found, f))
                  && (forall c :: Get(outcome.row, c) == if c in TARGET_FIELDS then Get(outcome.fields, c) else Get(turns[k].answer.columns, c)))
  {
    hide RowOf, Over, Additions, ProfileOf, Adds, Before, Get;
    if turns[k].answer.Page? {
      var fields := Additions(t, turns[k].source, ProfileOf(Before(t, start, turns, k).state, turns[k].key), turns[k].answer.found);
      AddsAre(t, start, turns, k);
      RowHolds(turns[k].answer.columns, fields);
    }
  }

  lemma AskedIsGap(t: Reader, start: map<string, Profile>, turns: seq<Turn>, k: nat)
    requires k < |turns|
    ensures var was := Before(t, start, turns, k);
            Asked(t, start, turns, k) <==> turns[k].source !in was.outages && HasGap(t, turns[k].source, ProfileOf(was.state, turns[k].key))
  {
    hide Has, RecoverableFields, Over, ProfileOf;
  }

  /** The last turn, as it is seen from the run before it. */
  lemma LastTurn(t: Reader, start: map<string, Profile>, turns: seq<Turn>)
    requires turns != []
    ensures var n := |turns| - 1;
            var was, now, turn := Before(t, start, turns, n), Over(t, Start(start), turns), turns[n];
            && now.failures == was.failures + (if Counts(t, start, turns, n, Failure) then 1 else 0)
            && now.processing == was.processing + (if Counts(t, start, turns, n, Processing) then 1 else 0)
            && now.rejections == was.rejections + (if Counts(t, start, turns, n, Rejection) then 1 else 0)
            && now.outages == was.outages + (if Asked(t, start, turns, n) && turn.source == "espn" && turn.answer == SourceFailure(true) then {"espn"} else {})
            && (if Recovers(t, start, turns, n) then
                  |now.results| == |was.results| + 1 && now.results[..|was.results|] == was.results
                  && IsRecoveryOf(t, start, turns, n, now.results[|was.results|])
                else now.results == was.results)
  {
    hide OutcomeOf, HasGap, Over, Asked, Adds, Before, ProfileOf, Get;
    var n := |turns| - 1;
    LastVisit(t, Start(start), turns);
    BeforeLast(t, start, turns);
    AskedIsGap(t, start, turns, n);
    OutcomeMeans(t, start, turns, n);
  }

  lemma BeforeLast(t: Reader, start: map<string, Profile>, turns: seq<Turn>)
    requires turns != []
    ensures Before(t, start, turns, |turns| - 1) == Over(t, Start(start), turns[..|turns| - 1])
  {
    hide Over;
  }

  lemma LastVisit(t: Reader, run: Run, turns: seq<Turn>)
    requires turns != []
    ensures var last := turns[|turns| - 1];
            Over(t, run, turns) == Visit(t, Over(t, run, turns[..|turns| - 1]), last.key, last.source, last.answer)
  {
    hide Visit;
  }

  lemma AddsAre(t: Reader, start: map<string, Profile>, turns: seq<Turn>, k: nat)
    requires k < |turns| && turns[k].answer.Page?
    ensures var fields := Additions(t, turns[k].source, ProfileOf(Before(t, start, turns, k).state, turns[k].key), turns[k].answer.found);
            && (forall f :: f in fields <==> Adds(t, start, turns, k, f))
            && (forall f | f in fields :: fields[f] == Get(turns[k].answer.found, f))
            && (fields == map[] <==> forall f :: !Adds(t, start, turns, k, f))
            && (fields.Keys <= turns[k].answer.reviewed <==> forall f :: Adds(t, start, turns, k, f) ==> f in turns[k].answer.reviewed)
  {
    hide Has, RecoverableFields, Over, ProfileOf;
    var fields := Additions(t, turns[k].source, ProfileOf(Before(t, start, turns, k).state, turns[k].key), turns[k].answer.found);
    assert fields != map[] ==> exists f :: f in fields by { SomeKey(fields); }
  }

  lemma SomeKey(m: Profile)
    ensures m != map[] ==> exists f :: f in m
  {
    if forall f :: f !in m { assert m == map[]; }
  }

  lemma RowHolds(columns: Row, fields: Profile)
    ensures forall c :: Get(RowOf(columns, fields), c) == if c in TARGET_FIELDS then Get(fields, c) else Get(columns, c)
  {
  }

  /** What a run comes to: its counts are the numbers of turns that count against it, its recoveries those of the
      turns that recover, in order, and ESPN is out exactly if it reported an outage. */
  lemma {:induction false} RunIsItsTurns(t: Reader, start: map<string, Profile>, turns: seq<Turn>)
    ensures var run := Over(t, Start(start), turns);
            && run.failures == |Counted(t, start, turns, Failure)|
            && run.processing == |Counted(t, start, turns, Processing)|
            && run.rejections == |Counted(t, start, turns, Rejection)|
            && |run.results| == |Recovering(t, start, turns)|
            && (forall i | 0 <= i < |run.results| :: RecoveredIn(t, start, turns, run.results[i], i))
            && run.outages == if EspnOut(t, start, turns) then {"espn"} else {}
  {
    hide Over, Counts, Recovers, Asked, IsRecoveryOf, Counted, Recovering, RecoveredIn, EspnOut, Before;
    if turns == [] {
      NobodyAsked(t, start);
    } else {
      RunIsItsTurns(t, start, turns[..|turns| - 1]);
      BeforeLast(t, start, turns);
      LastTurn(t, start, turns);
      CountedMore(t, start, turns, Failure);
      CountedMore(t, start, turns, Processing);
      CountedMore(t, start, turns, Rejection);
      RecoveringMore(t, start, turns);
      RecoveredMore(t, start, turns);
      OutageMore(t, start, turns);
    }
  }

  lemma NobodyAsked(t: Reader, start: map<string, Profile>)
    ensures Over(t, Start(start), []) == Start(start)
    ensures Recovering(t, start, []) == {} && !EspnOut(t, start, [])
    ensures forall veto :: Counted(t, start, [], veto) == {}
  {
  }

  /** The i-th recovery is that of a turn, with i recovering turns before it. */
  ghost predicate RecoveredIn(t: Reader, start: map<string, Profile>, turns: seq<Turn>, r: Recovery, i: nat) {
    exists k: nat :: k < |turns| && IsRecoveryOf(t, start, turns, k, r) && |Recovering(t, start, turns[..k])| == i
  }

  lemma CountedMore(t: Reader, start: map<string, Profile>, turns: seq<Turn>, veto: Veto)
    requires turns != []
    ensures var n := |turns| - 1;
            |Counted(t, start, turns, veto)| == |Counted(t, start, turns[..n], veto)| + if Counts(t, start, turns, n, veto) then 1 else 0
  {
    hide Counts, Recovers, IsRecoveryOf;
    var n := |turns| - 1;
    var earlier, more := Counted(t, start, turns[..n], veto), Counted(t, start, turns, veto);
    forall k: nat | k < n ensures Counts(t, start, turns[..n], k, veto) == Counts(t, start, turns, k, veto) {
      EarlierCount(t, start, turns, n, k);
    }
    assert more == earlier + if Counts(t, start, turns, n, veto) then {n} else {};
    assert n !in earlier;
  }

  lemma RecoveringMore(t: Reader, start: map<string, Profile>, turns: seq<Turn>)
    requires turns != []
    ensures var n := |turns| - 1;
            |Recovering(t, start, turns)| == |Recovering(t, start, turns[..n])| + if Recovers(t, start, turns, n) then 1 else 0
  {
    hide Counts, Recovers, IsRecoveryOf;
    var n := |turns| - 1;
    var earlier, more := Recovering(t, start, turns[..n]), Recovering(t, start, turns);
    forall k: nat | k < n ensures Recovers(t, start, turns[..n], k) == Recovers(t, start, turns, k) {
      EarlierCount(t, start, turns, n, k);
    }
    assert more == earlier + if Recovers(t, start, turns, n) then {n} else {};
    assert n !in earlier;
  }

  /** What was recovered earlier is recovered still, and a recovering last turn adds its own. */
  lemma RecoveredMore(t: Reader, start: map<string, Profile>, turns: seq<Turn>)
    requires turns != []
    ensures var n := |turns| - 1;
            && (forall r, i | RecoveredIn(t, start, turns[..n], r, i) :: RecoveredIn(t, start, turns, r, i))
            && (forall r | IsRecoveryOf(t, start, turns, n, r) :: RecoveredIn(t, start, turns, r, |Recovering(t, start, turns[..n])|))
  {
    hide IsRecoveryOf, Recovering, Counts, Recovers;
    var n := |turns| - 1;
    forall r, i | RecoveredIn(t, start, turns[..n], r, i) ensures RecoveredIn(t, start, turns, r, i) {
      var k: nat :| k < n && IsRecoveryOf(t, start, turns[..n], k, r) && |Recovering(t, start, turns[..n][..k])| == i;
      EarlierCount(t, start, turns, n, k);
      assert turns[..n][..k] == turns[..k];
    }
  }

  lemma OutageMore(t: Reader, start: map<string, Profile>, turns: seq<Turn>)
    requires turns != []
    ensures var n := |turns| - 1;
            EspnOut(t, start, turns)
            <==> EspnOut(t, start, turns[..n]) || (Asked(t, start, turns, n) && turns[n].source == "espn" && turns[n].answer == SourceFailure(true))
  {
    hide Over, Has, RecoverableFields, ProfileOf, Before;
    var n := |turns| - 1;
    forall k: nat | k < n ensures Asked(t, start, turns[..n], k) == Asked(t, start, turns, k) && turns[..n][k] == turns[k] {
      EarlierTurns(t, start, turns, n, k);
    }
    if EspnOut(t, start, turns) {
      var k: nat :| Asked(t, start, turns, k) && turns[k].source == "espn" && turns[k].answer == SourceFailure(true);
      if k < n { assert Asked(t, start, turns[..n], k); }
    }
    if EspnOut(t, start, turns[..n]) {
      var k: nat :| Asked(t, start, turns[..n], k) && turns[..n][k].source == "espn" && turns[..n][k].answer == SourceFailure(true);
      assert Asked(t, start, turns, k);
    }
  }

  /** One failure anywhere in the run vetoes publication of all of it: the counts never go down. */
  lemma {:induction false} FailuresAreRemembered(t: Reader, run: Run, keys: seq<string>, sources: seq<string>, ask: (nat, string) -> Answer, m: nat, n: nat)
    requires m <= n <= |keys|
    ensures var before, after := AskAll(t, run, keys, sources, ask, m), AskAll(t, run, keys, sources, ask, n);
            before.processing <= after.processing && before.failures <= after.failures && before.rejections <= after.rejections
  {
    if m < n {
      FailuresAreRemembered(t, run, keys, sources, ask, m, n - 1);
      CountsGrow(t, AskAll(t, run, keys, sources, ask, n - 1), keys[n - 1], sources, s => ask(n - 1, s), |sources|);
    }
  }

  lemma {:induction false} CountsGrow(t: Reader, run: Run, key: string, sources: seq<string>, ask: string -> Answer, n: nat)
    requires n <= |sources|
    ensures var after := AskSources(t, run, key, sources, ask, n);
            run.processing <= after.processing && run.failures <= after.failures && run.rejections <= after.rejections
  {
    hide HasGap, OutcomeOf;
    if n > 0 { CountsGrow(t, run, key, sources, ask, n - 1); }
  }
}
