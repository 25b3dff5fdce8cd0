/** `_publish_rollback_snapshot`'s three-attempt copy of a lookup directory that a runtime process may be
    rewriting, one file at a time, while it is being read. */
module SnapshotCapture {
  import opened Common
  import opened StoreTypes

  const ATTEMPTS: nat := 3
  const READS: nat := 9

  /** What one attempt reads: the pair and manifest before, the copies, the pair and manifest after. */
  datatype Sample = Sample(before: Identity, manifestBefore: Option<Manifest>,
                           copied: Identity, manifestCopied: Option<Manifest>,
                           after: Identity, manifestAfter: Option<Manifest>)

  datatype Verdict = Take(capture: Capture) | Retry | Raise

  predicate Foreign(content: Content, m: Option<Manifest>) {
    m.Some? && m.value.models != content.models
  }

  function Judge(content: Content, expected: Option<Identity>, s: Sample): Verdict {
    if Foreign(content, s.manifestBefore) || Foreign(content, s.manifestCopied) || Foreign(content, s.manifestAfter)
       || (s.manifestBefore.Some? && s.manifestCopied.None?) then Raise
    else if s.manifestBefore.None? then
      if s.manifestCopied.None? && s.manifestAfter.None? && s.before == s.copied == s.after == content.seed
         && Matches(expected, s.copied)
      then Take(Capture(s.copied, None)) else Retry
    else if s.before == s.copied == s.after && s.manifestBefore == s.manifestCopied == s.manifestAfter
            && s.manifestBefore.value.pinned == s.copied && Matches(expected, s.copied)
    then Take(Capture(s.copied, s.manifestCopied)) else Retry
  }

  /** The contents of the source directory at each moment: the writer may change it between any two reads. */
  type Schedule = nat -> Dir

  /** The nine reads of one attempt, in the order the code makes them. None: a CSV is missing, which raises. */
  function SampleAt(source: Schedule, t: nat): Option<Sample> {
    if source(t).fights.Some? && source(t + 1).features.Some? && source(t + 3).fights.Some?
       && source(t + 4).features.Some? && source(t + 6).fights.Some? && source(t + 7).features.Some?
    then
      Some(Sample(Identity(source(t).fights.value, source(t + 1).features.value), source(t + 2).manifest,
                  Identity(source(t + 3).fights.value, source(t + 4).features.value),
                  if source(t + 2).manifest.Some? then source(t + 5).manifest else None,
                  Identity(source(t + 6).fights.value, source(t + 7).features.value), source(t + 8).manifest))
    else None
  }

  function AttemptAt(content: Content, expected: Option<Identity>, source: Schedule, t: nat): Verdict {
    match SampleAt(source, t)
    case None => Raise
    case Some(s) => Judge(content, expected, s)
  }

  /** Attempt k is the first that does not call for another, and it takes c. */
  predicate TakenBy(content: Content, expected: Option<Identity>, source: Schedule, start: nat, k: nat, c: Capture) {
    && AttemptAt(content, expected, source, start + READS * k) == Take(c)
    && forall j: nat | j < k :: AttemptAt(content, expected, source, start + READS * j) == Retry
  }

  /** One attempt, read by read. */
  method Attempt(content: Content, expected: Option<Identity>, source: Schedule, start: nat) returns (v: Verdict)
    ensures v == AttemptAt(content, expected, source, start)
  {
    var clock := start;
    if source(clock).fights.None? || source(clock + 1).features.None? { return Raise; }
    var before := Identity(source(clock).fights.value, source(clock + 1).features.value);
    clock := clock + 2;
    var manifestBefore := source(clock).manifest;
    if Foreign(content, manifestBefore) { return Raise; }
    clock := clock + 1;
    if source(clock).fights.None? || source(clock + 1).features.None? { return Raise; }
    var copied := Identity(source(clock).fights.value, source(clock + 1).features.value);
    clock := clock + 2;
    var manifestCopied := None;
    if manifestBefore.Some? {
      manifestCopied := source(clock).manifest;
      if manifestCopied.None? || Foreign(content, manifestCopied) { return Raise; }
    }
    clock := clock + 1;
    if source(clock).fights.None? || source(clock + 1).features.None? { return Raise; }
    var after := Identity(source(clock).fights.value, source(clock + 1).features.value);
    clock := clock + 2;
    var manifestAfter := source(clock).manifest;
    if Foreign(content, manifestAfter) { return Raise; }
    if manifestBefore.None? {
      if manifestAfter.None? && before == copied == after == content.seed && Matches(expected, copied) {
        return Take(Capture(copied, None));
      }
      return Retry;
    }
    if before == copied == after && manifestBefore == manifestCopied == manifestAfter
       && manifestBefore.value.pinned == copied && Matches(expected, copied) {
      return Take(Capture(copied, manifestCopied));
    }
    return Retry;
  }

  method CaptureLookup(content: Content, expected: Option<Identity>, source: Schedule, start: nat)
    returns (taken: Option<Capture>)
    ensures taken.Some? <==> exists k: nat, c :: k < ATTEMPTS && TakenBy(content, expected, source, start, k, c)
    ensures taken.Some? ==> exists k: nat :: k < ATTEMPTS && TakenBy(content, expected, source, start, k, taken.value)
  {
    hide AttemptAt;
    for attempt := 0 to ATTEMPTS
      invariant forall j: nat | j < attempt :: AttemptAt(content, expected, source, start + READS * j) == Retry
    {
      var v := Attempt(content, expected, source, start + READS * attempt);
      if v.Take? {
        assert TakenBy(content, expected, source, start, attempt, v.capture);
        return Some(v.capture);
      }
      if v.Raise? {
        assert AttemptAt(content, expected, source, start + READS * attempt) == Raise;
        return None;
      }
    }
    taken := None;
  }

  /** A capture is never torn. Whatever the writer does between reads, the copied pair is the release seed
      with no runtime manifest around it, or the pair pinned by one manifest of this release that was
      there before, during and after the copy. */
  lemma TakenIsCoherent(content: Content, expected: Option<Identity>, source: Schedule, t: nat, c: Capture)
    requires AttemptAt(content, expected, source, t) == Take(c)
    ensures Coherent(content, c) && Matches(expected, c.identity)
    ensures source(t).fights == source(t + 3).fights == source(t + 6).fights == Some(c.identity.fights)
    ensures source(t + 1).features == source(t + 4).features == source(t + 7).features == Some(c.identity.features)
    ensures source(t + 2).manifest == source(t + 8).manifest == c.manifest
    ensures c.manifest.Some? ==> source(t + 5).manifest == c.manifest
  {
  }

  /** Whether the directory holds a manifest of another release at that moment. */
  predicate OtherRelease(content: Content, source: Schedule, t: nat) {
    source(t).manifest.Some? && source(t).manifest.value.models != content.models
  }

  /** Exactly what an attempt takes, read by read, and exactly when it gives up for good: a CSV is missing when it is
      read, a manifest it reads is of another release, or the one it began with is gone when the copy is made. */
  lemma AttemptExactly(content: Content, expected: Option<Identity>, source: Schedule, t: nat)
    ensures forall c ::
              AttemptAt(content, expected, source, t) == Take(c)
              <==> && source(t).fights == source(t + 3).fights == source(t + 6).fights == Some(c.identity.fights)
                   && source(t + 1).features == source(t + 4).features == source(t + 7).features == Some(c.identity.features)
                   && source(t + 2).manifest == source(t + 8).manifest == c.manifest
                   && (if c.manifest.None? then c.identity == content.seed
                       else source(t + 5).manifest == c.manifest && c.manifest.value.models == content.models && c.manifest.value.pinned == c.identity)
                   && (expected.Some? ==> c.identity == expected.value)
    ensures AttemptAt(content, expected, source, t).Raise?
            <==> || source(t).fights.None? || source(t + 3).fights.None? || source(t + 6).fights.None?
                 || source(t + 1).features.None? || source(t + 4).features.None? || source(t + 7).features.None?
                 || OtherRelease(content, source, t + 2) || OtherRelease(content, source, t + 8)
                 || (source(t + 2).manifest.Some? && (source(t + 5).manifest.None? || OtherRelease(content, source, t + 5)))
  {
  }

  // ---- against a runtime that rewrites the directory file by file ----

  /** A runtime process that starts from the pair the lookup was activated with and publishes generation after
      generation, each as three single file writes: the two CSVs in either order, then the manifest that pins
      them. */
  datatype Writer = Writer(first: Identity, pairs: nat -> Identity, manifests: nat -> Manifest, featuresFirst: nat -> bool)

  /** The directory after so many of its writes. */
  function After(w: Writer, writes: nat): Dir {
    if writes == 0 then PairDir(w.first) else
      var d, g, turn := After(w, writes - 1), (writes - 1) / 3, (writes - 1) % 3;
      if turn == 2 then d.(manifest := Some(w.manifests(g)))
      else if (turn == 1) == w.featuresFirst(g) then d.(fights := Some(w.pairs(g).fights))
      else d.(features := Some(w.pairs(g).features))
  }

  /** What a reader finds when the writer has made pace(t) writes by moment t. */
  function Watched(w: Writer, pace: nat -> nat): Schedule {
    (t: nat) => After(w, pace(t))
  }

  ghost predicate Pinning(w: Writer) {
    forall g: nat :: w.manifests(g).pinned == w.pairs(g)
  }

  /** No two generations write the same manifest: each carries its own update time. */
  ghost predicate Dated(w: Writer) {
    forall g: nat, h: nat :: w.manifests(g) == w.manifests(h) ==> g == h
  }

  ghost predicate Onward(pace: nat -> nat) {
    forall t: nat, u: nat :: t <= u ==> pace(t) <= pace(u)
  }

  /** What generation g starts from: the first pair, or the generation before it. */
  function Base(w: Writer, g: nat): Capture {
    if g == 0 then Capture(w.first, None) else Capture(w.pairs(g - 1), Some(w.manifests(g - 1)))
  }

  /** The whole generation before, with the files of the one under way that are already written. */
  lemma {:induction false} AfterIs(w: Writer, writes: nat)
    ensures var g, turn, d := writes / 3, writes % 3, After(w, writes);
            && HasPair(d) && d.manifest == Base(w, g).manifest
            && d.fights.value == (if turn == 2 || (turn == 1 && !w.featuresFirst(g)) then w.pairs(g) else Base(w, g).identity).fights
            && d.features.value == (if turn == 2 || (turn == 1 && w.featuresFirst(g)) then w.pairs(g) else Base(w, g).identity).features
  {
    if writes > 0 { AfterIs(w, writes - 1); }
  }

  /** What the manifest says of a taken pair. */
  lemma ManifestHeld(content: Content, expected: Option<Identity>, source: Schedule, t: nat, c: Capture)
    requires AttemptAt(content, expected, source, t) == Take(c)
    ensures source(t + 2).manifest == source(t + 8).manifest == c.manifest
    ensures c.identity == if c.manifest.None? then content.seed else c.manifest.value.pinned
  {
    hide AttemptAt, Matches;
    TakenIsCoherent(content, expected, source, t, c);
  }

  lemma AttemptNotTorn(content: Content, expected: Option<Identity>, w: Writer, pace: nat -> nat, t: nat, c: Capture)
    requires Pinning(w) && AttemptAt(content, expected, Watched(w, pace), t) == Take(c)
    ensures var g := pace(t + 2) / 3; c == if g == 0 then Capture(content.seed, None) else Base(w, g)
  {
    hide AttemptAt, Matches, After;
    ManifestHeld(content, expected, Watched(w, pace), t, c);
    AfterIs(w, pace(t + 2));
  }

  /** A capture is never torn: it is the last generation that was complete when the manifest was first read, or
      the release seed if none was. */
  lemma NeverTorn(content: Content, expected: Option<Identity>, w: Writer, pace: nat -> nat, start: nat, k: nat, c: Capture)
    requires Pinning(w) && TakenBy(content, expected, Watched(w, pace), start, k, c)
    ensures var g := pace(start + READS * k + 2) / 3; c == if g == 0 then Capture(content.seed, None) else Base(w, g)
  {
    hide AttemptAt, Base, Pinning;
    AttemptNotTorn(content, expected, w, pace, start + READS * k, c);
  }

  /** The manifest is back at the end of the attempt, so no generation was completed meanwhile. */
  lemma SameGeneration(content: Content, expected: Option<Identity>, w: Writer, pace: nat -> nat, t: nat, c: Capture)
    requires Dated(w) && AttemptAt(content, expected, Watched(w, pace), t) == Take(c)
    ensures pace(t + 2) / 3 == pace(t + 8) / 3
  {
    hide AttemptAt, Matches, After, Dated;
    ManifestHeld(content, expected, Watched(w, pace), t, c);
    AfterIs(w, pace(t + 2));
    AfterIs(w, pace(t + 8));
    OneManifest(w, pace(t + 2) / 3, pace(t + 8) / 3);
  }

  lemma OneManifest(w: Writer, g: nat, h: nat)
    requires Dated(w) && Base(w, g).manifest == Base(w, h).manifest
    ensures g == h
  {
  }

  lemma WrittenStays(w: Writer, a: nat, b: nat)
    requires a <= b && a / 3 == b / 3
    ensures After(w, a).fights == After(w, b).fights || After(w, a).fights == Some(Base(w, a / 3).identity.fights)
    ensures After(w, a).features == After(w, b).features || After(w, a).features == Some(Base(w, a / 3).identity.features)
  {
    AfterIs(w, a);
    AfterIs(w, b);
  }

  lemma WholeAt(w: Writer, a: nat, b: nat, e: nat, z: nat)
    requires a <= b <= z && a <= e <= z && a / 3 == z / 3
    requires var pair := Base(w, a / 3).identity;
             After(w, b).fights == Some(pair.fights) && After(w, e).features == Some(pair.features)
    ensures After(w, a) == CaptureDir(Base(w, a / 3))
  {
    hide After;
    WrittenStays(w, a, b);
    WrittenStays(w, a, e);
    AfterIs(w, a);
  }

  /** Within a generation a file changes once at most. */
  lemma HeldBetween(w: Writer, a: nat, m: nat, b: nat)
    requires a <= m <= b && a / 3 == b / 3
    ensures After(w, m).fights == After(w, a).fights || After(w, m).fights == After(w, b).fights
    ensures After(w, m).features == After(w, a).features || After(w, m).features == After(w, b).features
  {
    hide After;
    AfterIs(w, a);
    AfterIs(w, m);
    AfterIs(w, b);
  }

  /** Before any generation is complete the reads before and during the copy enclose the first of the manifest. */
  lemma SeedAtOneMoment(w: Writer, pace: nat -> nat, t: nat, pair: Identity)
    requires Onward(pace) && pace(t + 4) < 3
    requires After(w, pace(t)).fights == After(w, pace(t + 3)).fights == Some(pair.fights)
    requires After(w, pace(t + 1)).features == After(w, pace(t + 4)).features == Some(pair.features)
    ensures After(w, pace(t + 2)) == PairDir(pair)
  {
    hide After, Onward;
    Later(pace, t, t + 2);
    Later(pace, t + 1, t + 2);
    Later(pace, t + 2, t + 3);
    Later(pace, t + 3, t + 4);
    HeldBetween(w, pace(t), pace(t + 2), pace(t + 3));
    HeldBetween(w, pace(t + 1), pace(t + 2), pace(t + 4));
    AfterIs(w, pace(t + 2));
  }

  /** In one later generation the reads of the manifest enclose those of the copy. */
  lemma GenerationAtOneMoment(w: Writer, pace: nat -> nat, t: nat)
    requires Onward(pace) && pace(t + 2) / 3 == pace(t + 8) / 3
    requires var pair := Base(w, pace(t + 2) / 3).identity;
             After(w, pace(t + 3)).fights == Some(pair.fights) && After(w, pace(t + 4)).features == Some(pair.features)
    ensures After(w, pace(t + 2)) == CaptureDir(Base(w, pace(t + 2) / 3))
  {
    hide After, Onward, Base;
    Later(pace, t + 2, t + 3);
    Later(pace, t + 2, t + 4);
    Later(pace, t + 3, t + 8);
    Later(pace, t + 4, t + 8);
    WholeAt(w, pace(t + 2), pace(t + 3), pace(t + 4), pace(t + 8));
  }

  lemma TakenReads(content: Content, expected: Option<Identity>, w: Writer, pace: nat -> nat, t: nat, c: Capture)
    requires AttemptAt(content, expected, Watched(w, pace), t) == Take(c)
    ensures After(w, pace(t)).fights == After(w, pace(t + 3)).fights == Some(c.identity.fights)
    ensures After(w, pace(t + 1)).features == After(w, pace(t + 4)).features == Some(c.identity.features)
  {
    hide AttemptAt, Matches, Coherent, After;
    TakenIsCoherent(content, expected, Watched(w, pace), t, c);
  }

  lemma AttemptAtOneMoment(content: Content, expected: Option<Identity>, w: Writer, pace: nat -> nat, t: nat, c: Capture)
    requires Pinning(w) && Dated(w) && Onward(pace)
    requires AttemptAt(content, expected, Watched(w, pace), t) == Take(c)
    ensures After(w, pace(t + 2)) == CaptureDir(c)
  {
    hide AttemptAt, Watched, After, Onward, Pinning, Dated, Base;
    AttemptNotTorn(content, expected, w, pace, t, c);
    SameGeneration(content, expected, w, pace, t, c);
    TakenReads(content, expected, w, pace, t, c);
    if pace(t + 2) / 3 == 0 {
      Later(pace, t + 4, t + 8);
      SeedAtOneMoment(w, pace, t, c.identity);
    } else {
      GenerationAtOneMoment(w, pace, t);
    }
  }

  /** And it is one moment's directory: although the nine reads are spread out and the writer never waits, the
      directory as a whole held exactly the captured files when the manifest was first read. */
  lemma CapturedAtOneMoment(content: Content, expected: Option<Identity>, w: Writer, pace: nat -> nat, start: nat, k: nat, c: Capture)
    requires Pinning(w) && Dated(w) && Onward(pace)
    requires TakenBy(content, expected, Watched(w, pace), start, k, c)
    ensures After(w, pace(start + READS * k + 2)) == CaptureDir(c)
  {
    hide AttemptAt, After, Onward, Pinning, Dated;
    AttemptAtOneMoment(content, expected, w, pace, start + READS * k, c);
  }

  lemma Later(pace: nat -> nat, t: nat, u: nat)
    requires Onward(pace) && t <= u
    ensures pace(t) <= pace(u)
  {
  }

  lemma Resting(w: Writer, pace: nat -> nat, t: nat, writes: nat)
    requires Onward(pace) && pace(t) == pace(t + 8) == writes
    ensures forall u: nat | t <= u < t + READS :: Watched(w, pace)(u) == After(w, writes)
  {
    hide After;
  }

  lemma RestingDir(content: Content, w: Writer, g: nat)
    requires Pinning(w) && if g == 0 then w.first == content.seed else w.manifests(g - 1).models == content.models
    ensures After(w, 3 * g) == CaptureDir(Base(w, g)) && Coherent(content, Base(w, g))
  {
    hide After;
    AfterIs(w, 3 * g);
  }

  /** An attempt made while the writer rests between two generations of this release takes the one it finds. */
  lemma RestIsCaptured(content: Content, expected: Option<Identity>, w: Writer, pace: nat -> nat, t: nat, g: nat)
    requires Pinning(w) && Onward(pace) && pace(t) == pace(t + 8) == 3 * g
    requires if g == 0 then w.first == content.seed else w.manifests(g - 1).models == content.models
    requires Matches(expected, Base(w, g).identity)
    ensures AttemptAt(content, expected, Watched(w, pace), t) == Take(Base(w, g))
  {
    hide AttemptAt, Matches, After, Onward, Coherent, Pinning;
    Resting(w, pace, t, 3 * g);
    RestingDir(content, w, g);
    QuietAttempt(content, expected, Watched(w, pace), t, CaptureDir(Base(w, g)));
  }

  /** With no writer at work, the capture succeeds exactly on a capturable directory of the expected pair,
      on the first attempt, and is that directory. */
  lemma QuietCapture(content: Content, expected: Option<Identity>, source: Schedule, start: nat, d: Dir)
    requires forall t: nat :: source(t) == d
    ensures Capturable(content, d) && Matches(expected, PairOf(d)) <==>
            exists k: nat, c :: k < ATTEMPTS && TakenBy(content, expected, source, start, k, c)
    ensures forall k: nat, c :: TakenBy(content, expected, source, start, k, c) ==> k == 0 && CaptureDir(c) == d
  {
    forall k: nat, c | TakenBy(content, expected, source, start, k, c)
      ensures k == 0 && CaptureDir(c) == d && Capturable(content, d) && Matches(expected, PairOf(d))
    {
      QuietAttempt(content, expected, source, start + READS * k, d);
      QuietAttempt(content, expected, source, start + READS * 0, d);
    }
    if Capturable(content, d) && Matches(expected, PairOf(d)) {
      QuietAttempt(content, expected, source, start, d);
      assert TakenBy(content, expected, source, start, 0, Capture(PairOf(d), d.manifest));
    }
  }

  lemma QuietAttempt(content: Content, expected: Option<Identity>, source: Schedule, t: nat, d: Dir)
    requires forall u: nat | t <= u < t + READS :: source(u) == d
    ensures AttemptAt(content, expected, source, t).Take? <==> Capturable(content, d) && Matches(expected, PairOf(d))
    ensures AttemptAt(content, expected, source, t).Take? ==>
              AttemptAt(content, expected, source, t).capture == Capture(PairOf(d), d.manifest)
  {
  }
}
