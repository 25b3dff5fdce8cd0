/** The entities of the production bundle store: releases, lookup directories and the pointer file. */
module StoreTypes {
  import opened Common

  /** The two lookup CSVs, as their digests and sizes pin them. */
  datatype Identity = Identity(fights: Bytes, features: Bytes)

  /** runtime_manifest.json: the bundle and model identity it claims, and the CSV pair it pins. */
  datatype Manifest = Manifest(models: Bytes, pinned: Identity, rest: Bytes)

  /** An installed release: its source manifest, its models, its processed seed and all other files. */
  datatype Content = Content(source: Bytes, models: Bytes, seed: Identity, rest: Bytes)

  /** A directory under releases/: the files, and the inventory in the install receipt once written. */
  datatype Release = Release(content: Content, receipt: Option<Content>)

  /** A directory under lookups/. */
  datatype Dir = Dir(fights: Option<Bytes>, features: Option<Bytes>, manifest: Option<Manifest>)

  const EMPTY_DIR := Dir(None, None, None)

  /** What a rollback snapshot pins: the CSV pair and, if it was bound to one, the runtime manifest. */
  datatype Capture = Capture(identity: Identity, manifest: Option<Manifest>)

  /** `a-<release>-<uuid>`, `s-<release>-<digest prefix>` and `.…-incoming-…` directory names. */
  datatype LookupName = Generation(rid: nat, nonce: nat) | Snapshot(rid: nat, digest: nat) | Incoming(tag: nat)

  /** The truncated digests that name releases and snapshots. Nothing is assumed about them. */
  datatype Names = Names(release: Bytes -> nat, snapshot: (nat, Capture) -> nat)

  datatype ReleaseRef = ReleaseRef(rid: nat, content: Content)
  datatype ActiveRecord = ActiveRecord(release: ReleaseRef, lookup: LookupName)
  datatype RollbackRecord = RollbackRecord(release: ReleaseRef, lookup: LookupName, capture: Capture)

  /** What a pointer value came from. The file calls an ordinary promotion and the paused handover both
      "promote"; they are kept apart here, since only the first retains the outgoing release. */
  datatype Cause = Initialized | Promoted | HandedOver | RolledBack

  /** active_bundle.json. */
  datatype Pointer = Pointer(updatedAt: nat, action: Cause, active: ActiveRecord, rollback: Option<RollbackRecord>)

  function PairDir(identity: Identity): Dir {
    Dir(Some(identity.fights), Some(identity.features), None)
  }

  function CaptureDir(c: Capture): Dir {
    Dir(Some(c.identity.fights), Some(c.identity.features), c.manifest)
  }

  predicate HasPair(d: Dir) {
    d.fights.Some? && d.features.Some?
  }

  function PairOf(d: Dir): Identity
    requires HasPair(d)
  {
    Identity(d.fights.value, d.features.value)
  }

  /** A pair is coherent when its runtime manifest belongs to the release and pins it, or when there is
      no runtime manifest and it is exactly the release seed. */
  predicate Coherent(content: Content, c: Capture) {
    match c.manifest
    case None => c.identity == content.seed
    case Some(m) => m.models == content.models && m.pinned == c.identity
  }

  /** The directory contents from which an undisturbed snapshot can be taken. */
  predicate Capturable(content: Content, d: Dir) {
    HasPair(d) && Coherent(content, Capture(PairOf(d), d.manifest))
  }

  predicate Matches(expected: Option<Identity>, identity: Identity) {
    expected == None || expected == Some(identity)
  }

  /** `_record_for_release`: the directory exists, is what its receipt inventories, and is named after
      its source manifest. */
  predicate ReleaseReadable(n: Names, releases: map<nat, Release>, ref: ReleaseRef) {
    && ref.rid in releases
    && releases[ref.rid] == Release(ref.content, Some(ref.content))
    && n.release(ref.content.source) == ref.rid
  }

  /** `_validate_record` for the rollback role: exactly the pinned files, still coherent. */
  predicate RollbackReadable(n: Names, releases: map<nat, Release>, lookups: map<LookupName, Dir>, r: RollbackRecord) {
    && ReleaseReadable(n, releases, r.release)
    && r.lookup in lookups
    && lookups[r.lookup] == CaptureDir(r.capture)
    && Coherent(r.release.content, r.capture)
  }

  predicate ActiveReadable(n: Names, releases: map<nat, Release>, lookups: map<LookupName, Dir>, a: ActiveRecord) {
    && ReleaseReadable(n, releases, a.release)
    && a.lookup in lookups
    && HasPair(lookups[a.lookup])
  }

  /** `_read_validated_state` accepts the pointer. */
  predicate Readable(n: Names, releases: map<nat, Release>, lookups: map<LookupName, Dir>, ptr: Pointer) {
    && ActiveReadable(n, releases, lookups, ptr.active)
    && (ptr.rollback.Some? ==>
      && RollbackReadable(n, releases, lookups, ptr.rollback.value)
      && ptr.rollback.value.release.rid != ptr.active.release.rid)
  }
}
