/** Progress records, and the pure validations that every progress store applies to them. */
module ProgressModel {
  import opened Prelude

  type Id = string
  type Instant = int

  const MAX_TRACKS: nat := 256

  /** The exception classes that decide whether a caller retries. */
  datatype Error = OsError | ValueError | RuntimeError

  /** The content-addressed key of one snapshot. */
  datatype Key = Key(run: Id, digest: string)

  datatype Ref = Ref(bucket: string, key: Key, sha256: string, bytes: nat)

  datatype Status = Pending | Running | Waiting | Blocked | Completed | Failed | Cancelled {
    predicate Terminal() {
      Completed? || Failed? || Cancelled?
    }
  }

  datatype Input = Input(revision: string, contract: string)

  datatype Track = Track(
    key: Id, plan: Id, status: Status, labelText: Option<string>, completed: Option<nat>,
    total: Option<nat>, unit: Option<string>, sourceUpdatedAt: Option<Instant>)

  /** Tracks have unique keys and are kept sorted by key, so a map holds the same information. */
  datatype Snapshot = Snapshot(
    run: Id, attempt: Id, job: Option<string>, sequence: nat, updatedAt: Instant,
    input: Input, state: Status, tracks: map<Id, Track>, previous: Option<Ref>)

  datatype Claim = Claim(run: Id, attempt: Id, sequence: nat, createdAt: Instant, snapshot: Ref)

  datatype Pointer = Pointer(run: Id, sequence: nat, updatedAt: Instant, snapshot: Ref)

  datatype Stored = Stored(snapshot: Snapshot, reference: Ref)

  /** The key of one attempt's claim on one sequence; ClaimKeys shows the strings to be faithful. */
  datatype ClaimKey = ClaimKey(run: Id, sequence: nat, attempt: Id)

  datatype Store = Store(objects: map<Key, Snapshot>, claims: map<ClaimKey, Claim>, pointers: map<Id, Pointer>)

  const EMPTY_STORE := Store(map[], map[], map[])

  /** What a store fixes: its bucket, and the digest and length of a snapshot's stable JSON. */
  datatype Env = Env(bucket: string, sha: Snapshot -> string, size: Snapshot -> nat)

  ghost predicate CollisionFree(env: Env) {
    forall s, t :: env.sha(s) == env.sha(t) ==> s == t
  }

  predicate WellFormed(s: Snapshot) {
    1 <= s.sequence <= MAX_SAFE_INTEGER && 1 <= |s.tracks| <= MAX_TRACKS
  }

  function KeyOf(env: Env, s: Snapshot): Key {
    Key(s.run, env.sha(s))
  }

  function RefOf(env: Env, s: Snapshot): Ref {
    Ref(env.bucket, KeyOf(env, s), env.sha(s), env.size(s))
  }

  function StoredOf(env: Env, s: Snapshot): Stored {
    Stored(s, RefOf(env, s))
  }

  function ClaimFor(env: Env, s: Snapshot): Claim {
    Claim(s.run, s.attempt, s.sequence, s.updatedAt, RefOf(env, s))
  }

  function ClaimKeyFor(s: Snapshot): ClaimKey {
    ClaimKey(s.run, s.sequence, s.attempt)
  }

  function PointerTo(o: Stored): Pointer {
    Pointer(o.snapshot.run, o.snapshot.sequence, o.snapshot.updatedAt, o.reference)
  }

  function LoadReference(env: Env, objects: map<Key, Snapshot>, ref: Ref): Result<Snapshot, Error> {
    if ref.bucket != env.bucket then Err(ValueError)
    else if ref.key !in objects then Err(OsError)
    else if env.size(objects[ref.key]) != ref.bytes || env.sha(objects[ref.key]) != ref.sha256 then Err(ValueError)
    else Ok(objects[ref.key])
  }

  function ClaimsAt(claims: map<ClaimKey, Claim>, run: Id, sequence: nat): set<ClaimKey> {
    set k | k in claims && k.run == run && k.sequence == sequence
  }

  /** Listing the claims of a sequence first checks that the sequence can be written in a key. */
  predicate Listable(sequence: nat) {
    1 <= sequence <= MAX_SAFE_INTEGER
  }

  /** The one claim among those listed; the caller may also insist on a particular claim. */
  function RequireSingleClaim(claims: map<ClaimKey, Claim>, listed: set<ClaimKey>, expected: Option<Claim>)
    : Result<Claim, Error>
    requires listed <= claims.Keys
  {
    if listed == {} then Err(ValueError)
    else if |listed| > 1 then Err(RuntimeError)
    else
      assert forall x, y | x in listed && y in listed :: x == y by {
        forall x, y | x in listed && y in listed ensures x == y { SingletonIsUnique(listed, x, y); }
      }
      var k :| k in listed;
      if expected.Some? && claims[k] != expected.value then Err(RuntimeError) else Ok(claims[k])
  }

  predicate PointerMatches(pointer: Pointer, run: Id, s: Snapshot) {
    && pointer.run == run
    && s.run == pointer.run
    && s.sequence == pointer.sequence
    && s.updatedAt == pointer.updatedAt
  }

  predicate ClaimMatches(claim: Claim, o: Stored) {
    && claim.run == o.snapshot.run
    && claim.attempt == o.snapshot.attempt
    && claim.sequence == o.snapshot.sequence
    && claim.createdAt == o.snapshot.updatedAt
    && claim.snapshot == o.reference
  }

  /** A snapshot may be published on top of `latest` only as its direct successor. */
  predicate Follows(s: Snapshot, latest: Option<Stored>) {
    match latest
    case None => s.sequence == 1 && s.previous.None?
    case Some(l) => s.sequence == l.snapshot.sequence + 1 && s.previous == Some(l.reference)
  }

  function NextSequence(current: Option<Stored>): nat {
    if current.None? then 1 else current.value.snapshot.sequence + 1
  }

  /** A listing has a single claim exactly when one key stands alone at that sequence. */
  lemma SingleClaimIff(claims: map<ClaimKey, Claim>, run: Id, sequence: nat, k: ClaimKey)
    requires k in ClaimsAt(claims, run, sequence)
    ensures RequireSingleClaim(claims, ClaimsAt(claims, run, sequence), None) == Ok(claims[k])
            || RequireSingleClaim(claims, ClaimsAt(claims, run, sequence), None) == Err(RuntimeError)
    ensures RequireSingleClaim(claims, ClaimsAt(claims, run, sequence), None).Ok?
            <==> ClaimsAt(claims, run, sequence) == {k}
  {
    var listed := ClaimsAt(claims, run, sequence);
    if |listed| == 1 {
      forall x | x in listed ensures x == k { SingletonIsUnique(listed, x, k); }
    }
  }
}
