/**
 Reconciling the mutable pointer with the immutable claims, and why the pointer never matters.
 */
module ProgressReconcile {
  import opened Prelude
  import opened ProgressModel
  import opened ProgressAgreement
  import P = ProgressProtocol

  // ---------------------------------------------------------------------------------------------
  // The highest claimed sequence

  ghost function MaxOf(s: set<nat>): nat {
    if s == {} then 0 else
      var x := Pick(s);
      var rest := MaxOf(s - {x});
      if x > rest then x else rest
  }

  ghost function Pick(s: set<nat>): nat
    requires s != {}
  {
    var x :| x in s;
    x
  }

  lemma {:induction false} MaxOfBounds(s: set<nat>)
    ensures forall x :: x in s ==> x <= MaxOf(s)
    ensures s != {} ==> MaxOf(s) in s
  {
    if s != {} {
      MaxOfBounds(s - {Pick(s)});
      assert forall x :: x in s ==> x == Pick(s) || x in s - {Pick(s)};
    }
  }

  ghost function Sequences(claims: map<ClaimKey, Claim>, run: Id): set<nat> {
    set k | k in claims && k.run == run :: k.sequence
  }

  ghost function Highest(claims: map<ClaimKey, Claim>, run: Id): nat {
    MaxOf(Sequences(claims, run))
  }

  lemma HighestBounds(claims: map<ClaimKey, Claim>, run: Id)
    ensures forall k :: k in claims && k.run == run ==> k.sequence <= Highest(claims, run)
    ensures Highest(claims, run) > 0 ==> ClaimsAt(claims, run, Highest(claims, run)) != {}
  {
    MaxOfBounds(Sequences(claims, run));
    forall k | k in claims && k.run == run ensures k.sequence <= Highest(claims, run) {
      assert k.sequence in Sequences(claims, run);
    }
    if Highest(claims, run) > 0 {
      assert Highest(claims, run) in Sequences(claims, run);
      var k :| k in claims && k.run == run && k.sequence == Highest(claims, run);
      assert k in ClaimsAt(claims, run, Highest(claims, run));
    }
  }

  lemma HighestIs(claims: map<ClaimKey, Claim>, run: Id, n: nat)
    requires forall k :: k in claims && k.run == run ==> k.sequence <= n
    requires n == 0 || ClaimsAt(claims, run, n) != {}
    ensures Highest(claims, run) == n
  {
    HighestBounds(claims, run);
    MaxOfBounds(Sequences(claims, run));
    if n > 0 {
      var k :| k in ClaimsAt(claims, run, n);
      assert k.sequence in Sequences(claims, run);
    }
  }

  ghost function Remaining(claims: map<ClaimKey, Claim>, run: Id, next: nat): nat {
    if next <= Highest(claims, run) then Highest(claims, run) + 1 - next else 0
  }

  lemma ListedIsBelowHighest(claims: map<ClaimKey, Claim>, run: Id, n: nat)
    requires ClaimsAt(claims, run, n) != {}
    ensures n <= Highest(claims, run)
  {
    var k :| k in ClaimsAt(claims, run, n);
    HighestBounds(claims, run);
  }

  // ---------------------------------------------------------------------------------------------
  // Reconciliation as a function of the store

  /** What a load returns, and the pointer it leaves behind. */
  datatype Outcome = Outcome(result: Result<Option<Stored>, Error>, pointer: Option<Pointer>)

  /** The child that the claims put after `latest`, when there is exactly one and it checks out. */
  function NextChild(env: Env, store: Store, run: Id, latest: Option<Stored>): Result<Option<Stored>, Error>
  {
    var n := NextSequence(latest);
    if !Listable(n) then Err(ValueError)
    else
      var listed := ClaimsAt(store.claims, run, n);
      if listed == {} then Ok(None)
      else match RequireSingleClaim(store.claims, listed, None)
        case Err(e) => Err(e)
        case Ok(claim) =>
          if claim.run != run then Err(ValueError)
          else match LoadReference(env, store.objects, claim.snapshot)
            case Err(e) => Err(e)
            case Ok(s) =>
              var child := Stored(s, claim.snapshot);
              if s.run == run && ClaimMatches(claim, child) && Follows(s, latest)
                then Ok(Some(child))
                else Err(ValueError)
  }

  /** The only claim of a sequence. */
  ghost predicate OnlyClaim(claims: map<ClaimKey, Claim>, run: Id, n: nat, k: ClaimKey) {
    k in claims && forall j :: j in claims && j.run == run && j.sequence == n <==> j == k
  }

  /** The reference names the snapshot, which lies in this bucket with the length and digest it says. */
  ghost predicate Names(env: Env, store: Store, o: Stored) {
    && o.reference.bucket == env.bucket && o.reference.key in store.objects
    && store.objects[o.reference.key] == o.snapshot
    && env.size(o.snapshot) == o.reference.bytes && env.sha(o.snapshot) == o.reference.sha256
  }

  /** The claim is the one the snapshot's attempt wrote for it. */
  ghost predicate ClaimsIt(c: Claim, o: Stored) {
    c == Claim(o.snapshot.run, o.snapshot.attempt, o.snapshot.sequence, o.snapshot.updatedAt, o.reference)
  }

  lemma OnlyClaimIsListedAlone(claims: map<ClaimKey, Claim>, run: Id, n: nat)
    ensures forall k :: OnlyClaim(claims, run, n, k) <==> ClaimsAt(claims, run, n) == {k}
    ensures RequireSingleClaim(claims, ClaimsAt(claims, run, n), None).Ok? ==>
              exists k :: OnlyClaim(claims, run, n, k)
                          && RequireSingleClaim(claims, ClaimsAt(claims, run, n), None) == Ok(claims[k])
    ensures forall k :: OnlyClaim(claims, run, n, k) ==>
              RequireSingleClaim(claims, ClaimsAt(claims, run, n), None) == Ok(claims[k])
  {
    var listed := ClaimsAt(claims, run, n);
    forall k ensures OnlyClaim(claims, run, n, k) <==> listed == {k} {
      if listed == {k} {
        assert k in listed;
        forall j ensures j in claims && j.run == run && j.sequence == n <==> j == k {
          assert j in listed <==> j in {k};
        }
      }
      if OnlyClaim(claims, run, n, k) { assert forall j :: j in listed <==> j == k; }
    }
    forall k | OnlyClaim(claims, run, n, k) ensures RequireSingleClaim(claims, listed, None) == Ok(claims[k]) {
      assert k in listed;
      SingleClaimIff(claims, run, n, k);
    }
    if RequireSingleClaim(claims, listed, None).Ok? {
      var k :| k in listed;
      SingleClaimIff(claims, run, n, k);
    }
  }

  /** Which child a walk accepts, whatever the store holds. */
  lemma NextChildMeans(env: Env, store: Store, run: Id, latest: Option<Stored>, o: Stored)
    ensures var n := if latest.None? then 1 else latest.value.snapshot.sequence + 1;
            NextChild(env, store, run, latest) == Ok(Some(o)) <==>
              && 1 <= n <= 9007199254740991
              && (exists k :: OnlyClaim(store.claims, run, n, k) && ClaimsIt(store.claims[k], o))
              && Names(env, store, o) && o.snapshot.run == run && o.snapshot.sequence == n
              && o.snapshot.previous == if latest.None? then None else Some(latest.value.reference)
  {
    var n := NextSequence(latest);
    OnlyClaimIsListedAlone(store.claims, run, n);
    hide RequireSingleClaim;
    if exists k :: OnlyClaim(store.claims, run, n, k) {
      var k :| OnlyClaim(store.claims, run, n, k);
      assert k in ClaimsAt(store.claims, run, n);
    }
  }

  /** Why a walk fails: an object that is not there may still come, competing claims stay, anything else is damage. */
  lemma NextChildFails(env: Env, store: Store, run: Id, latest: Option<Stored>)
    ensures var n := if latest.None? then 1 else latest.value.snapshot.sequence + 1;
            var r := NextChild(env, store, run, latest);
            && (r == Err(RuntimeError) <==>
                  && 1 <= n <= 9007199254740991
                  && exists j, k :: j in store.claims && k in store.claims && j != k
                                    && j.run == run && k.run == run && j.sequence == n && k.sequence == n)
            && (r == Err(OsError) <==>
                  && 1 <= n <= 9007199254740991
                  && exists k :: OnlyClaim(store.claims, run, n, k) && store.claims[k].run == run
                                 && store.claims[k].snapshot.bucket == env.bucket
                                 && store.claims[k].snapshot.key !in store.objects)
            && (r == Ok(None) <==>
                  && 1 <= n <= 9007199254740991
                  && forall k :: k in store.claims ==> k.run != run || k.sequence != n)
  {
    var n := NextSequence(latest);
    OnlyClaimIsListedAlone(store.claims, run, n);
    ListingMeans(store.claims, run, n);
    hide RequireSingleClaim, ClaimsAt, OnlyClaim, ClaimMatches, Follows;
  }

  /** How many claims a listing finds, and what is made of it. */
  lemma ListingMeans(claims: map<ClaimKey, Claim>, run: Id, n: nat)
    ensures var listed := ClaimsAt(claims, run, n);
            var r := RequireSingleClaim(claims, listed, None);
            && (r == Err(RuntimeError) <==>
                  exists j, k :: j in claims && k in claims && j != k
                                 && j.run == run && k.run == run && j.sequence == n && k.sequence == n)
            && (listed == {} <==> forall k :: k in claims ==> k.run != run || k.sequence != n)
            && (r.Err? && r.error != RuntimeError ==> listed == {})
  {
    var listed := ClaimsAt(claims, run, n);
    if j, k :| j in claims && k in claims && j != k
               && j.run == run && k.run == run && j.sequence == n && k.sequence == n
    {
      TwoAreMany(listed, j, k);
    }
    if |listed| > 1 {
      var j :| j in listed;
      assert |listed - {j}| == |listed| - 1;
      var k :| k in listed - {j};
      assert j in claims && k in claims && j != k;
    }
    forall k | k in claims && k.run == run && k.sequence == n ensures k in listed {}
  }

  lemma TwoAreMany<T>(s: set<T>, a: T, b: T)
    requires a in s && b in s && a != b
    ensures |s| > 1
  {
    assert s == {a} + (s - {a});
    assert b in s - {a};
  }

  /** Which head a pointer yields, whatever the store holds. */
  lemma PointedHeadMeans(env: Env, store: Store, run: Id, pointer: Pointer, o: Stored)
    ensures PointedHead(env, store, run, pointer) == Ok(o) <==>
              && pointer == Pointer(run, o.snapshot.sequence, o.snapshot.updatedAt, o.reference)
              && Names(env, store, o) && o.snapshot.run == run && 1 <= o.snapshot.sequence <= 9007199254740991
              && exists k :: OnlyClaim(store.claims, run, o.snapshot.sequence, k) && ClaimsIt(store.claims[k], o)
  {
    OnlyClaimIsListedAlone(store.claims, run, o.snapshot.sequence);
    hide RequireSingleClaim;
  }

  ghost function WalkClaims(env: Env, store: Store, run: Id, latest: Option<Stored>, pointer: Option<Pointer>): Outcome
    decreases Remaining(store.claims, run, NextSequence(latest))
  {
    match NextChild(env, store, run, latest)
    case Err(e) => Outcome(Err(e), pointer)
    case Ok(None) => Outcome(Ok(latest), pointer)
    case Ok(Some(child)) =>
      ListedIsBelowHighest(store.claims, run, NextSequence(latest));
      WalkClaims(env, store, run, Some(child), Some(PointerTo(child)))
  }

  /** The snapshot a pointer names, if the pointer and the claim on its sequence agree with it. */
  function PointedHead(env: Env, store: Store, run: Id, pointer: Pointer): Result<Stored, Error> {
    match LoadReference(env, store.objects, pointer.snapshot)
    case Err(e) => Err(e)
    case Ok(s) =>
      var current := Stored(s, pointer.snapshot);
      if !PointerMatches(pointer, run, s) || !Listable(s.sequence) then Err(ValueError)
      else match RequireSingleClaim(store.claims, ClaimsAt(store.claims, run, s.sequence), None)
        case Err(e) => Err(e)
        case Ok(claim) => if ClaimMatches(claim, current) then Ok(current) else Err(ValueError)
  }

  ghost function Reconcile(env: Env, store: Store, run: Id, pointer: Option<Pointer>): Outcome {
    match pointer
    case None => WalkClaims(env, store, run, None, None)
    case Some(pt) =>
      match PointedHead(env, store, run, pt)
      case Err(e) => Outcome(Err(e), pointer)
      case Ok(current) => WalkClaims(env, store, run, Some(current), pointer)
  }

  // ---------------------------------------------------------------------------------------------
  // Pointer independence

  ghost predicate Uncontested(store: Store, run: Id, n: nat) {
    exists k :: ClaimsAt(store.claims, run, n) == {k}
  }

  /** `o` is the only snapshot claimed at its sequence. */
  ghost predicate SoleAt(env: Env, store: Store, run: Id, o: Stored) {
    exists k :: ClaimsAt(store.claims, run, o.snapshot.sequence) == {k}
                && store.claims[k].snapshot.key in store.objects
                && o == StoredOf(env, ClaimedSnapshot(store, k))
  }

  lemma {:induction false} NoGaps(env: Env, store: Store, run: Id, n: nat)
    requires Shaped(env, store) && 1 <= n <= Highest(store.claims, run)
    ensures ClaimsAt(store.claims, run, n) != {}
    decreases Highest(store.claims, run) - n
  {
    if n == Highest(store.claims, run) {
      HighestBounds(store.claims, run);
    } else {
      NoGaps(env, store, run, n + 1);
      var k :| k in ClaimsAt(store.claims, run, n + 1);
      assert ClaimShape(env, store, k);
      var j :| LinksTo(store, k, j);
      assert j in ClaimsAt(store.claims, run, n);
    }
  }

  lemma SoleChild(env: Env, store: Store, run: Id, latest: Option<Stored>, k: ClaimKey)
    requires Shaped(env, store)
    requires latest.Some? ==> SoleAt(env, store, run, latest.value)
    requires Listable(NextSequence(latest)) && ClaimsAt(store.claims, run, NextSequence(latest)) == {k}
    ensures k in store.claims && store.claims[k].snapshot.key in store.objects
    ensures NextChild(env, store, run, latest) == Ok(Some(StoredOf(env, ClaimedSnapshot(store, k))))
  {
    var n := NextSequence(latest);
    assert k in ClaimsAt(store.claims, run, n);
    SingleClaimIff(store.claims, run, n, k);
    assert ClaimShape(env, store, k);
    var s := ClaimedSnapshot(store, k);
    assert Follows(s, latest) by {
      if latest.Some? {
        var i :| ClaimsAt(store.claims, run, n - 1) == {i}
                 && store.claims[i].snapshot.key in store.objects
                 && latest.value == StoredOf(env, ClaimedSnapshot(store, i));
        assert i in ClaimsAt(store.claims, run, n - 1) && ClaimShape(env, store, i);
        var j :| LinksTo(store, k, j);
        assert j in ClaimsAt(store.claims, run, n - 1);
      }
    }
  }

  /** The walk stops exactly past the highest claim and fails exactly on a contested sequence. */
  lemma NextChildExact(env: Env, store: Store, run: Id, latest: Option<Stored>)
    requires Shaped(env, store)
    requires latest.Some? ==> SoleAt(env, store, run, latest.value)
    ensures var n := NextSequence(latest);
            var r := NextChild(env, store, run, latest);
            && (r.Err? <==> !Listable(n) || (n <= Highest(store.claims, run) && !Uncontested(store, run, n)))
            && (r == Ok(None) <==> Listable(n) && n > Highest(store.claims, run))
            && (r.Ok? && r.value.Some? ==>
                  SoleAt(env, store, run, r.value.value) && r.value.value.snapshot.sequence == n)
  {
    var n := NextSequence(latest);
    var listed := ClaimsAt(store.claims, run, n);
    HighestBounds(store.claims, run);
    if n <= Highest(store.claims, run) && Listable(n) {
      NoGaps(env, store, run, n);
      if Uncontested(store, run, n) {
        var k :| listed == {k};
        SoleChild(env, store, run, latest, k);
        assert k in listed && ClaimShape(env, store, k);
      } else {
        var k :| k in listed;
        SingleClaimIff(store.claims, run, n, k);
      }
    }
  }

  /** No sequence from `from` on is contested, and the one after the highest can be listed. */
  ghost predicate Clear(store: Store, run: Id, from: nat) {
    && Highest(store.claims, run) < MAX_SAFE_INTEGER
    && forall n :: from <= n <= Highest(store.claims, run) ==> Uncontested(store, run, n)
  }

  ghost predicate Committed(env: Env, store: Store, run: Id, pointer: Option<Pointer>) {
    pointer.Some? ==> CommittedPointer(env, store, run, pointer.value)
  }

  /** A successful load returns the highest claim and leaves the pointer there. */
  ghost predicate AtHead(env: Env, store: Store, run: Id, out: Outcome) {
    var h := Highest(store.claims, run);
    if h == 0 then out == Outcome(Ok(None), None)
    else
      && out.result.Ok? && out.result.value.Some?
      && SoleAt(env, store, run, out.result.value.value)
      && out.result.value.value.snapshot.sequence == h
      && out.pointer == Some(PointerTo(out.result.value.value))
  }

  lemma SoleIsCommitted(env: Env, store: Store, run: Id, o: Stored)
    requires Shaped(env, store) && SoleAt(env, store, run, o)
    ensures o.snapshot.sequence >= 1
    ensures CommittedPointer(env, store, run, PointerTo(o))
    ensures Uncontested(store, run, o.snapshot.sequence)
    ensures o.snapshot.sequence <= Highest(store.claims, run)
  {
    var k :| ClaimsAt(store.claims, run, o.snapshot.sequence) == {k}
             && store.claims[k].snapshot.key in store.objects && o == StoredOf(env, ClaimedSnapshot(store, k));
    assert k in ClaimsAt(store.claims, run, o.snapshot.sequence) && ClaimShape(env, store, k);
    ListedIsBelowHighest(store.claims, run, o.snapshot.sequence);
  }

  lemma {:induction false} WalkExact(env: Env, store: Store, run: Id, latest: Option<Stored>, pointer: Option<Pointer>)
    requires Shaped(env, store)
    requires latest.Some? ==> SoleAt(env, store, run, latest.value) && pointer == Some(PointerTo(latest.value))
    requires latest.None? ==> pointer.None?
    ensures var out := WalkClaims(env, store, run, latest, pointer);
            && (out.result.Ok? <==> Clear(store, run, NextSequence(latest)))
            && (out.result.Ok? ==> AtHead(env, store, run, out))
            && Committed(env, store, run, out.pointer)
    decreases Remaining(store.claims, run, NextSequence(latest))
  {
    var n := NextSequence(latest);
    NextChildExact(env, store, run, latest);
    if latest.Some? {
      SoleIsCommitted(env, store, run, latest.value);
    }
    var r := NextChild(env, store, run, latest);
    if r.Ok? && r.value.Some? {
      var child := r.value.value;
      ListedIsBelowHighest(store.claims, run, n);
      SoleIsCommitted(env, store, run, child);
      WalkExact(env, store, run, Some(child), Some(PointerTo(child)));
      assert Clear(store, run, n) <==> Clear(store, run, n + 1);
    }
  }

  /**
   Reconciling succeeds exactly when no sequence from the pointer to the highest claimed one has
   competing claims (and the next sequence can still be listed); it then returns the claim at the
   highest sequence and leaves the pointer there, or leaves both absent in an empty store.
   */
  lemma ReconcileExact(env: Env, store: Store, run: Id, pointer: Option<Pointer>)
    requires Shaped(env, store) && Committed(env, store, run, pointer)
    ensures var out := Reconcile(env, store, run, pointer);
            && (out.result.Ok? <==> Clear(store, run, if pointer.None? then 1 else pointer.value.sequence))
            && (out.result.Ok? ==> AtHead(env, store, run, out))
            && Committed(env, store, run, out.pointer)
  {
    if pointer.None? {
      WalkExact(env, store, run, None, None);
    } else {
      var k :| k in store.claims && k.run == run && store.claims[k].snapshot.key in store.objects
               && pointer.value == PointerTo(StoredOf(env, ClaimedSnapshot(store, k)));
      PointedHeadExact(env, store, run, pointer.value, k);
      var n, current := k.sequence, StoredOf(env, ClaimedSnapshot(store, k));
      ListedIsBelowHighest(store.claims, run, n);
      if Uncontested(store, run, n) {
        WalkExact(env, store, run, Some(current), pointer);
        assert Clear(store, run, n) <==> Clear(store, run, n + 1);
      }
    }
  }

  lemma PointedHeadExact(env: Env, store: Store, run: Id, pointer: Pointer, k: ClaimKey)
    requires Shaped(env, store) && k in store.claims && k.run == run && store.claims[k].snapshot.key in store.objects
    requires pointer == PointerTo(StoredOf(env, ClaimedSnapshot(store, k)))
    ensures k in ClaimsAt(store.claims, run, k.sequence) && pointer.sequence == k.sequence
    ensures if Uncontested(store, run, k.sequence)
            then PointedHead(env, store, run, pointer) == Ok(StoredOf(env, ClaimedSnapshot(store, k)))
                 && SoleAt(env, store, run, StoredOf(env, ClaimedSnapshot(store, k)))
            else PointedHead(env, store, run, pointer).Err?
  {
    assert ClaimShape(env, store, k);
    var listed := ClaimsAt(store.claims, run, k.sequence);
    assert k in listed;
    SingleClaimIff(store.claims, run, k.sequence, k);
    if Uncontested(store, run, k.sequence) {
      var x :| listed == {x};
      assert x == k;
    }
  }

  lemma SoleIsUnique(env: Env, store: Store, run: Id, o: Stored, x: Stored)
    requires SoleAt(env, store, run, o) && SoleAt(env, store, run, x)
    requires o.snapshot.sequence == x.snapshot.sequence
    ensures o == x
  {
    var j :| ClaimsAt(store.claims, run, o.snapshot.sequence) == {j}
             && store.claims[j].snapshot.key in store.objects && o == StoredOf(env, ClaimedSnapshot(store, j));
    var k :| ClaimsAt(store.claims, run, x.snapshot.sequence) == {k}
             && store.claims[k].snapshot.key in store.objects && x == StoredOf(env, ClaimedSnapshot(store, k));
    assert j in {k};
  }

  /**
   In every reachable store, loads that start from any two pointers to committed sequences (or from
   none) return the same head and leave the same pointer whenever both succeed; a load always
   succeeds while no sequence is contested; and the stored pointer is always a committed one.
   */
  lemma PointerIndependence(env: Env, events: seq<P.Event>, run: Id, p: Option<Pointer>, q: Option<Pointer>)
    requires CollisionFree(env)
    requires Committed(env, P.After(env, events).store, run, p) && Committed(env, P.After(env, events).store, run, q)
    ensures var store := P.After(env, events).store;
            var a, b := Reconcile(env, store, run, p), Reconcile(env, store, run, q);
            && (a.result.Ok? && b.result.Ok? ==> a == b)
            && (Clear(store, run, 1) ==> a.result.Ok? && AtHead(env, store, run, a))
            && (run in store.pointers ==> Committed(env, store, run, Some(store.pointers[run])))
  {
    var store := P.After(env, events).store;
    P.InvAfter(env, events);
    ClaimsAreLinear(env, P.After(env, events));
    ReconcileExact(env, store, run, p);
    ReconcileExact(env, store, run, q);
    var a, b := Reconcile(env, store, run, p), Reconcile(env, store, run, q);
    if a.result.Ok? && b.result.Ok? && Highest(store.claims, run) > 0 {
      SoleIsUnique(env, store, run, a.result.value.value, b.result.value.value);
    }
    if p.Some? {
      var k :| k in store.claims && k.run == run && store.claims[k].snapshot.key in store.objects
               && p.value == PointerTo(StoredOf(env, ClaimedSnapshot(store, k)));
      assert ClaimShape(env, store, k);
    }
  }
}
