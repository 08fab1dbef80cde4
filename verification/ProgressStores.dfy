/**
 A progress store as one process sees it: the loops and writes of loading and publishing, under an
 arbitrary script of transient failures.
 */
module ProgressStores {
  import opened Prelude
  import opened ProgressModel
  import opened ProgressAgreement
  import opened ProgressReconcile

  ghost function PointerOf(store: Store, run: Id): Option<Pointer> {
    if run in store.pointers then Some(store.pointers[run]) else None
  }

  function AddClaim(env: Env, claims: map<ClaimKey, Claim>, s: Snapshot): map<ClaimKey, Claim> {
    claims[ClaimKeyFor(s) := ClaimFor(env, s)]
  }

  /** The very next operation fails. */
  predicate Failing(faults: seq<Fault>) {
    faults != [] && faults[0] != Clean
  }

  class BucketProgressStore {
    const env: Env
    var objects: map<Key, Snapshot>
    var claims: map<ClaimKey, Claim>
    var pointers: map<Id, Pointer>
    /** The transient failures that the next operations will meet; none once it is used up. */
    var faults: seq<Fault>
    /** How each publication so far has ended. */
    ghost var outcomes: seq<Result<Stored, Error>>

    constructor (env: Env, faults: seq<Fault>)
      ensures this.env == env && Contents() == EMPTY_STORE && this.faults == faults && outcomes == []
    {
      this.env := env;
      outcomes := [];
      objects, claims, pointers := map[], map[], map[];
      this.faults := faults;
    }

    function Contents(): Store
      reads this
    {
      Store(objects, claims, pointers)
    }

    method NextFault() returns (f: Fault)
      modifies this`faults
      ensures f == (if old(faults) == [] then Clean else old(faults)[0])
      ensures faults == if old(faults) == [] then [] else old(faults)[1..]
    {
      f := Clean;
      if faults != [] {
        f := faults[0];
        faults := faults[1..];
      }
    }

    method ReadPointer(run: Id) returns (r: Result<Option<Pointer>, Error>)
      modifies this`faults
      ensures r == Ok(if run in pointers then Some(pointers[run]) else None) || r == Err(OsError)
      ensures old(faults) == [] ==> faults == [] && r.Ok?
      ensures Failing(old(faults)) ==> faults == old(faults)[1..] && r == Err(OsError)
    {
      var f := NextFault();
      r := if f.Clean? then Ok(if run in pointers then Some(pointers[run]) else None) else Err(OsError);
    }

    method Fetch(reference: Ref) returns (r: Result<Snapshot, Error>)
      modifies this`faults
      ensures r == LoadReference(env, objects, reference) || r == Err(OsError)
      ensures old(faults) == [] ==> faults == [] && r == LoadReference(env, objects, reference)
    {
      var f := NextFault();
      r := if f.Clean? then LoadReference(env, objects, reference) else Err(OsError);
    }

    method ListClaims(run: Id, sequence: nat) returns (r: Result<set<ClaimKey>, Error>)
      modifies this`faults
      ensures r.Ok? ==> Listable(sequence) && r.value == ClaimsAt(claims, run, sequence)
      ensures r.Err? ==> r.error == OsError || (r.error == ValueError && !Listable(sequence))
      ensures old(faults) == [] ==> faults == [] && (if Listable(sequence) then r.Ok? else r == Err(ValueError))
    {
      if !Listable(sequence) {
        return Err(ValueError);
      }
      var f := NextFault();
      r := if f.Clean? then Ok(ClaimsAt(claims, run, sequence)) else Err(OsError);
    }

    method WritePointer(pointer: Pointer) returns (r: Result<(), Error>)
      modifies this`pointers, this`faults
      ensures pointers == old(pointers) || pointers == old(pointers)[pointer.run := pointer]
      ensures r.Ok? ==> pointers == old(pointers)[pointer.run := pointer]
      ensures r.Err? ==> r.error == OsError
      ensures old(faults) == [] ==> faults == [] && r.Ok?
    {
      var f := NextFault();
      if f.Refused? {
        return Err(OsError);
      }
      pointers := pointers[pointer.run := pointer];
      if f.Applied? {
        return Err(OsError);
      }
      var stored :- ReadPointer(pointer.run);
      r := if stored == Some(pointer) then Ok(()) else Err(RuntimeError);
    }

    /** The snapshot a pointer names, checked against the pointer and the claim at its sequence. */
    method LoadPointed(run: Id, pointer: Pointer) returns (r: Result<Stored, Error>)
      modifies this`faults
      ensures r == PointedHead(env, Contents(), run, pointer) || r == Err(OsError)
      ensures old(faults) == [] ==> faults == [] && r == PointedHead(env, Contents(), run, pointer)
    {
      var head :- Fetch(pointer.snapshot);
      if !PointerMatches(pointer, run, head) {
        return Err(ValueError);
      }
      var listed :- ListClaims(run, head.sequence);
      var claim :- RequireSingleClaim(claims, listed, None);
      var current := Stored(head, pointer.snapshot);
      r := if ClaimMatches(claim, current) then Ok(current) else Err(ValueError);
    }

    /** The snapshot claimed right after `latest`, if there is one. */
    method LoadNext(run: Id, latest: Option<Stored>) returns (r: Result<Option<Stored>, Error>)
      modifies this`faults
      ensures r == NextChild(env, Contents(), run, latest) || r == Err(OsError)
      ensures old(faults) == [] ==> faults == [] && r == NextChild(env, Contents(), run, latest)
    {
      var listed :- ListClaims(run, NextSequence(latest));
      if listed == {} {
        return Ok(None);
      }
      var claim :- RequireSingleClaim(claims, listed, None);
      if claim.run != run {
        return Err(ValueError);
      }
      var child :- Fetch(claim.snapshot);
      var stored := Stored(child, claim.snapshot);
      r := if child.run == run && ClaimMatches(claim, stored) && Follows(child, latest)
             then Ok(Some(stored))
             else Err(ValueError);
    }

    /**
     Loads the latest snapshot and repairs the pointer.  Without a transient failure this is exactly
     reconciliation; with one, nothing but the pointer moves, and only along committed snapshots.
     */
    method LoadLatest(run: Id) returns (r: Result<Option<Stored>, Error>)
      modifies this`pointers, this`faults
      ensures LoadEffect(env, old(Contents()), Contents(), run, r)
      ensures old(faults) == [] ==>
                faults == [] && r == Reconcile(env, old(Contents()), run, PointerOf(old(Contents()), run)).result
      ensures Failing(old(faults)) ==>
                faults == old(faults)[1..] && Contents() == old(Contents()) && r == Err(OsError)
    {
      ghost var was := Contents();
      var latest: Option<Stored> := None;
      var pointer :- ReadPointer(run);
      if pointer.Some? {
        var head :- LoadPointed(run, pointer.value);
        latest := Some(head);
      }
      WalkBegins(env, was, run, latest);
      while true
        invariant objects == was.objects && claims == was.claims
        invariant OnTheWay(env, was, Contents(), run, latest)
        invariant old(faults) == [] ==> faults == []
        decreases Remaining(claims, run, NextSequence(latest))
      {
        var next :- Advance(run, latest, was);
        if next.None? {
          return Ok(latest);
        }
        latest := next;
      }
    }

    /** One turn of the reconciliation loop: find the next child and move the pointer to it. */
    method Advance(run: Id, latest: Option<Stored>, ghost was: Store) returns (r: Result<Option<Stored>, Error>)
      requires OnTheWay(env, was, Contents(), run, latest)
      modifies this`pointers, this`faults
      ensures r.Err? ==> LoadEffect(env, was, Contents(), run, Err(r.error))
      ensures r == Ok(None) ==> LoadEffect(env, was, Contents(), run, Ok(latest))
      ensures r.Ok? && r.value.Some? ==>
                && OnTheWay(env, was, Contents(), run, r.value)
                && Remaining(claims, run, NextSequence(r.value)) < Remaining(claims, run, NextSequence(latest))
      ensures old(faults) == [] ==>
                faults == [] && (r.Err? ==> Reconcile(env, was, run, PointerOf(was, run)).result == Err(r.error))
    {
      ghost var before := Contents();
      r := LoadNext(run, latest);
      if r.Ok? && r.value.Some? {
        OneFurther(env, was, before, run, latest, r.value.value);
        var w := WritePointer(PointerTo(r.value.value));
        if w.Err? {
          return Err(w.error);
        }
      }
    }

    /** Stores the snapshot object unless it is already there. */
    method PutObject(s: Snapshot) returns (r: Result<(), Error>)
      modifies this`objects, this`faults
      ensures objects == old(objects) || (KeyOf(env, s) !in old(objects) && objects == old(objects)[KeyOf(env, s) := s])
      ensures r.Ok? ==> KeyOf(env, s) in objects && objects[KeyOf(env, s)] == s
      ensures old(faults) == [] ==> faults == [] && (r.Ok? || (KeyOf(env, s) in objects && objects[KeyOf(env, s)] != s))
      ensures r.Err? ==>
                || (r.error == OsError && old(faults) != [])
                || (r.error == RuntimeError && KeyOf(env, s) in objects && objects[KeyOf(env, s)] != s)
    {
      var key := KeyOf(env, s);
      var f := NextFault();
      if !f.Clean? {
        return Err(OsError);
      }
      if key in objects {
        if objects[key] != s {
          return Err(RuntimeError);
        }
      } else {
        f := NextFault();
        if f.Refused? {
          return Err(OsError);
        }
        objects := objects[key := s];
        if f.Applied? {
          return Err(OsError);
        }
      }
      var _ :- Fetch(RefOf(env, s));
      r := Ok(());
    }

    /** Stores the attempt's claim unless it is already there. */
    method PutClaim(s: Snapshot) returns (r: Result<(), Error>)
      modifies this`claims, this`faults
      ensures claims == old(claims) || (ClaimKeyFor(s) !in old(claims) && claims == AddClaim(env, old(claims), s))
      ensures r.Ok? ==> ClaimKeyFor(s) in claims && claims[ClaimKeyFor(s)] == ClaimFor(env, s)
      ensures r.Err? && r.error != OsError ==>
                && r.error == RuntimeError && claims == old(claims)
                && ClaimKeyFor(s) in claims && claims[ClaimKeyFor(s)] != ClaimFor(env, s)
      ensures r == Err(OsError) ==> old(faults) != []
      ensures old(faults) == [] && ClaimKeyFor(s) !in old(claims) ==> faults == [] && r.Ok?
    {
      var key := ClaimKeyFor(s);
      var f := NextFault();
      if !f.Clean? {
        return Err(OsError);
      }
      if key in claims {
        return if claims[key] == ClaimFor(env, s) then Ok(()) else Err(RuntimeError);
      }
      f := NextFault();
      if f.Refused? {
        return Err(OsError);
      }
      claims := claims[key := ClaimFor(env, s)];
      r := if f.Applied? then Err(OsError) else Ok(());
    }

    /** Lists the claims at the snapshot's sequence again and insists on its own being the only one. */
    method Recount(s: Snapshot) returns (r: Result<(), Error>)
      requires Listable(s.sequence)
      modifies this`faults
      ensures var single := RequireSingleClaim(claims, ClaimsAt(claims, s.run, s.sequence), Some(ClaimFor(env, s)));
              && (r.Ok? ==> single.Ok?)
              && (r.Err? ==> r.error == OsError || single == Err(r.error))
              && (old(faults) == [] ==> faults == [] && (r.Ok? <==> single.Ok?))
    {
      var listed :- ListClaims(s.run, s.sequence);
      var _ :- RequireSingleClaim(claims, listed, Some(ClaimFor(env, s)));
      r := Ok(());
    }

    /** Publishes one snapshot on top of the reconciled head. */
    method Publish(s: Snapshot) returns (r: Result<Stored, Error>)
      requires WellFormed(s)
      modifies this`objects, this`claims, this`pointers, this`faults, this`outcomes
      ensures outcomes == old(outcomes) + [r]
      ensures Published(env, old(Contents()), Contents(), s, r)
      ensures r.Ok? ==> Accepts(env, old(Contents()), s)
      ensures old(faults) == [] && Accepts(env, old(Contents()), s) ==> faults == [] && r.Ok?
      ensures old(faults) == [] && !Accepts(env, old(Contents()), s) ==>
                faults == [] && r.Err? && (r.error == OsError ==> Unreadable(env, old(Contents()), s.run))
      ensures Failing(old(faults)) ==>
                faults == old(faults)[1..] && Contents() == old(Contents()) && r == Err(OsError)
    {
      r := PublishOnce(s);
      outcomes := outcomes + [r];
    }

    method PublishOnce(s: Snapshot) returns (r: Result<Stored, Error>)
      requires WellFormed(s)
      modifies this`objects, this`claims, this`pointers, this`faults
      ensures Published(env, old(Contents()), Contents(), s, r)
      ensures r.Ok? ==> Accepts(env, old(Contents()), s)
      ensures old(faults) == [] && Accepts(env, old(Contents()), s) ==> faults == [] && r.Ok?
      ensures old(faults) == [] && !Accepts(env, old(Contents()), s) ==>
                faults == [] && r.Err? && (r.error == OsError ==> Unreadable(env, old(Contents()), s.run))
      ensures Failing(old(faults)) ==>
                faults == old(faults)[1..] && Contents() == old(Contents()) && r == Err(OsError)
    {
      ghost var was := Contents();
      var latest :- LoadLatest(s.run);
      if !Follows(s, latest) {
        return Err(ValueError);
      }
      NothingAfterHead(env, was, s.run, latest);
      ghost var mid := Contents();
      r := Commit(s);
      PublishedFrom(env, was, mid, Contents(), s, r);
    }

    /** The writes of a validated publication: object, claim, recount, pointer. */
    method Commit(s: Snapshot) returns (r: Result<Stored, Error>)
      requires Listable(s.sequence) && ClaimsAt(claims, s.run, s.sequence) == {}
      modifies this`objects, this`claims, this`pointers, this`faults
      ensures Written(env, old(Contents()), Contents(), s, r)
      ensures old(faults) == [] && (KeyOf(env, s) in old(objects) ==> old(objects)[KeyOf(env, s)] == s) ==>
                faults == [] && r.Ok?
      ensures old(faults) == [] && KeyOf(env, s) in old(objects) && old(objects)[KeyOf(env, s)] != s ==>
                faults == [] && r == Err(RuntimeError)
    {
      assert ClaimKeyFor(s) in claims ==> ClaimKeyFor(s) in ClaimsAt(claims, s.run, s.sequence);
      AloneAfterAdding(env, claims, s);
      var _ :- PutObject(s);
      var _ :- PutClaim(s);
      var _ :- Recount(s);
      var _ :- WritePointer(PointerTo(StoredOf(env, s)));
      r := Ok(StoredOf(env, s));
    }
  }

  /** The effect of the writes of one publication, however many of them went through. */
  ghost predicate Written(env: Env, was: Store, now: Store, s: Snapshot, r: Result<Stored, Error>) {
    && (now.objects == was.objects || (KeyOf(env, s) !in was.objects && now.objects == was.objects[KeyOf(env, s) := s]))
    && (now.claims == was.claims
        || (now.claims == AddClaim(env, was.claims, s) && KeyOf(env, s) in now.objects
            && now.objects[KeyOf(env, s)] == s))
    && (now.pointers == was.pointers
        || (now.pointers == was.pointers[s.run := PointerTo(StoredOf(env, s))]
            && now.claims == AddClaim(env, was.claims, s)))
    && (r.Ok? ==> r.value == StoredOf(env, s) && now.claims == AddClaim(env, was.claims, s)
                  && now.pointers == was.pointers[s.run := PointerTo(StoredOf(env, s))])
    && (r.Err? && r.error != OsError ==> now.claims == was.claims)
  }

  lemma PublishedFrom(env: Env, was: Store, mid: Store, now: Store, s: Snapshot, r: Result<Stored, Error>)
    requires Ready(env, was, s) && OnlyPointer(env, was, mid, s.run) && Written(env, mid, now, s, r)
    ensures Published(env, was, now, s, r)
  {
    assert ClaimKeyFor(s) in was.claims ==> ClaimKeyFor(s) in ClaimsAt(was.claims, s.run, s.sequence);
    assert now.claims == AddClaim(env, was.claims, s) ==> ClaimKeyFor(s) in now.claims;
  }

  /** `s` is the direct successor of the reconciled head, and nothing is claimed at its sequence. */
  ghost predicate Ready(env: Env, was: Store, s: Snapshot) {
    var out := Reconcile(env, was, s.run, PointerOf(was, s.run)).result;
    && out.Ok? && Follows(s, out.value)
    && Listable(s.sequence) && ClaimsAt(was.claims, s.run, s.sequence) == {}
  }

  /** Reconciliation meets a reference to an object that is not there. */
  ghost predicate Unreadable(env: Env, was: Store, run: Id) {
    Reconcile(env, was, run, PointerOf(was, run)).result == Err(OsError)
  }

  /** Publication would go through if no store operation failed. */
  ghost predicate Accepts(env: Env, was: Store, s: Snapshot) {
    var out := Reconcile(env, was, s.run, PointerOf(was, s.run)).result;
    out.Ok? && Follows(s, out.value) && (KeyOf(env, s) in was.objects ==> was.objects[KeyOf(env, s)] == s)
  }

  /** The claim on `s` was added to claims that had nothing at its sequence. */
  ghost predicate Claimed(env: Env, was: Store, now: Store, s: Snapshot) {
    && Ready(env, was, s)
    && now.claims == AddClaim(env, was.claims, s)
    && KeyOf(env, s) in now.objects && now.objects[KeyOf(env, s)] == s
  }

  /**
   Publishing adds at most the snapshot's own object and claim.  It succeeds only by adding the
   claim, and if it adds the claim and still raises then the failure was a transient one.
   */
  ghost predicate Published(env: Env, was: Store, now: Store, s: Snapshot, r: Result<Stored, Error>) {
    && (now.objects == was.objects || (KeyOf(env, s) !in was.objects && now.objects == was.objects[KeyOf(env, s) := s]))
    && (now.claims == was.claims || Claimed(env, was, now, s))
    && (forall x :: x != s.run ==> PointerOf(now, x) == PointerOf(was, x))
    && (Coherent(env, was, s.run) ==>
          || Committed(env, was, s.run, PointerOf(now, s.run))
          || (PointerOf(now, s.run) == Some(PointerTo(StoredOf(env, s))) && Claimed(env, was, now, s)))
    && (r.Ok? ==>
          && Claimed(env, was, now, s) && r.value == StoredOf(env, s)
          && PointerOf(now, s.run) == Some(PointerTo(StoredOf(env, s))))
    && (r.Err? && r.error != OsError ==> now.claims == was.claims)
  }

  /** What every reachable store is: claims shaped as publishers leave them, the pointer at something committed. */
  ghost predicate Coherent(env: Env, store: Store, run: Id) {
    Shaped(env, store) && Committed(env, store, run, PointerOf(store, run))
  }

  /** Nothing but the run's pointer moved, and that only to something committed. */
  ghost predicate OnlyPointer(env: Env, was: Store, now: Store, run: Id) {
    && now.objects == was.objects && now.claims == was.claims
    && (forall x :: x != run ==> PointerOf(now, x) == PointerOf(was, x))
    && (Coherent(env, was, run) ==> Committed(env, was, run, PointerOf(now, run)))
  }

  ghost predicate LoadEffect(env: Env, was: Store, now: Store, run: Id, r: Result<Option<Stored>, Error>) {
    var out := Reconcile(env, was, run, PointerOf(was, run));
    && OnlyPointer(env, was, now, run)
    && (r == out.result || r == Err(OsError))
    && (r.Ok? ==> PointerOf(now, run) == out.pointer)
  }

  /** What is left of the walk from `latest` completes the reconciliation. */
  ghost predicate OnTheWay(env: Env, was: Store, now: Store, run: Id, latest: Option<Stored>) {
    && OnlyPointer(env, was, now, run)
    && Reconcile(env, was, run, PointerOf(was, run)) == WalkClaims(env, was, run, latest, PointerOf(now, run))
    && (Coherent(env, was, run) && latest.Some? ==> SoleAt(env, was, run, latest.value))
  }

  lemma OneFurther(env: Env, was: Store, now: Store, run: Id, latest: Option<Stored>, child: Stored)
    requires OnTheWay(env, was, now, run, latest) && NextChild(env, was, run, latest) == Ok(Some(child))
    ensures OnTheWay(env, was, now.(pointers := now.pointers[run := PointerTo(child)]), run, Some(child))
    ensures child.snapshot.run == run
    ensures Remaining(was.claims, run, NextSequence(Some(child))) < Remaining(was.claims, run, NextSequence(latest))
    ensures NextSequence(Some(child)) == NextSequence(latest) + 1
  {
    ListedIsBelowHighest(was.claims, run, NextSequence(latest));
    if Coherent(env, was, run) {
      NextChildExact(env, was, run, latest);
      SoleIsCommitted(env, was, run, child);
    }
  }

  lemma WalkBegins(env: Env, store: Store, run: Id, latest: Option<Stored>)
    requires match PointerOf(store, run)
             case None => latest.None?
             case Some(pointer) => latest.Some? && PointedHead(env, store, run, pointer) == Ok(latest.value)
    ensures OnTheWay(env, store, store, run, latest)
  {
    if Coherent(env, store, run) && run in store.pointers {
      var pointer := store.pointers[run];
      var k :| k in store.claims && k.run == run && store.claims[k].snapshot.key in store.objects
               && pointer == PointerTo(StoredOf(env, ClaimedSnapshot(store, k)));
      PointedHeadExact(env, store, run, pointer, k);
    }
  }

  /** A successful walk ends where no claim is listed. */
  lemma {:induction false} WalkEnds(env: Env, store: Store, run: Id, latest: Option<Stored>, pointer: Option<Pointer>)
    requires WalkClaims(env, store, run, latest, pointer).result.Ok?
    ensures var head := WalkClaims(env, store, run, latest, pointer).result.value;
            Listable(NextSequence(head)) && ClaimsAt(store.claims, run, NextSequence(head)) == {}
    decreases Remaining(store.claims, run, NextSequence(latest))
  {
    var r := NextChild(env, store, run, latest);
    if r.Ok? && r.value.Some? {
      ListedIsBelowHighest(store.claims, run, NextSequence(latest));
      WalkEnds(env, store, run, r.value, Some(PointerTo(r.value.value)));
    }
  }

  lemma NothingAfterHead(env: Env, store: Store, run: Id, head: Option<Stored>)
    requires Reconcile(env, store, run, PointerOf(store, run)).result == Ok(head)
    ensures Listable(NextSequence(head)) && ClaimsAt(store.claims, run, NextSequence(head)) == {}
  {
    if run in store.pointers {
      var current := PointedHead(env, store, run, store.pointers[run]).value;
      WalkEnds(env, store, run, Some(current), Some(store.pointers[run]));
    } else {
      WalkEnds(env, store, run, None, None);
    }
  }

  lemma AloneAfterAdding(env: Env, claims: map<ClaimKey, Claim>, s: Snapshot)
    requires ClaimsAt(claims, s.run, s.sequence) == {}
    ensures ClaimsAt(AddClaim(env, claims, s), s.run, s.sequence) == {ClaimKeyFor(s)}
    ensures RequireSingleClaim(AddClaim(env, claims, s), {ClaimKeyFor(s)}, Some(ClaimFor(env, s)))
              == Ok(ClaimFor(env, s))
  {
    assert forall k :: k in claims && k.run == s.run && k.sequence == s.sequence ==>
             k in ClaimsAt(claims, s.run, s.sequence);
  }

  lemma OldClaimsKeepShape(env: Env, was: Store, now: Store, s: Snapshot, k: ClaimKey)
    requires Shaped(env, was) && k in was.claims && ClaimsAt(was.claims, s.run, s.sequence) == {}
    requires now.objects == was.objects
             || (KeyOf(env, s) !in was.objects && now.objects == was.objects[KeyOf(env, s) := s])
    requires now.claims == AddClaim(env, was.claims, s)
    ensures k in now.claims && now.claims[k] == was.claims[k] && ClaimShape(env, now, k)
    ensures was.claims[k].snapshot.key in was.objects
    ensures ClaimedSnapshot(now, k) == ClaimedSnapshot(was, k)
  {
    assert ClaimShape(env, was, k);
    assert ClaimKeyFor(s) in was.claims ==> ClaimKeyFor(s) in ClaimsAt(was.claims, s.run, s.sequence);
    if k.sequence > 1 {
      var j :| LinksTo(was, k, j);
      assert LinksTo(now, k, j);
    }
  }

  lemma ReconciledHead(env: Env, store: Store, run: Id)
    requires Coherent(env, store, run) && Reconcile(env, store, run, PointerOf(store, run)).result.Ok?
    ensures var head := Reconcile(env, store, run, PointerOf(store, run)).result.value;
            && NextSequence(head) == Highest(store.claims, run) + 1
            && (head.Some? ==> SoleAt(env, store, run, head.value) && head.value.snapshot.sequence >= 1)
  {
    ReconcileExact(env, store, run, PointerOf(store, run));
  }

  lemma NewClaimShape(env: Env, was: Store, now: Store, s: Snapshot, head: Option<Stored>)
    requires Shaped(env, was) && now.claims == AddClaim(env, was.claims, s) && WellFormed(s)
    requires ClaimsAt(was.claims, s.run, s.sequence) == {}
    requires KeyOf(env, s) in now.objects && now.objects[KeyOf(env, s)] == s
    requires Follows(s, head)
             && (head.Some? ==> SoleAt(env, was, s.run, head.value) && head.value.snapshot.sequence >= 1)
    ensures ClaimShape(env, now, ClaimKeyFor(s))
  {
    if head.Some? {
      var j :| ClaimsAt(was.claims, s.run, head.value.snapshot.sequence) == {j}
               && was.claims[j].snapshot.key in was.objects && head.value == StoredOf(env, ClaimedSnapshot(was, j));
      assert j in ClaimsAt(was.claims, s.run, head.value.snapshot.sequence);
      assert ClaimShape(env, was, j);
      assert LinksTo(now, ClaimKeyFor(s), j);
    }
  }

  /** A claim added on top of the head becomes the head, and stands alone there. */
  lemma ClaimAdded(env: Env, was: Store, now: Store, s: Snapshot)
    requires Coherent(env, was, s.run) && Claimed(env, was, now, s) && WellFormed(s)
    requires now.objects == was.objects
             || (KeyOf(env, s) !in was.objects && now.objects == was.objects[KeyOf(env, s) := s])
    ensures s.sequence == Highest(was.claims, s.run) + 1
    ensures Shaped(env, now) && Highest(now.claims, s.run) == s.sequence
    ensures SoleAt(env, now, s.run, StoredOf(env, s))
  {
    ReconciledHead(env, was, s.run);
    NewClaimShape(env, was, now, s, Reconcile(env, was, s.run, PointerOf(was, s.run)).result.value);
    forall k | k in now.claims ensures ClaimShape(env, now, k) {
      if k != ClaimKeyFor(s) { OldClaimsKeepShape(env, was, now, s, k); }
    }
    AloneAtTheEnd(env, was, now, s);
  }

  lemma AloneAtTheEnd(env: Env, was: Store, now: Store, s: Snapshot)
    requires s.sequence == Highest(was.claims, s.run) + 1
    requires now.claims == AddClaim(env, was.claims, s) && ClaimsAt(was.claims, s.run, s.sequence) == {}
    ensures Highest(now.claims, s.run) == s.sequence
    ensures ClaimsAt(now.claims, s.run, s.sequence) == {ClaimKeyFor(s)}
  {
    HighestBounds(was.claims, s.run);
    AloneAfterAdding(env, was.claims, s);
    HighestIs(now.claims, s.run, s.sequence);
  }

  /**
   A publication changes the claims exactly by making the snapshot the new head, and only a snapshot
   numbered right after the highest claim can do that; so retrying a publication whose claim was
   written is rejected, not repeated.  Old contested sequences behind the pointer do not matter.
   */
  lemma PublicationEffect(env: Env, was: Store, now: Store, s: Snapshot, r: Result<Stored, Error>)
    requires Coherent(env, was, s.run) && WellFormed(s) && Published(env, was, now, s, r)
    ensures Coherent(env, now, s.run)
    ensures if now.claims == was.claims
            then r.Err?
            else s.sequence == Highest(was.claims, s.run) + 1 && SoleAt(env, now, s.run, StoredOf(env, s))
                 && Highest(now.claims, s.run) == s.sequence && (r.Err? ==> r.error == OsError)
    ensures s.sequence != Highest(was.claims, s.run) + 1 ==> r.Err? && now.claims == was.claims
  {
    var run := s.run;
    if now.claims == was.claims {
      assert Claimed(env, was, now, s) ==> ClaimKeyFor(s) in ClaimsAt(was.claims, run, s.sequence) by {
        assert Claimed(env, was, now, s) ==> ClaimKeyFor(s) in now.claims;
      }
      forall k | k in now.claims ensures ClaimShape(env, now, k) {
        assert ClaimShape(env, was, k);
        if k.sequence > 1 {
          var j :| LinksTo(was, k, j);
          assert LinksTo(now, k, j);
        }
      }
      PointerStaysCommitted(env, was, now, run);
    } else {
      ClaimAdded(env, was, now, s);
      SoleIsCommitted(env, now, run, StoredOf(env, s));
      if Committed(env, was, run, PointerOf(now, run)) && run in now.pointers {
        var k :| k in was.claims && k.run == run && was.claims[k].snapshot.key in was.objects
                 && now.pointers[run] == PointerTo(StoredOf(env, ClaimedSnapshot(was, k)));
        OldClaimsKeepShape(env, was, now, s, k);
        assert CommittedPointer(env, now, run, now.pointers[run]);
      }
    }
  }

  lemma PointerStaysCommitted(env: Env, was: Store, now: Store, run: Id)
    requires now.claims == was.claims && Committed(env, was, run, PointerOf(now, run))
    requires forall k :: k in was.objects ==> k in now.objects && now.objects[k] == was.objects[k]
    ensures Committed(env, now, run, PointerOf(now, run))
  {
    if run in now.pointers {
      var k :| k in was.claims && k.run == run && was.claims[k].snapshot.key in was.objects
               && now.pointers[run] == PointerTo(StoredOf(env, ClaimedSnapshot(was, k)));
      assert ClaimedSnapshot(now, k) == ClaimedSnapshot(was, k);
    }
  }
}
