/** What the invariant of ProgressProtocol means for whole histories. */
module ProgressAgreement {
  import opened Prelude
  import opened ProgressModel
  import opened ProgressProtocol

  lemma {:induction false} HistoryGrows(env: Env, events: seq<Event>, i: nat)
    requires CollisionFree(env) && i <= |events|
    ensures After(env, events[..i]).log <= After(env, events).log
    ensures After(env, events[..i]).published <= After(env, events).published
    ensures forall k :: k in After(env, events[..i]).store.claims ==>
              k in After(env, events).store.claims
              && After(env, events).store.claims[k] == After(env, events[..i]).store.claims[k]
    ensures forall k :: k in After(env, events[..i]).store.objects ==>
              k in After(env, events).store.objects
              && After(env, events).store.objects[k] == After(env, events[..i]).store.objects[k]
  {
    if i < |events| {
      var earlier := events[..|events| - 1];
      assert earlier[..i] == events[..i];
      HistoryGrows(env, earlier, i);
      InvAfter(env, earlier);
      StepKeepsInv(env, After(env, earlier), events[|events| - 1]);
    } else {
      assert events[..i] == events;
    }
  }

  lemma SeenTwice(env: Env, st: State, o: Stored, x: Stored)
    requires Inv(env, st) && o in st.log && x in st.log
    requires o.snapshot.run == x.snapshot.run && o.snapshot.sequence == x.snapshot.sequence
    ensures o == x
  {
    assert SeenOk(env, st.store, st.alone, o) && SeenOk(env, st.store, st.alone, x);
    assert ClaimKeyFor(o.snapshot) == ClaimKeyFor(x.snapshot);
    assert o.reference == x.reference;
    assert KeyOf(env, o.snapshot) == KeyOf(env, x.snapshot);
  }

  /**
   Agreement.  Whatever the interleaving, two successful observations of one sequence of one run
   name the same snapshot, however far apart they were made.
   */
  lemma Agreement(env: Env, events: seq<Event>, i: nat, j: nat, o: Stored, x: Stored)
    requires CollisionFree(env) && i <= |events| && j <= |events|
    requires o in After(env, events[..i]).log && x in After(env, events[..j]).log
    requires o.snapshot.run == x.snapshot.run && o.snapshot.sequence == x.snapshot.sequence
    ensures o == x
  {
    HistoryGrows(env, events, i);
    HistoryGrows(env, events, j);
    InvAfter(env, events);
    SeenTwice(env, After(env, events), o, x);
  }

  /** At most one attempt's publication at a sequence ever returns, and readers see that one. */
  lemma OnePublisherPerSequence(env: Env, events: seq<Event>, o: Stored, x: Stored)
    requires CollisionFree(env)
    requires o in After(env, events).published && x in After(env, events).log
    requires o.snapshot.run == x.snapshot.run && o.snapshot.sequence == x.snapshot.sequence
    ensures o.snapshot.attempt == x.snapshot.attempt && o == x
    ensures LoadReference(env, After(env, events).store.objects, x.reference) == Ok(o.snapshot)
  {
    InvAfter(env, events);
    SeenTwice(env, After(env, events), o, x);
    assert SeenOk(env, After(env, events).store, After(env, events).alone, o);
  }

  function ClaimedSnapshot(store: Store, k: ClaimKey): Snapshot
    requires k in store.claims && store.claims[k].snapshot.key in store.objects
  {
    store.objects[store.claims[k].snapshot.key]
  }

  /**
   A store shaped the way publishers leave it: every claim names its own snapshot, a snapshot
   after the first links to a claimed one right before it, and competing claims share that link.
   */
  ghost predicate Linear(env: Env, store: Store) {
    && Shaped(env, store)
    && (forall j, k :: j in store.claims && k in store.claims && j.run == k.run && j.sequence == k.sequence ==>
          SharedLink(env, store, j, k))
  }

  ghost predicate Shaped(env: Env, store: Store) {
    forall k {:trigger ClaimShape(env, store, k)} :: k in store.claims ==> ClaimShape(env, store, k)
  }

  ghost predicate ClaimShape(env: Env, store: Store, k: ClaimKey)
    requires k in store.claims
  {
    && store.claims[k].snapshot.key in store.objects
    && var s := ClaimedSnapshot(store, k);
    && store.claims[k] == ClaimFor(env, s)
    && k == ClaimKeyFor(s)
    && Listable(k.sequence)
    && (k.sequence == 1 ==> s.previous == None)
    && (k.sequence > 1 ==> exists j :: LinksTo(store, k, j))
  }

  /** Claim `k` follows claim `j`. */
  ghost predicate LinksTo(store: Store, k: ClaimKey, j: ClaimKey)
    requires k in store.claims && store.claims[k].snapshot.key in store.objects
  {
    && j in store.claims && j.run == k.run && j.sequence + 1 == k.sequence
    && ClaimedSnapshot(store, k).previous == Some(store.claims[j].snapshot)
  }

  ghost predicate SharedLink(env: Env, store: Store, j: ClaimKey, k: ClaimKey)
    requires j in store.claims && k in store.claims
  {
    && store.claims[j].snapshot.key in store.objects && store.claims[k].snapshot.key in store.objects
    && ClaimedSnapshot(store, j).previous == ClaimedSnapshot(store, k).previous
  }

  /** A run's pointer is at something claimed, though possibly not at the latest claim. */
  ghost predicate CommittedPointer(env: Env, store: Store, run: Id, pointer: Pointer) {
    exists k :: k in store.claims && k.run == run && store.claims[k].snapshot.key in store.objects
                && pointer == PointerTo(StoredOf(env, ClaimedSnapshot(store, k)))
  }

  lemma ClaimsAreLinear(env: Env, st: State)
    requires Inv(env, st)
    ensures Linear(env, st.store)
    ensures forall r :: r in st.store.pointers ==> CommittedPointer(env, st.store, r, st.store.pointers[r])
  {
    forall k | k in st.store.claims ensures ClaimShape(env, st.store, k) {
      assert ClaimOk(env, st.store, st.log, k);
      if k.sequence > 1 {
        var o := Predecessor(env, st, k);
        assert LinksTo(st.store, k, ClaimKeyFor(o.snapshot));
      }
    }
    forall j, k | j in st.store.claims && k in st.store.claims && j.run == k.run && j.sequence == k.sequence
      ensures SharedLink(env, st.store, j, k)
    {
      assert ClaimOk(env, st.store, st.log, j) && ClaimOk(env, st.store, st.log, k);
      if j.sequence > 1 {
        SeenTwice(env, st, Predecessor(env, st, j), Predecessor(env, st, k));
      }
    }
    forall r | r in st.store.pointers ensures CommittedPointer(env, st.store, r, st.store.pointers[r]) {
      var o :| o in st.log && st.store.pointers[r] == PointerTo(o) && o.snapshot.run == r;
      assert SeenOk(env, st.store, st.alone, o);
      assert ClaimedSnapshot(st.store, ClaimKeyFor(o.snapshot)) == o.snapshot;
    }
  }

  ghost function Predecessor(env: Env, st: State, k: ClaimKey): (o: Stored)
    requires Inv(env, st) && k in st.store.claims && ClaimOk(env, st.store, st.log, k) && k.sequence > 1
    ensures o in st.log && o.snapshot.run == k.run && o.snapshot.sequence + 1 == k.sequence
    ensures ClaimedSnapshot(st.store, k).previous == Some(o.reference)
    ensures ClaimKeyFor(o.snapshot) in st.store.claims
    ensures st.store.claims[ClaimKeyFor(o.snapshot)].snapshot == o.reference
  {
    var o :| o in st.log && o.snapshot.run == k.run && o.snapshot.sequence + 1 == k.sequence
             && ClaimedSnapshot(st.store, k).previous == Some(o.reference);
    assert SeenOk(env, st.store, st.alone, o);
    o
  }

  /**
   A fork never grows.  Claims at n + 1, the losing ones included, all link to one reference at n,
   and that reference was claimed.
   */
  lemma ForkNeverGrows(env: Env, events: seq<Event>, j: ClaimKey, k: ClaimKey)
    requires CollisionFree(env)
    requires j in After(env, events).store.claims && k in After(env, events).store.claims
    requires j.run == k.run && j.sequence == k.sequence && j.sequence > 1
    ensures Linear(env, After(env, events).store)
    ensures SharedLink(env, After(env, events).store, j, k)
    ensures exists l :: LinksTo(After(env, events).store, j, l) && LinksTo(After(env, events).store, k, l)
  {
    InvAfter(env, events);
    var store := After(env, events).store;
    ClaimsAreLinear(env, After(env, events));
    assert ClaimShape(env, store, j) && SharedLink(env, store, j, k);
    var l :| LinksTo(store, j, l);
    assert LinksTo(store, k, l);
  }

  /**
   Following `previous` from any claimed snapshot visits exactly the sequences n, n - 1, ..., 1 of
   the run, each of them claimed, and stops there.
   */
  lemma {:induction false} Lineage(env: Env, store: Store, k: ClaimKey) returns (chain: seq<Snapshot>)
    requires Shaped(env, store) && k in store.claims
    ensures |chain| == k.sequence && 0 < |chain|
    ensures LoadReference(env, store.objects, store.claims[k].snapshot) == Ok(chain[0])
    ensures forall i :: 0 <= i < |chain| ==>
              chain[i].run == k.run && chain[i].sequence == k.sequence - i && ClaimKeyFor(chain[i]) in store.claims
    ensures forall i :: 0 <= i < |chain| - 1 ==>
              chain[i].previous.Some? && LoadReference(env, store.objects, chain[i].previous.value) == Ok(chain[i + 1])
    ensures chain[|chain| - 1].previous == None
    decreases k.sequence
  {
    assert ClaimShape(env, store, k);
    var s := ClaimedSnapshot(store, k);
    if k.sequence == 1 {
      chain := [s];
    } else {
      var j :| LinksTo(store, k, j);
      var rest := Lineage(env, store, j);
      chain := [s] + rest;
    }
  }
}
