/** What every history of checkpoint coordinators agrees on. */
module CheckpointAgreement {
  import opened Prelude
  import opened ClaimKeys
  import opened Bundle
  import opened CheckpointChain
  import opened CheckpointProtocol

  lemma {:induction false} HistoryGrows(env: Env, events: seq<Event>, more: seq<Event>)
    requires RoundTrips(env.codec)
    ensures Grows(After(env, events), After(env, events + more))
  {
    if more == [] {
      assert events + more == events;
    } else {
      var n := |more| - 1;
      HistoryGrows(env, events, more[..n]);
      InvAfter(env, events + more[..n]);
      StepKeepsInv(env, After(env, events + more[..n]), more[n]);
      assert (events + more)[..|events + more| - 1] == events + more[..n];
    }
  }

  /** Of any two chains that were ever loaded, the earlier is a prefix of the later. */
  lemma LogPrefix(env: Env, events: seq<Event>, i: nat, j: nat)
    requires RoundTrips(env.codec) && i <= j < |After(env, events).loads|
    ensures After(env, events).loads[i] <= After(env, events).loads[j]
  {
    InvAfter(env, events);
  }

  lemma HeadsOfLoads(store: Store, loads: seq<seq<Ref>>, c: Claim, d: Claim)
    requires LoadsOk(store, loads) && HeadOf(loads, c) && HeadOf(loads, d) && c.sequence <= d.sequence
    ensures exists j :: 0 <= j < |loads| && |loads[j]| == d.sequence
                     && loads[j][d.sequence - 1] == d.checkpoint && loads[j][c.sequence - 1] == c.checkpoint
  {
    var i :| 0 <= i < |loads| && |loads[i]| == c.sequence >= 1 && loads[i][c.sequence - 1] == c.checkpoint;
    var j :| 0 <= j < |loads| && |loads[j]| == d.sequence >= 1 && loads[j][d.sequence - 1] == d.checkpoint;
    if i <= j {
      assert loads[i] <= loads[j];
    } else {
      assert loads[j] <= loads[i];
    }
  }

  /** Commits and restores at one sequence name one bundle, whichever coordinators they happen in. */
  lemma Agreement(env: Env, events: seq<Event>, c: Claim, d: Claim)
    requires RoundTrips(env.codec) && c.sequence == d.sequence
    requires c in After(env, events).committed + After(env, events).restored
    requires d in After(env, events).committed + After(env, events).restored
    ensures c.checkpoint == d.checkpoint
  {
    var st := After(env, events);
    InvAfter(env, events);
    assert Known(st.store, st.loads, c) && Known(st.store, st.loads, d);
    HeadsOfLoads(st.store, st.loads, c, d);
  }

  lemma HeadStaysOn(loads: seq<seq<Ref>>, later: seq<seq<Ref>>, c: Claim, j: nat)
    requires HeadOf(loads, c) && loads <= later && |loads| <= j < |later|
    requires forall i, k :: 0 <= i <= k < |later| ==> later[i] <= later[k]
    ensures 1 <= c.sequence <= |later[j]| && later[j][c.sequence - 1] == c.checkpoint
  {
    var i :| 0 <= i < |loads| && |loads[i]| == c.sequence >= 1 && loads[i][c.sequence - 1] == c.checkpoint;
    assert later[i] == loads[i];
    assert later[i] <= later[j];
  }

  /** A commit that returned is on every chain loaded afterwards. */
  lemma CommitsAreDurable(env: Env, events: seq<Event>, more: seq<Event>, c: Claim, j: nat)
    requires RoundTrips(env.codec) && c in After(env, events).committed
    requires |After(env, events).loads| <= j < |After(env, events + more).loads|
    ensures 1 <= c.sequence <= |After(env, events + more).loads[j]|
    ensures After(env, events + more).loads[j][c.sequence - 1] == c.checkpoint
  {
    var loads, later := After(env, events).loads, After(env, events + more).loads;
    InvAfter(env, events);
    assert Known(After(env, events).store, loads, c);
    HistoryGrows(env, events, more);
    InvAfter(env, events + more);
    HeadStaysOn(loads, later, c, j);
  }

  // ---------------------------------------------------------------------------------------------
  // Conflicts

  lemma StoreIsLinked(env: Env, store: Store)
    requires StoreOk(env, store)
    ensures Linked(Claims(store))
  {
    forall c | c in Claims(store) ensures LinkOk(Claims(store), c) {
      var k :| k in store.claims && store.claims[k] == c;
      assert ClaimOk(env, store, k);
    }
  }

  /** In a store that only coordinators write, the chain loads exactly while no two claims conflict. */
  lemma LoadableIffNoConflict(env: Env, events: seq<Event>)
    requires RoundTrips(env.codec)
    ensures Chain(Claims(After(env, events).store)).Some? <==> NoConflict(Claims(After(env, events).store))
  {
    InvAfter(env, events);
    StoreIsLinked(env, After(env, events).store);
    ChainIffNoConflict(Claims(After(env, events).store));
  }

  /** Two claims in conflict stay so: nothing is loaded or committed any more, by anyone. */
  lemma {:induction false} ConflictIsFinal(env: Env, events: seq<Event>, more: seq<Event>)
    requires RoundTrips(env.codec) && !NoConflict(Claims(After(env, events).store))
    ensures !NoConflict(Claims(After(env, events + more).store))
    ensures After(env, events + more).loads == After(env, events).loads
    ensures After(env, events + more).committed == After(env, events).committed
  {
    if more == [] {
      assert events + more == events;
    } else {
      var n := |more| - 1;
      ConflictIsFinal(env, events, more[..n]);
      ConflictStep(env, events + more[..n], more[n]);
      assert (events + more)[..|events + more| - 1] == events + more[..n];
      hide NoConflict, Next;
    }
  }

  lemma ConflictStep(env: Env, events: seq<Event>, e: Event)
    requires RoundTrips(env.codec) && !NoConflict(Claims(After(env, events).store))
    ensures var st, st' := After(env, events), Next(env, After(env, events), e);
            !NoConflict(Claims(st'.store)) && st'.loads == st.loads && st'.committed == st.committed
  {
    var st := After(env, events);
    InvAfter(env, events);
    StepKeepsInv(env, st, e);
    ClaimsGrow(st.store, Next(env, st, e).store);
    ConflictsStay(Claims(st.store), Claims(Next(env, st, e).store));
    LoadableIffNoConflict(env, events);
    if e.Work? {
      var me := Proc(st, e.proc).coordinator;
      hide Inv, Grows, NoConflict, After;
      NothingLoads(env, st.store, me.head, me.phase, e.pick);
    }
  }

  lemma ConflictsStay(all: set<Claim>, more: set<Claim>)
    requires all <= more && !NoConflict(all)
    ensures !NoConflict(more)
  {
  }

  lemma NothingLoads(env: Env, store: Store, head: Option<Claim>, phase: Phase, pick: string)
    requires Chain(Claims(store)).None?
    ensures Perform(env, store, head, phase, pick).loads == [] && Perform(env, store, head, phase, pick).committed == {}
  {
    hide Chain;
  }

  /** A restore that still returns after a conflict had loaded its chain before it. */
  lemma RestoresAfterConflict(env: Env, events: seq<Event>, more: seq<Event>, c: Claim)
    requires RoundTrips(env.codec) && !NoConflict(Claims(After(env, events).store))
    requires c in After(env, events + more).restored
    ensures HeadOf(After(env, events).loads, c)
  {
    var later := After(env, events + more);
    ConflictIsFinal(env, events, more);
    InvAfter(env, events + more);
    assert Known(later.store, later.loads, c);
  }

  ghost predicate Loadable(store: Store) {
    Chain(Claims(store)).Some?
  }

  /**
   Writing a claim keeps the chain loadable exactly when it extends the chain by one or repeats the
   reference that already stands there.  A coordinator that never restored claims sequence 1, so on a
   run that has a chain it spoils the chain unless its bundle is the first one.
   */
  lemma ClaimWriteKeepsChainIff(env: Env, events: seq<Event>, p: string, pick: string, refs: seq<Ref>)
    requires RoundTrips(env.codec) && Proc(After(env, events), p).coordinator.phase.WriteClaim?
    requires Chain(Claims(After(env, events).store)) == Some(refs)
    requires KeyFor(Proc(After(env, events), p).coordinator.phase.claim) !in After(env, events).store.claims
    ensures var c := Proc(After(env, events), p).coordinator.phase.claim;
            && 1 <= c.sequence <= |refs| + 1 && c.sequence == Expected(Proc(After(env, events), p).coordinator.head)
            && (Loadable(Next(env, After(env, events), Work(p, pick)).store)
                <==> c.sequence == |refs| + 1 || refs[c.sequence - 1] == c.checkpoint)
    ensures Proc(After(env, events), p).coordinator.head.None? && refs != [] ==>
              (Loadable(Next(env, After(env, events), Work(p, pick)).store)
               <==> refs[0] == Proc(After(env, events), p).coordinator.phase.claim.checkpoint)
  {
    hide Next, After, Inv, Loadable, Chain, Claims, Proc, Grows, RoundTrips;
    InvAfter(env, events);
    StepKeepsInv(env, After(env, events), Work(p, pick));
    WriteStepIff(env, After(env, events), p, pick, refs);
  }

  lemma WriteStepIff(env: Env, st: State, p: string, pick: string, refs: seq<Ref>)
    requires Inv(env, st) && Inv(env, Next(env, st, Work(p, pick))) && Proc(st, p).coordinator.phase.WriteClaim?
    requires Chain(Claims(st.store)) == Some(refs) && KeyFor(Proc(st, p).coordinator.phase.claim) !in st.store.claims
    ensures var c := Proc(st, p).coordinator.phase.claim;
            && 1 <= c.sequence <= |refs| + 1 && c.sequence == Expected(Proc(st, p).coordinator.head)
            && (Loadable(Next(env, st, Work(p, pick)).store) <==>
                  c.sequence == |refs| + 1 || refs[c.sequence - 1] == c.checkpoint)
  {
    var Process(attempt, me) := Proc(st, p);
    assert ProcOk(env, st.store, st.loads, attempt, me);
    StoreIsLinked(env, st.store);
    StoreIsLinked(env, Next(env, st, Work(p, pick)).store);
    assert Next(env, st, Work(p, pick)).store == Perform(env, st.store, me.head, me.phase, pick).store;
    hide Next, Perform, Inv, Linked, StoreOk, Chain, Known;
    WriteKeepsChainIff(env, st.store, st.loads, attempt, me.head, me.phase.claim, pick, refs);
  }

  /** The same for one write step on any store whose claims are linked before and after it. */
  lemma WriteKeepsChainIff(
      env: Env, store: Store, loads: seq<seq<Ref>>, p: string, head: Option<Claim>, c: Claim, pick: string,
      refs: seq<Ref>)
    requires Linked(Claims(store)) && Chain(Claims(store)) == Some(refs) && KeyFor(c) !in store.claims
    requires head.Some? ==> Known(store, loads, head.value)
    requires Proposed(env, p, head, c)
    requires Linked(Claims(Perform(env, store, head, WriteClaim(c), pick).store))
    ensures 1 <= c.sequence <= |refs| + 1 && c.sequence == Expected(head)
    ensures Loadable(Perform(env, store, head, WriteClaim(c), pick).store)
            <==> c.sequence == |refs| + 1 || refs[c.sequence - 1] == c.checkpoint
  {
    var all := Claims(store);
    if head.Some? { FitsAt(all, refs, head.value); }
    AddedValue(store.claims, KeyFor(c), c);
    assert Claims(Perform(env, store, head, WriteClaim(c), pick).store) == all + {c};
    hide Linked, Chained, NoConflict, Perform, Known;
    ChainIffNoConflict(all + {c});
    OneMoreConflicts(all, refs, c);
  }

  lemma FitsAt(all: set<Claim>, refs: seq<Ref>, c: Claim)
    requires Chained(all, refs) && c in all
    ensures FitsChain(c, refs)
  {
  }

  lemma AddedValue<K, V>(m: map<K, V>, k: K, v: V)
    requires k !in m
    ensures m[k := v].Values == m.Values + {v}
  {
    forall x | x in m.Values + {v} ensures x in m[k := v].Values {
      if x == v {
        assert m[k := v][k] == x;
      } else {
        var j :| j in m && m[j] == x;
        assert m[k := v][j] == x;
      }
    }
  }

  lemma OneMoreConflicts(all: set<Claim>, refs: seq<Ref>, c: Claim)
    requires Chained(all, refs) && 1 <= c.sequence <= |refs| + 1
    ensures NoConflict(all + {c}) <==> c.sequence == |refs| + 1 || refs[c.sequence - 1] == c.checkpoint
  {
    forall d | d in all ensures FitsChain(d, refs) {}
    if c.sequence <= |refs| {
      assert Occupied(all, c.sequence);
      var d :| d in all && d.sequence == c.sequence;
      assert FitsChain(d, refs);
    }
  }

  // ---------------------------------------------------------------------------------------------
  // A run that a coordinator spoils by not restoring

  lemma OneEvent(env: Env, events: seq<Event>, e: Event)
    ensures After(env, events + [e]) == Next(env, After(env, events), e)
  {
    assert (events + [e])[..|events|] == events;
  }

  /** What a coordinator without a head makes of its first boundary. */
  function FirstBundle(env: Env, attempt: string, job: Job): Option<(Bytes, Manifest)>
    requires job.Commit?
  {
    Create(env.codec, MetaFor(env, attempt, None, job), job.payloads)
  }

  function FirstClaim(env: Env, attempt: string, job: Job): Claim
    requires job.Commit? && FirstBundle(env, attempt, job).Some?
  {
    Claim(env.run, attempt, job.boundary, env.plan, None, RefOf(env, FirstBundle(env, attempt, job).value.0),
          job.createdAt)
  }

  ghost predicate CanCommitFirst(env: Env, store: Store, attempt: string, job: Job) {
    && SafeId(attempt) && job.Commit? && job.boundary == 1 && FirstBundle(env, attempt, job).Some?
    && Decode(env.codec, FirstBundle(env, attempt, job).value.0).Some?
    && RefOf(env, FirstBundle(env, attempt, job).value.0).key !in store.objects
    && ClaimKey(1, attempt) !in store.claims
  }

  /** A new coordinator commits its first boundary without restoring, up to the write of its claim. */
  function Unrestored(p: string, attempt: string, job: Job): seq<Event> {
    [Open(p, attempt), Begin(p, job)] + [Work(p, "")] + [Work(p, "")] + [Work(p, "")]
  }

  lemma UnrestoredWrites(env: Env, events: seq<Event>, p: string, attempt: string, job: Job)
    requires CanCommitFirst(env, After(env, events).store, attempt, job)
    ensures var store, bytes := After(env, events).store, FirstBundle(env, attempt, job).value.0;
            After(env, events + Unrestored(p, attempt, job)).store
            == Store(store.objects[RefOf(env, bytes).key := bytes],
                     store.claims[ClaimKey(1, attempt) := FirstClaim(env, attempt, job)])
  {
    hide *;
    var st := After(env, events);
    var e0, e1, w := Open(p, attempt), Begin(p, job), Work(p, "");
    UnrestoredSteps(env, st, p, attempt, job);
    OneEvent(env, events, e0);
    OneEvent(env, events + [e0], e1);
    OneEvent(env, events + [e0] + [e1], w);
    OneEvent(env, events + [e0] + [e1] + [w], w);
    OneEvent(env, events + [e0] + [e1] + [w] + [w], w);
    UnrestoredEvents(events, p, attempt, job);
  }

  lemma UnrestoredEvents(events: seq<Event>, p: string, attempt: string, job: Job)
    ensures events + Unrestored(p, attempt, job)
         == events + [Open(p, attempt)] + [Begin(p, job)] + [Work(p, "")] + [Work(p, "")] + [Work(p, "")]
  {
  }

  lemma UnrestoredSteps(env: Env, st: State, p: string, attempt: string, job: Job)
    requires CanCommitFirst(env, st.store, attempt, job)
    ensures var bytes, w := FirstBundle(env, attempt, job).value.0, Work(p, "");
            var begun := Next(env, Next(env, st, Open(p, attempt)), Begin(p, job));
            Next(env, Next(env, Next(env, begun, w), w), w).store
            == Store(st.store.objects[RefOf(env, bytes).key := bytes],
                     st.store.claims[ClaimKey(1, attempt) := FirstClaim(env, attempt, job)])
  {
    hide Create, Decode, Chain;
    var bytes, claim, w := FirstBundle(env, attempt, job).value.0, FirstClaim(env, attempt, job), Work(p, "");
    var begun := Next(env, Next(env, st, Open(p, attempt)), Begin(p, job));
    assert begun.store == st.store && Proc(begun, p) == Process(attempt, Coordinator(None, WriteBundle(bytes, claim)));
    var stored := Next(env, begun, w);
    assert Proc(stored, p) == Process(attempt, Coordinator(None, ReadBack(bytes, claim)));
    assert stored.store == Store(st.store.objects[claim.checkpoint.key := bytes], st.store.claims);
    var checked := Next(env, stored, w);
    assert checked.store == stored.store && Proc(checked, p) == Process(attempt, Coordinator(None, WriteClaim(claim)));
  }

  /** The two coordinators of an empty run that do so, one after the other, under one pair of bundles. */
  ghost predicate Forking(env: Env, job: Job) {
    && CanCommitFirst(env, INITIAL.store, "attempt-1", job) && CanCommitFirst(env, INITIAL.store, "attempt-2", job)
    && env.codec.sha(FirstBundle(env, "attempt-1", job).value.0)
         != env.codec.sha(FirstBundle(env, "attempt-2", job).value.0)
  }

  lemma ForkedClaims(env: Env, job: Job)
    requires Forking(env, job)
    ensures var first, both := Unrestored("p", "attempt-1", job),
                               Unrestored("p", "attempt-1", job) + Unrestored("q", "attempt-2", job);
            var one, two := FirstClaim(env, "attempt-1", job), FirstClaim(env, "attempt-2", job);
            && After(env, first).store.claims == map[ClaimKey(1, "attempt-1") := one]
            && After(env, both).store.claims == map[ClaimKey(1, "attempt-1") := one, ClaimKey(1, "attempt-2") := two]
  {
    hide Create, Decode, Next, Unrestored, SafeId, CheckpointBundleKey;
    var first := Unrestored("p", "attempt-1", job);
    var one, two := FirstClaim(env, "attempt-1", job), FirstClaim(env, "attempt-2", job);
    assert [] + first == first;
    UnrestoredWrites(env, [], "p", "attempt-1", job);
    CheckpointBundleKeyInjective(env.prefix, env.run, one.checkpoint.sha256, two.checkpoint.sha256);
    UnrestoredWrites(env, first, "q", "attempt-2", job);
  }

  lemma OneClaimAgrees(store: Store, k: ClaimKey, one: Claim)
    requires store.claims == map[k := one]
    ensures NoConflict(Claims(store))
  {
    assert k in store.claims && store.claims[k] == one;
    assert Claims(store) == {one};
  }

  lemma TwoClaimsConflict(store: Store, k: ClaimKey, one: Claim, l: ClaimKey, two: Claim)
    requires k in store.claims && store.claims[k] == one && l in store.claims && store.claims[l] == two
    requires one.sequence == two.sequence && one.checkpoint != two.checkpoint
    ensures !NoConflict(Claims(store))
  {
    assert one in Claims(store) && two in Claims(store);
  }

  /**
   Two coordinators start an empty run without restoring, as the second should have.  After the claim of
   the first the run can be loaded; after the claim of the second it never can be again.
   */
  lemma UnrestoredForks(env: Env, job: Job)
    requires RoundTrips(env.codec) && Forking(env, job)
    ensures var first := After(env, Unrestored("p", "attempt-1", job));
            var both := After(env, Unrestored("p", "attempt-1", job) + Unrestored("q", "attempt-2", job));
            Loadable(first.store) && !NoConflict(Claims(both.store)) && !Loadable(both.store)
  {
    hide After, Unrestored, Create, Decode, NoConflict, Claims, Chain, CheckpointBundleKey;
    var first := Unrestored("p", "attempt-1", job);
    var both := first + Unrestored("q", "attempt-2", job);
    var one, two := FirstClaim(env, "attempt-1", job), FirstClaim(env, "attempt-2", job);
    ForkedClaims(env, job);
    OneClaimAgrees(After(env, first).store, ClaimKey(1, "attempt-1"), one);
    TwoClaimsConflict(After(env, both).store, ClaimKey(1, "attempt-1"), one, ClaimKey(1, "attempt-2"), two);
    LoadableIffNoConflict(env, first);
    LoadableIffNoConflict(env, both);
  }

  // ---------------------------------------------------------------------------------------------
  // What the references stand for

  /** The reference names a stored bundle of that boundary, linked to the one before. */
  ghost predicate NamesBundle(env: Env, objects: map<string, Bytes>, refs: seq<Ref>, n: nat)
    requires 1 <= n <= |refs|
  {
    var raw := ReadReference(env, objects, refs[n - 1]);
    && raw.Some? && Decode(env.codec, raw.value).Some?
    && var meta := Decode(env.codec, raw.value).value.manifest.meta;
       meta.run == env.run && meta.plan == env.plan && meta.boundary == n && meta.previous == Predecessor(refs, n)
  }

  lemma LoadedBundle(env: Env, store: Store, refs: seq<Ref>, n: nat)
    requires StoreOk(env, store) && LoadOk(store, refs) && 1 <= n <= |refs|
    ensures NamesBundle(env, store.objects, refs, n)
  {
    var seen :| seen <= Claims(store) && Chained(seen, refs);
    assert Occupied(seen, n);
    var c :| c in seen && c.sequence == n;
    assert FitsChain(c, refs);
    assert c in Claims(store);
    var k :| k in store.claims && store.claims[k] == c;
    assert ClaimOk(env, store, k);
  }

  /** Lineage: a chain once loaded can be followed bundle by bundle down to the first, at any later time. */
  lemma Lineage(env: Env, events: seq<Event>, i: nat, n: nat)
    requires RoundTrips(env.codec) && i < |After(env, events).loads| && 1 <= n <= |After(env, events).loads[i]|
    ensures NamesBundle(env, After(env, events).store.objects, After(env, events).loads[i], n)
  {
    var st := After(env, events);
    InvAfter(env, events);
    assert LoadOk(st.store, st.loads[i]);
    LoadedBundle(env, st.store, st.loads[i], n);
  }

  /** The bucket shows exactly these claim documents, each at its canonical key. */
  ghost predicate ShowsClaims(cfg: Config, store: Store, objects: map<string, Bytes>, keys: seq<string>) {
    && (forall k :: k in store.claims ==>
          var key := KeyOf(cfg.prefix, store.claims[k]);
          key in keys && key in objects && cfg.parse(objects[key]) == Some(store.claims[k]))
    && (forall key :: key in keys && LooksLikeClaim(key) ==>
          exists k :: k in store.claims && KeyOf(cfg.prefix, store.claims[k]) == key)
  }

  /** On such a bucket the loader reads every claim and can only ever complain of a conflict. */
  lemma LoaderSeesTheClaims(
      env: Env, events: seq<Event>, cfg: Config, objects: map<string, Bytes>, keys: seq<string>)
    requires RoundTrips(env.codec) && cfg.run == env.run && cfg.plan == env.plan && cfg.prefix == env.prefix
    requires ShowsClaims(cfg, After(env, events).store, objects, keys)
    ensures AllReadable(cfg, objects, keys) && Contiguous(ClaimsIn(cfg, objects, keys))
    ensures ClaimsIn(cfg, objects, keys) == Claims(After(env, events).store)
    ensures ListedChain(cfg, objects, keys) == Chain(Claims(After(env, events).store))
  {
    var store := After(env, events).store;
    InvAfter(env, events);
    forall key | key in keys && LooksLikeClaim(key)
      ensures Doc(cfg, objects, key).Ok? && Doc(cfg, objects, key).value in Claims(store)
    {
      var k :| k in store.claims && KeyOf(cfg.prefix, store.claims[k]) == key;
      assert ClaimOk(env, store, k);
    }
    forall c | c in Claims(store) ensures c in ClaimsIn(cfg, objects, keys) {
      var k :| k in store.claims && store.claims[k] == c;
      assert ClaimOk(env, store, k);
      var key := KeyOf(cfg.prefix, c);
      CanonicalKeysLookLikeClaims(cfg.prefix, c.run, c.sequence, c.attempt);
      assert Doc(cfg, objects, key) == Ok(c);
    }
    assert ClaimsIn(cfg, objects, keys) == Claims(store);
    StoreIsLinked(env, store);
    LinkedIsContiguous(Claims(store));
  }
}
