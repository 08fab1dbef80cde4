/** What a coordinator of CheckpointProtocol achieves when no other one works: exactly when it commits and restores. */
module CheckpointRuns {
  import opened Prelude
  import opened ClaimKeys
  import opened Bundle
  import opened CheckpointChain
  import opened CheckpointProtocol
  import opened CheckpointAgreement
  import F = CheckpointFiles

  // ---------------------------------------------------------------------------------------------
  // Restoring

  /** Begins a restore, lists, and reads the bundle of the listed head. */
  function RestoreEvents(p: string, adapter: AdapterSpec, pick: string): seq<Event> {
    [Begin(p, Restore(adapter))] + [Work(p, pick)] + [Work(p, pick)]
  }

  lemma AfterRestore(env: Env, events: seq<Event>, p: string, adapter: AdapterSpec, pick: string)
    ensures var w := Work(p, pick);
            After(env, events + RestoreEvents(p, adapter, pick))
            == Next(env, Next(env, Next(env, After(env, events), Begin(p, Restore(adapter))), w), w)
  {
    hide *;
    var b, w := Begin(p, Restore(adapter)), Work(p, pick);
    OneEvent(env, events, b);
    OneEvent(env, events + [b], w);
    OneEvent(env, events + [b] + [w], w);
    RestoreIsThree(events, p, adapter, pick);
  }

  lemma RestoreIsThree(events: seq<Event>, p: string, adapter: AdapterSpec, pick: string)
    ensures events + RestoreEvents(p, adapter, pick)
         == events + [Begin(p, Restore(adapter))] + [Work(p, pick)] + [Work(p, pick)]
  {
  }

  /** The steps of a restore whose listing finds the target first. */
  lemma RestoreSteps(env: Env, st: State, p: string, adapter: AdapterSpec, pick: string, refs: seq<Ref>, target: Claim)
    requires Proc(st, p).coordinator.phase.Idle? && SafeId(Proc(st, p).attempt)
    requires adapter.resumeMode == Exact || adapter.resumeMode == Boundary
    requires Chain(Claims(st.store)) == Some(refs) && refs != []
    requires ClaimKey(|refs|, pick) in st.store.claims && st.store.claims[ClaimKey(|refs|, pick)] == target
    ensures var w := Work(p, pick);
            var end := Next(env, Next(env, Next(env, st, Begin(p, Restore(adapter))), w), w);
            && end.store == st.store && Proc(end, p).coordinator.phase.Idle?
            && if HeadVerified(env, st.store.objects, adapter, target)
               then end.restored == st.restored + {target} && Proc(end, p).coordinator.head == Some(target)
               else end.restored == st.restored
                    && Proc(end, p).coordinator.head == Proc(st, p).coordinator.head
  {
    hide Chain, Claims, HeadVerified, SafeId;
    var Process(attempt, me) := Proc(st, p);
    var begun := Next(env, st, Begin(p, Restore(adapter)));
    assert Proc(begun, p) == Process(attempt, me.(phase := ListForRestore(adapter)));
    var listed := Next(env, begun, Work(p, pick));
    assert listed.store == st.store
           && Proc(listed, p) == Process(attempt, Coordinator(me.head, ReadHead(adapter, target)));
  }

  /** In a reachable store a head claim and its bundle agree on everything but perhaps the adapter. */
  lemma HeadIsVerified(env: Env, store: Store, adapter: AdapterSpec, k: ClaimKey)
    requires StoreOk(env, store) && k in store.claims
    ensures var c := store.claims[k];
            && c.checkpoint.key in store.objects && Decode(env.codec, store.objects[c.checkpoint.key]).Some?
            && (HeadVerified(env, store.objects, adapter, c) <==>
                  Decode(env.codec, store.objects[c.checkpoint.key]).value.manifest.meta.adapter == adapter)
  {
    assert ClaimOk(env, store, k);
    hide Decode, Create, LinkOk;
  }

  /**
   After any history, a coordinator left to itself restores the head of the chain exactly when its adapter
   resumes, is the one that wrote the head's bundle, and the claims form a chain.
   */
  lemma RestoreAlone(env: Env, events: seq<Event>, p: string, adapter: AdapterSpec, pick: string, refs: seq<Ref>)
    requires RoundTrips(env.codec)
    requires var me := Proc(After(env, events), p); me.coordinator.phase.Idle? && SafeId(me.attempt)
    requires adapter.resumeMode == Exact || adapter.resumeMode == Boundary
    requires Chained(Claims(After(env, events).store), refs) && refs != []
    requires ClaimKey(|refs|, pick) in After(env, events).store.claims
    ensures var st, end := After(env, events), After(env, events + RestoreEvents(p, adapter, pick));
            var target := st.store.claims[ClaimKey(|refs|, pick)];
            && end.store == st.store && Proc(end, p).coordinator.phase.Idle?
            && target.checkpoint == refs[|refs| - 1] && target.checkpoint.key in st.store.objects
            && var bundle := Decode(env.codec, st.store.objects[target.checkpoint.key]);
               && bundle.Some?
               && if bundle.value.manifest.meta.adapter == adapter
                  then end.restored == st.restored + {target} && Proc(end, p).coordinator.head == Some(target)
                  else end.restored == st.restored && Proc(end, p).coordinator.head == Proc(st, p).coordinator.head
  {
    hide Inv, After, Next, Chain, StoreOk, Decode, Proc, HeadVerified, RestoreEvents, RoundTrips, SafeId, Claims;
    var st := After(env, events);
    InvAfter(env, events);
    StoreIsOk(env, st);
    HeadFits(env, st.store, refs, ClaimKey(|refs|, pick));
    HeadIsVerified(env, st.store, adapter, ClaimKey(|refs|, pick));
    RestoreSteps(env, st, p, adapter, pick, refs, st.store.claims[ClaimKey(|refs|, pick)]);
    AfterRestore(env, events, p, adapter, pick);
  }

  /** Any claim at the last sequence names the end of the chain. */
  lemma HeadFits(env: Env, store: Store, refs: seq<Ref>, k: ClaimKey)
    requires StoreOk(env, store) && Chained(Claims(store), refs) && k in store.claims && k.sequence == |refs| >= 1
    ensures Chain(Claims(store)) == Some(refs) && store.claims[k].checkpoint == refs[|refs| - 1]
  {
    ChainIs(Claims(store), refs);
    KeyIsClaims(env, store, k);
    hide Chain, StoreOk;
    assert store.claims[k] in Claims(store);
    assert FitsChain(store.claims[k], refs);
  }

  /** With an adapter that does not resume, nothing is restored. */
  lemma NoRestoreAlone(env: Env, events: seq<Event>, p: string, adapter: AdapterSpec, pick: string)
    requires Proc(After(env, events), p).coordinator.phase.Idle?
    requires adapter.resumeMode == Restart || adapter.resumeMode == Unsupported
    ensures var st, end := After(env, events), After(env, events + RestoreEvents(p, adapter, pick));
            end.store == st.store && end.restored == st.restored && Proc(end, p) == Proc(st, p)
  {
    AfterRestore(env, events, p, adapter, pick);
    hide After, Chain, SafeId, Claims;
  }

  lemma StoreIsOk(env: Env, st: State)
    requires Inv(env, st)
    ensures StoreOk(env, st.store)
  {
    hide StoreOk, LoadsOk, ProcsOk, AllKnown;
  }

  lemma KeyIsClaims(env: Env, store: Store, k: ClaimKey)
    requires StoreOk(env, store) && k in store.claims
    ensures k == KeyFor(store.claims[k])
  {
    assert ClaimOk(env, store, k);
    hide Backed, LinkOk;
  }

  // ---------------------------------------------------------------------------------------------
  // Committing

  /** What a commit makes of its job: the bundle and the claim it will write. */
  function Made(env: Env, attempt: string, head: Option<Claim>, job: Job): Option<(Bytes, Claim)>
    requires job.Commit?
  {
    var meta := Meta(env.run, attempt, job.adapter, env.plan, job.boundary,
                     if head.None? then None else Some(head.value.checkpoint.sha256), job.createdAt);
    match Create(env.codec, meta, job.payloads)
    case None => None
    case Some((bytes, _)) =>
      Some((bytes, Claim(env.run, attempt, job.boundary, env.plan, meta.previous, RefOf(env, bytes), job.createdAt)))
  }

  /** The boundary is the next one, and its bundle can be made, stored and read back. */
  ghost predicate Commitable(env: Env, store: Store, attempt: string, head: Option<Claim>, job: Job)
    requires job.Commit?
  {
    && job.boundary == (if head.None? then 1 else head.value.sequence + 1) && job.boundary <= 9007199254740991
    && Made(env, attempt, head, job).Some?
    && var (bytes, c) := Made(env, attempt, head, job).value;
       && Decode(env.codec, bytes).Some?
       && (c.checkpoint.key in store.objects ==> store.objects[c.checkpoint.key] == bytes)
       && (ClaimKey(c.sequence, attempt) in store.claims ==> store.claims[ClaimKey(c.sequence, attempt)] == c)
  }

  /** The chain ends right before the claim, or already ends with what it names. */
  ghost predicate Fits(store: Store, c: Claim) {
    exists refs :: Chained(Claims(store), refs)
      && (|refs| + 1 == c.sequence || (|refs| == c.sequence >= 1 && refs[c.sequence - 1] == c.checkpoint))
  }

  function CommitEvents(p: string, job: Job): seq<Event> {
    [Begin(p, job)] + [Work(p, "")] + [Work(p, "")] + [Work(p, "")] + [Work(p, "")] + [Work(p, "")]
  }

  ghost function FiveWorks(env: Env, st: State, p: string): State {
    var w := Work(p, "");
    Next(env, Next(env, Next(env, Next(env, Next(env, st, w), w), w), w), w)
  }

  lemma AfterCommit(env: Env, events: seq<Event>, p: string, job: Job)
    ensures After(env, events + CommitEvents(p, job)) == FiveWorks(env, Next(env, After(env, events), Begin(p, job)), p)
  {
    hide After, Next;
    var b, w := Begin(p, job), Work(p, "");
    OneEvent(env, events, b);
    OneEvent(env, events + [b], w);
    OneEvent(env, events + [b] + [w], w);
    OneEvent(env, events + [b] + [w] + [w], w);
    OneEvent(env, events + [b] + [w] + [w] + [w], w);
    OneEvent(env, events + [b] + [w] + [w] + [w] + [w], w);
    assert events + CommitEvents(p, job) == events + [b] + [w] + [w] + [w] + [w] + [w];
  }

  /** A process that has nothing to do does nothing. */
  lemma IdleStays(env: Env, st: State, p: string)
    requires Proc(st, p).coordinator.phase.Idle?
    ensures var end := Next(env, st, Work(p, ""));
            && end.store == st.store && end.committed == st.committed && Proc(end, p) == Proc(st, p)
  {
  }

  /** Writing and checking the bundle. */
  lemma BundleSteps(env: Env, st: State, p: string, bytes: Bytes, c: Claim)
    requires Proc(st, p).coordinator.phase == WriteBundle(bytes, c) && c.checkpoint == RefOf(env, bytes)
    ensures var w := Work(p, "");
            var end := Next(env, Next(env, st, w), w);
            var me := Proc(st, p);
            && end.committed == st.committed
            && if Decode(env.codec, bytes).Some?
                  && (c.checkpoint.key in st.store.objects ==> st.store.objects[c.checkpoint.key] == bytes)
               then && Proc(end, p) == me.(coordinator := me.coordinator.(phase := WriteClaim(c)))
                    && end.store == st.store.(objects := st.store.objects[c.checkpoint.key := bytes])
               else Proc(end, p) == me.(coordinator := me.coordinator.(phase := Idle))
                    && end.store.claims == st.store.claims
  {
    hide Decode, Chain, SafeId, CheckpointBundleKey;
  }

  /** Writing and checking the claim. */
  lemma ClaimSteps(env: Env, st: State, p: string, c: Claim)
    requires Proc(st, p).coordinator.phase == WriteClaim(c)
    ensures var w := Work(p, "");
            var end := Next(env, Next(env, st, w), w);
            var me := Proc(st, p);
            && end.committed == st.committed
            && if KeyFor(c) in st.store.claims ==> st.store.claims[KeyFor(c)] == c
               then && Proc(end, p) == me.(coordinator := me.coordinator.(phase := ListForCommit(c)))
                    && end.store == st.store.(claims := st.store.claims[KeyFor(c) := c])
               else Proc(end, p) == me.(coordinator := me.coordinator.(phase := Idle)) && end.store == st.store
  {
    hide Decode, Chain, SafeId;
  }

  lemma ListStep(env: Env, st: State, p: string, c: Claim)
    requires Proc(st, p).coordinator.phase == ListForCommit(c)
    ensures var end, refs := Next(env, st, Work(p, "")), Chain(Claims(st.store));
            && end.store == st.store && Proc(end, p).coordinator.phase.Idle?
            && if refs.Some? && |refs.value| == c.sequence > 0 && refs.value[c.sequence - 1] == c.checkpoint
               then end.committed == st.committed + {c} && Proc(end, p).coordinator.head == Some(c)
               else end.committed == st.committed
                    && Proc(end, p).coordinator.head == Proc(st, p).coordinator.head
  {
    hide Chain, Claims;
  }

  /** Listing after the claim was added ends with it exactly when it fitted before. */
  lemma FitsExactly(all: set<Claim>, c: Claim)
    requires c.sequence >= 1
    requires forall refs :: Chained(all, refs) && |refs| + 1 >= c.sequence ==>
               c.previous == Predecessor(refs, c.sequence)
    ensures (exists refs :: Chained(all, refs)
               && (|refs| + 1 == c.sequence || (|refs| == c.sequence && refs[c.sequence - 1] == c.checkpoint)))
            <==>
            (Chain(all + {c}).Some? && |Chain(all + {c}).value| == c.sequence
             && Chain(all + {c}).value[c.sequence - 1] == c.checkpoint)
  {
    if refs :| Chained(all, refs)
               && (|refs| + 1 == c.sequence || (|refs| == c.sequence && refs[c.sequence - 1] == c.checkpoint))
    {
      if |refs| + 1 == c.sequence { F.ChainGrows(all, refs, c); } else { RepeatFits(all, refs, c); }
    }
    var chain := Chain(all + {c});
    if chain.Some? && |chain.value| == c.sequence && chain.value[c.sequence - 1] == c.checkpoint {
      WithoutLast(all, chain.value, c);
    }
  }

  lemma RepeatFits(all: set<Claim>, refs: seq<Ref>, c: Claim)
    requires Chained(all, refs) && FitsChain(c, refs)
    ensures Chain(all + {c}) == Some(refs)
  {
    forall d | d in all + {c} ensures FitsChain(d, refs) {
      if d in all { assert FitsChain(d, refs); }
    }
    forall n | 1 <= n <= |refs| ensures Occupied(all + {c}, n) {
      assert Occupied(all, n);
      var d :| d in all && d.sequence == n;
      assert d in all + {c};
    }
    ChainIs(all + {c}, refs);
  }

  /** A chain that ends with the claim is one of the other claims, or of them without its last link. */
  lemma WithoutLast(all: set<Claim>, refs: seq<Ref>, c: Claim)
    requires Chained(all + {c}, refs) && |refs| == c.sequence >= 1
    ensures Chained(all, refs) || Chained(all, refs[..|refs| - 1])
  {
    var shorter := refs[..|refs| - 1];
    forall d | d in all ensures FitsChain(d, refs) && (d.sequence < |refs| ==> FitsChain(d, shorter)) {
      assert d in all + {c};
      assert FitsChain(d, refs);
    }
    forall n | 1 <= n < |refs| ensures Occupied(all, n) {
      assert Occupied(all + {c}, n);
      var d :| d in all + {c} && d.sequence == n;
      assert d in all;
    }
    if Occupied(all, |refs|) {
      assert Chained(all, refs);
    } else {
      assert Chained(all, shorter);
    }
  }

  lemma NothingNew<T>(all: set<T>, c: T)
    requires c in all
    ensures all + {c} == all
  {
  }

  lemma ClaimsWith(store: Store, c: Claim)
    requires KeyFor(c) in store.claims ==> store.claims[KeyFor(c)] == c
    ensures Claims(store.(claims := store.claims[KeyFor(c) := c])) == Claims(store) + {c}
  {
    if KeyFor(c) in store.claims {
      assert c in Claims(store);
      assert store.claims[KeyFor(c) := c] == store.claims;
      NothingNew(Claims(store), c);
    } else {
      AddedValue(store.claims, KeyFor(c), c);
    }
  }

  /** The claim of a commit names the predecessor that the chain has there. */
  lemma PreviousFits(env: Env, st: State, p: string, c: Claim, refs: seq<Ref>)
    requires Inv(env, st) && Chained(Claims(st.store), refs)
    requires c.sequence == Expected(Proc(st, p).coordinator.head)
             && c.previous == Previous(Proc(st, p).coordinator.head)
    ensures |refs| + 1 >= c.sequence && c.previous == Predecessor(refs, c.sequence)
  {
    var me := Proc(st, p);
    if p in st.procs { assert ProcOk(env, st.store, st.loads, me.attempt, me.coordinator); }
    if me.coordinator.head.Some? {
      assert Known(st.store, st.loads, me.coordinator.head.value);
      assert FitsChain(me.coordinator.head.value, refs);
    }
  }

  lemma BeginCommit(env: Env, st: State, p: string, job: Job)
    requires job.Commit? && Proc(st, p).coordinator.phase.Idle? && SafeId(Proc(st, p).attempt)
    ensures var Process(attempt, me) := Proc(st, p);
            var begun := Next(env, st, Begin(p, job));
            && begun.store == st.store && begun.committed == st.committed
            && if job.boundary == Expected(me.head) && job.boundary <= MAX_SAFE_INTEGER
                  && Made(env, attempt, me.head, job).Some?
               then var (bytes, c) := Made(env, attempt, me.head, job).value;
                    && Proc(begun, p) == Process(attempt, me.(phase := WriteBundle(bytes, c)))
                    && c.checkpoint == RefOf(env, bytes) && c.sequence == Expected(me.head) && c.attempt == attempt
                    && c.previous == Previous(me.head)
               else Proc(begun, p) == Process(attempt, me)
  {
    hide Create, SafeId;
  }

  /**
   After any history, a coordinator left to itself commits exactly when the boundary is the next one, its
   bundle can be made, stored and read back, and the claims form a chain that ends right before it, or
   with the very bundle it commits again.
   */
  lemma CommitAlone(env: Env, events: seq<Event>, p: string, job: Job)
    requires RoundTrips(env.codec) && job.Commit?
    requires var me := Proc(After(env, events), p); me.coordinator.phase.Idle? && SafeId(me.attempt)
    ensures var st, end := After(env, events), After(env, events + CommitEvents(p, job));
            var Process(attempt, me) := Proc(st, p);
            && Proc(end, p).coordinator.phase.Idle?
            && if Commitable(env, st.store, attempt, me.head, job)
                  && Fits(st.store, Made(env, attempt, me.head, job).value.1)
               then var (bytes, c) := Made(env, attempt, me.head, job).value;
                    && end.committed == st.committed + {c} && Proc(end, p).coordinator.head == Some(c)
                    && end.store == Store(st.store.objects[c.checkpoint.key := bytes],
                                          st.store.claims[ClaimKey(c.sequence, attempt) := c])
               else end.committed == st.committed && Proc(end, p).coordinator.head == me.head
  {
    var st := After(env, events);
    InvAfter(env, events);
    hide After, Next, SafeId, Create, Decode, Inv, RoundTrips;
    AfterCommit(env, events, p, job);
    CommitSteps(env, st, p, job);
  }

  lemma CommitSteps(env: Env, st: State, p: string, job: Job)
    requires Inv(env, st) && job.Commit? && Proc(st, p).coordinator.phase.Idle? && SafeId(Proc(st, p).attempt)
    ensures var end := FiveWorks(env, Next(env, st, Begin(p, job)), p);
            var Process(attempt, me) := Proc(st, p);
            && Proc(end, p).coordinator.phase.Idle?
            && if Commitable(env, st.store, attempt, me.head, job)
                  && Fits(st.store, Made(env, attempt, me.head, job).value.1)
               then var (bytes, c) := Made(env, attempt, me.head, job).value;
                    && end.committed == st.committed + {c} && Proc(end, p).coordinator.head == Some(c)
                    && end.store == Store(st.store.objects[c.checkpoint.key := bytes],
                                          st.store.claims[ClaimKey(c.sequence, attempt) := c])
               else end.committed == st.committed && Proc(end, p).coordinator.head == me.head
  {
    hide Next, SafeId, Create, Decode, Inv, Chain, Claims, Proc, RefOf, Made, Chained;
    var w := Work(p, "");
    var Process(attempt, me) := Proc(st, p);
    var s0 := Next(env, st, Begin(p, job));
    BeginCommit(env, st, p, job);
    var s2 := Next(env, Next(env, s0, w), w);
    if !Proc(s0, p).coordinator.phase.Idle? {
      var (bytes, c) := Made(env, attempt, me.head, job).value;
      BundleSteps(env, s0, p, bytes, c);
      if !Proc(s2, p).coordinator.phase.Idle? {
        ClaimAndList(env, st, s2, p, c);
      } else {
        StaysIdle(env, s2, p);
      }
    } else {
      IdleStays(env, s0, p);
      IdleStays(env, Next(env, s0, w), p);
      StaysIdle(env, s2, p);
    }
  }

  lemma StaysIdle(env: Env, st: State, p: string)
    requires Proc(st, p).coordinator.phase.Idle?
    ensures var w := Work(p, "");
            var end := Next(env, Next(env, Next(env, st, w), w), w);
            end.committed == st.committed && Proc(end, p) == Proc(st, p) && end.store == st.store
  {
    hide Next, Proc;
    var w := Work(p, "");
    IdleStays(env, st, p);
    IdleStays(env, Next(env, st, w), p);
    IdleStays(env, Next(env, Next(env, st, w), w), p);
  }

  /** The end of a commit whose bundle is stored; the claims are still those of `st`. */
  lemma ClaimAndList(env: Env, st: State, mid: State, p: string, c: Claim)
    requires Inv(env, st) && mid.store.claims == st.store.claims
    requires Proc(mid, p).coordinator == Proc(st, p).coordinator.(phase := WriteClaim(c))
    requires c.sequence == Expected(Proc(st, p).coordinator.head)
             && c.previous == Previous(Proc(st, p).coordinator.head)
    ensures var w := Work(p, "");
            var end := Next(env, Next(env, Next(env, mid, w), w), w);
            && Proc(end, p).coordinator.phase.Idle?
            && if (KeyFor(c) in st.store.claims ==> st.store.claims[KeyFor(c)] == c) && Fits(st.store, c)
               then && end.committed == mid.committed + {c} && Proc(end, p).coordinator.head == Some(c)
                    && end.store == mid.store.(claims := mid.store.claims[KeyFor(c) := c])
               else end.committed == mid.committed && Proc(end, p).coordinator.head == Proc(st, p).coordinator.head
  {
    hide Next, Inv, Chain, Chained, Claims, Proc;
    var w := Work(p, "");
    ClaimSteps(env, mid, p, c);
    var written := Next(env, Next(env, mid, w), w);
    if Proc(written, p).coordinator.phase.Idle? {
      IdleStays(env, written, p);
    } else {
      ListStep(env, written, p, c);
      ClaimsWith(mid.store, c);
      SameClaims(st.store, mid.store);
      forall refs | Chained(Claims(st.store), refs) && |refs| + 1 >= c.sequence
        ensures c.previous == Predecessor(refs, c.sequence)
      {
        PreviousFits(env, st, p, c, refs);
      }
      FitsExactly(Claims(st.store), c);
    }
  }

  lemma SameClaims(store: Store, other: Store)
    requires other.claims == store.claims
    ensures Claims(other) == Claims(store)
  {
  }
}
