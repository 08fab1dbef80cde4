/**
 Any number of checkpoint coordinators of one run and plan over one shared object store.

 Each phase performs at most one store operation.  A listing and the reads of the listed claims count
 as one operation: claims are never removed or changed, so what is read is what was listed.
 The pointer hint is left out here because no coordinator ever reads it.
 */
module CheckpointProtocol {
  import opened Prelude
  import opened ClaimKeys
  import opened Bundle
  import opened CheckpointChain

  datatype Env = Env(codec: Codec, bucket: string, prefix: string, run: string, plan: string)

  datatype ClaimKey = ClaimKey(sequence: nat, attempt: string)

  datatype Job =
    | Restore(adapter: AdapterSpec)
    | Commit(adapter: AdapterSpec, boundary: nat, payloads: seq<Payload>, createdAt: int)

  /** Where a coordinator stands between two store operations. */
  datatype Phase =
    | Idle
    | ListForRestore(adapter: AdapterSpec)
    | ReadHead(adapter: AdapterSpec, target: Claim)
    | WriteBundle(bytes: Bytes, claim: Claim)
    | ReadBack(bytes: Bytes, claim: Claim)
    | WriteClaim(claim: Claim)
    | ReadClaim(claim: Claim)
    | ListForCommit(claim: Claim)

  datatype Coordinator = Coordinator(head: Option<Claim>, phase: Phase)

  /** A live coordinator object and its attempt id, which other live objects may share. */
  datatype Process = Process(attempt: string, coordinator: Coordinator)

  datatype Store = Store(objects: map<string, Bytes>, claims: map<ClaimKey, Claim>)

  /** Histories that no coordinator reads: the chains loaded so far and the commits that returned. */
  datatype State = State(
    store: Store, procs: map<string, Process>, loads: seq<seq<Ref>>, committed: set<Claim>, restored: set<Claim>)

  const INITIAL := State(Store(map[], map[]), map[], [], {}, {})
  const FRESH := Coordinator(None, Idle)
  const ABSENT := Process("", FRESH)

  function Proc(st: State, p: string): Process {
    if p in st.procs then st.procs[p] else ABSENT
  }

  function RefOf(env: Env, bytes: Bytes): Ref {
    Ref(env.bucket, CheckpointBundleKey(env.prefix, env.run, env.codec.sha(bytes)), env.codec.sha(bytes), |bytes|)
  }

  function KeyFor(c: Claim): ClaimKey {
    ClaimKey(c.sequence, c.attempt)
  }

  function Expected(head: Option<Claim>): nat {
    if head.None? then 1 else head.value.sequence + 1
  }

  function Previous(head: Option<Claim>): Option<string> {
    if head.None? then None else Some(head.value.checkpoint.sha256)
  }

  function MetaFor(env: Env, p: string, head: Option<Claim>, job: Job): Meta
    requires job.Commit?
  {
    Meta(env.run, p, job.adapter, env.plan, job.boundary, Previous(head), job.createdAt)
  }

  /** What a coordinator does before its first store operation. */
  function Start(env: Env, p: string, head: Option<Claim>, job: Job): Phase {
    match job
    case Restore(adapter) =>
      if adapter.resumeMode.Restart? || adapter.resumeMode.Unsupported? then Idle else ListForRestore(adapter)
    case Commit(adapter, boundary, payloads, createdAt) =>
      if boundary != Expected(head) || boundary > MAX_SAFE_INTEGER then Idle
      else
        var made := Create(env.codec, MetaFor(env, p, head, job), payloads);
        if made.None? then Idle
        else
          var bytes := made.value.0;
          WriteBundle(bytes, Claim(env.run, p, boundary, env.plan, Previous(head), RefOf(env, bytes), createdAt))
  }

  function ReadReference(env: Env, objects: map<string, Bytes>, ref: Ref): Option<Bytes> {
    if ref.bucket != env.bucket || ref.key !in objects then None
    else
      var raw := objects[ref.key];
      if |raw| != ref.bytes || env.codec.sha(raw) != ref.sha256 then None else Some(raw)
  }

  /** The checks between the head claim of a chain and the bundle it names. */
  ghost predicate HeadVerified(env: Env, objects: map<string, Bytes>, adapter: AdapterSpec, target: Claim) {
    var raw := ReadReference(env, objects, target.checkpoint);
    && raw.Some? && Decode(env.codec, raw.value).Some?
    && var meta := Decode(env.codec, raw.value).value.manifest.meta;
       && meta.run == env.run && meta.plan == env.plan && meta.adapter == adapter
       && meta.boundary == target.sequence && meta.previous == target.previous
  }

  ghost function Claims(store: Store): set<Claim> {
    store.claims.Values
  }

  datatype Effect = Effect(store: Store, proc: Coordinator, loads: seq<seq<Ref>>, committed: set<Claim>,
                           restored: set<Claim>)

  function Quiet(store: Store, proc: Coordinator): Effect {
    Effect(store, proc, [], {}, {})
  }

  /**
   The one store operation of a phase.  `pick` names the attempt whose claim the listing happened to
   put first among the claims of the head sequence.
   */
  ghost function Perform(env: Env, store: Store, head: Option<Claim>, phase: Phase, pick: string): Effect {
    var failed := Quiet(store, Coordinator(head, Idle));
    match phase
    case Idle => failed
    case ListForRestore(adapter) =>
      (match Chain(Claims(store))
       case None => failed
       case Some(refs) =>
         var key := ClaimKey(|refs|, pick);
         if refs == [] then Effect(store, Coordinator(head, Idle), [refs], {}, {})
         else if key in store.claims
           then Effect(store, Coordinator(head, ReadHead(adapter, store.claims[key])), [refs], {}, {})
         else Quiet(store, Coordinator(head, phase)))
    case ReadHead(adapter, target) =>
      if HeadVerified(env, store.objects, adapter, target)
      then Effect(store, Coordinator(Some(target), Idle), [], {}, {target})
      else failed
    case WriteBundle(bytes, claim) =>
      var key := claim.checkpoint.key;
      if key in store.objects && store.objects[key] != bytes then failed
      else Quiet(store.(objects := store.objects[key := bytes]), Coordinator(head, ReadBack(bytes, claim)))
    case ReadBack(bytes, claim) =>
      var raw := ReadReference(env, store.objects, claim.checkpoint);
      if raw.Some? && Decode(env.codec, raw.value).Some?
        then Quiet(store, Coordinator(head, WriteClaim(claim)))
        else failed
    case WriteClaim(claim) =>
      var key := KeyFor(claim);
      if key in store.claims && store.claims[key] != claim then failed
      else Quiet(store.(claims := store.claims[key := claim]), Coordinator(head, ReadClaim(claim)))
    case ReadClaim(claim) =>
      var key := KeyFor(claim);
      if key in store.claims && store.claims[key] == claim
        then Quiet(store, Coordinator(head, ListForCommit(claim)))
        else failed
    case ListForCommit(claim) =>
      (match Chain(Claims(store))
       case None => failed
       case Some(refs) =>
         if |refs| == claim.sequence && claim.sequence > 0 && refs[|refs| - 1] == claim.checkpoint
         then Effect(store, Coordinator(Some(claim), Idle), [refs], {claim}, {})
         else Effect(store, Coordinator(head, Idle), [refs], {}, {}))
  }

  /** An operation may also fail, whether or not the store had applied it. */
  datatype Event =
    | Open(proc: string, attempt: string)
    | Begin(proc: string, job: Job)
    | Work(proc: string, pick: string)
    | Fail(proc: string, pick: string, applied: bool)

  /** Opening a process that exists replaces it: the old one crashed. */
  ghost function Next(env: Env, st: State, e: Event): State {
    var p := e.proc;
    var Process(attempt, me) := Proc(st, p);
    match e
    case Open(_, a) => st.(procs := st.procs[p := Process(a, FRESH)])
    case Begin(_, job) =>
      if me.phase.Idle? && SafeId(attempt)
      then st.(procs := st.procs[p := Process(attempt, me.(phase := Start(env, attempt, me.head, job)))])
      else st
    case Work(_, pick) =>
      var eff := Perform(env, st.store, me.head, me.phase, pick);
      State(eff.store, st.procs[p := Process(attempt, eff.proc)], st.loads + eff.loads,
            st.committed + eff.committed, st.restored + eff.restored)
    case Fail(_, pick, applied) =>
      var eff := Perform(env, st.store, me.head, me.phase, pick);
      st.(store := if applied then eff.store else st.store,
          procs := st.procs[p := Process(attempt, me.(phase := Idle))])
  }

  ghost function After(env: Env, events: seq<Event>): State {
    if events == [] then INITIAL else Next(env, After(env, events[..|events| - 1]), events[|events| - 1])
  }

  // ---------------------------------------------------------------------------------------------
  // Chains of linked claims

  /** Every claim links to some claim of the sequence before it. */
  ghost predicate LinkOk(all: set<Claim>, c: Claim) {
    && c.sequence >= 1
    && if c.sequence == 1 then c.previous == None
       else exists d :: d in all && d.sequence + 1 == c.sequence && c.previous == Some(d.checkpoint.sha256)
  }

  ghost predicate Linked(all: set<Claim>) {
    forall c {:trigger LinkOk(all, c)} :: c in all ==> LinkOk(all, c)
  }

  ghost predicate NoConflict(all: set<Claim>) {
    forall c, d :: c in all && d in all && c.sequence == d.sequence ==> c.checkpoint == d.checkpoint
  }

  lemma LinkedIsContiguous(all: set<Claim>)
    requires Linked(all)
    ensures Contiguous(all)
  {
    forall c | c in all ensures c.sequence >= 1 && (c.sequence == 1 || Occupied(all, c.sequence - 1)) {
      assert LinkOk(all, c);
    }
  }

  ghost function Highest(all: set<Claim>): (n: nat)
    ensures forall c :: c in all ==> c.sequence <= n
    ensures n == 0 || Occupied(all, n)
  {
    if all == {} then 0
    else
      var c :| c in all;
      var rest := Highest(all - {c});
      assert rest == 0 || Occupied(all, rest);
      assert forall d :: d in all ==> d == c || d in all - {c};
      if c.sequence > rest then c.sequence else rest
  }

  ghost predicate ChainedUpTo(all: set<Claim>, n: nat, refs: seq<Ref>) {
    && |refs| == n
    && (forall c :: c in all && c.sequence <= n ==> FitsChain(c, refs))
    && (forall k :: 1 <= k <= n ==> Occupied(all, k))
  }

  lemma {:induction false} ChainUpTo(all: set<Claim>, n: nat) returns (refs: seq<Ref>)
    requires Linked(all) && NoConflict(all) && (n == 0 || Occupied(all, n))
    ensures ChainedUpTo(all, n, refs)
  {
    refs := [];
    if n == 0 {
      forall c | c in all ensures c.sequence > 0 { assert LinkOk(all, c); }
    } else {
      var c :| c in all && c.sequence == n;
      assert LinkOk(all, c);
      var before := ChainUpTo(all, n - 1);
      refs := before + [c.checkpoint];
      forall d | d in all && d.sequence <= n ensures FitsChain(d, refs) {
        LinkFits(all, before, c, d);
      }
    }
  }

  lemma LinkFits(all: set<Claim>, before: seq<Ref>, top: Claim, c: Claim)
    requires Linked(all) && NoConflict(all) && ChainedUpTo(all, |before|, before)
    requires top in all && top.sequence == |before| + 1 && c in all && c.sequence <= |before| + 1
    ensures FitsChain(c, before + [top.checkpoint])
  {
    if c.sequence <= |before| {
      assert FitsChain(c, before);
    } else {
      assert LinkOk(all, c);
      if c.sequence > 1 {
        var d :| d in all && d.sequence + 1 == c.sequence && c.previous == Some(d.checkpoint.sha256);
        assert FitsChain(d, before);
      }
    }
  }

  /** Among linked claims, a conflict is the only thing that can spoil a chain. */
  lemma ChainIffNoConflict(all: set<Claim>)
    requires Linked(all)
    ensures Chain(all).Some? <==> NoConflict(all)
  {
    if Chain(all).Some? {
      forall c, d | c in all && d in all && c.sequence == d.sequence ensures c.checkpoint == d.checkpoint {
        assert FitsChain(c, Chain(all).value) && FitsChain(d, Chain(all).value);
      }
    }
    if NoConflict(all) {
      var refs := ChainUpTo(all, Highest(all));
      assert Chained(all, refs);
    }
  }

  // ---------------------------------------------------------------------------------------------
  // The invariant

  /** The bundle is stored where the reference says, and its manifest agrees with the claim. */
  ghost predicate Backed(env: Env, objects: map<string, Bytes>, c: Claim) {
    && c.checkpoint.key in objects && c.checkpoint == RefOf(env, objects[c.checkpoint.key])
    && var v := Decode(env.codec, objects[c.checkpoint.key]);
       v.Some? && Describes(env, v.value.manifest.meta, c)
  }

  predicate Describes(env: Env, meta: Meta, c: Claim) {
    meta.run == env.run && meta.plan == env.plan && meta.boundary == c.sequence && meta.previous == c.previous
  }

  ghost predicate ClaimOk(env: Env, store: Store, k: ClaimKey)
    requires k in store.claims
  {
    var c := store.claims[k];
    k == KeyFor(c) && c.run == env.run && c.plan == env.plan && SafeId(c.attempt) && c.sequence <= MAX_SAFE_INTEGER
    && Backed(env, store.objects, c) && LinkOk(Claims(store), c)
  }

  ghost predicate StoreOk(env: Env, store: Store) {
    forall k {:trigger ClaimOk(env, store, k)} :: k in store.claims ==> ClaimOk(env, store, k)
  }

  /** The claim is the last one of a chain that was loaded. */
  ghost predicate HeadOf(loads: seq<seq<Ref>>, c: Claim) {
    exists i :: 0 <= i < |loads| && |loads[i]| == c.sequence >= 1 && loads[i][c.sequence - 1] == c.checkpoint
  }

  ghost predicate Known(store: Store, loads: seq<seq<Ref>>, c: Claim) {
    c in Claims(store) && HeadOf(loads, c)
  }

  /** A claim about to be written follows the coordinator's head. */
  ghost predicate Proposed(env: Env, p: string, head: Option<Claim>, c: Claim) {
    && c.run == env.run && c.plan == env.plan && c.attempt == p && SafeId(p) && c.sequence <= MAX_SAFE_INTEGER
    && c.sequence == Expected(head) && c.previous == Previous(head)
  }

  ghost predicate Bundled(env: Env, bytes: Bytes, c: Claim) {
    && c.checkpoint == RefOf(env, bytes)
    && (Decode(env.codec, bytes).Some? ==> Describes(env, Decode(env.codec, bytes).value.manifest.meta, c))
  }

  ghost predicate ProcOk(env: Env, store: Store, loads: seq<seq<Ref>>, p: string, proc: Coordinator) {
    && (proc.head.Some? ==> Known(store, loads, proc.head.value))
    && match proc.phase
       case Idle => true
       case ListForRestore(_) => true
       case ReadHead(_, target) => Known(store, loads, target)
       case WriteBundle(bytes, c) => Proposed(env, p, proc.head, c) && Bundled(env, bytes, c)
       case ReadBack(bytes, c) =>
         Proposed(env, p, proc.head, c) && Bundled(env, bytes, c)
         && c.checkpoint.key in store.objects && store.objects[c.checkpoint.key] == bytes
       case WriteClaim(c) => Proposed(env, p, proc.head, c) && Backed(env, store.objects, c)
       case ReadClaim(c) => c in Claims(store)
       case ListForCommit(c) => c in Claims(store)
  }

  /** Every chain loaded so far is a chain of some of today's claims. */
  ghost predicate LoadOk(store: Store, refs: seq<Ref>) {
    exists seen :: seen <= Claims(store) && Chained(seen, refs)
  }

  ghost predicate LoadsOk(store: Store, loads: seq<seq<Ref>>) {
    && (forall i {:trigger LoadOk(store, loads[i])} :: 0 <= i < |loads| ==> LoadOk(store, loads[i]))
    && (forall i, j :: 0 <= i <= j < |loads| ==> loads[i] <= loads[j])
  }

  ghost predicate AllKnown(store: Store, loads: seq<seq<Ref>>, claims: set<Claim>) {
    forall c {:trigger Known(store, loads, c)} :: c in claims ==> Known(store, loads, c)
  }

  ghost predicate ProcsOk(env: Env, st: State) {
    forall p {:trigger st.procs[p]} :: p in st.procs ==>
      ProcOk(env, st.store, st.loads, st.procs[p].attempt, st.procs[p].coordinator)
  }

  ghost predicate Inv(env: Env, st: State) {
    && StoreOk(env, st.store) && LoadsOk(st.store, st.loads) && ProcsOk(env, st)
    && AllKnown(st.store, st.loads, st.committed) && AllKnown(st.store, st.loads, st.restored)
  }

  /** Objects and claims are only ever added. */
  predicate Extends(store: Store, store': Store) {
    && (forall k :: k in store.objects ==> k in store'.objects && store'.objects[k] == store.objects[k])
    && (forall k :: k in store.claims ==> k in store'.claims && store'.claims[k] == store.claims[k])
  }

  ghost predicate Sound(env: Env, store: Store, loads: seq<seq<Ref>>, p: string, eff: Effect) {
    var loads' := loads + eff.loads;
    && Extends(store, eff.store) && StoreOk(env, eff.store) && LoadsOk(eff.store, loads')
    && ProcOk(env, eff.store, loads', p, eff.proc)
    && AllKnown(eff.store, loads', eff.committed) && AllKnown(eff.store, loads', eff.restored)
  }

  // ---------------------------------------------------------------------------------------------
  // What growth preserves

  lemma ClaimsGrow(store: Store, store': Store)
    requires Extends(store, store')
    ensures Claims(store) <= Claims(store')
  {
    forall c | c in Claims(store) ensures c in Claims(store') {
      var k :| k in store.claims && store.claims[k] == c;
      assert store'.claims[k] == c;
    }
  }

  lemma KnownGrows(store: Store, store': Store, loads: seq<seq<Ref>>, more: seq<seq<Ref>>, c: Claim)
    requires Extends(store, store') && Known(store, loads, c)
    ensures Known(store', loads + more, c)
  {
    ClaimsGrow(store, store');
    var i :| 0 <= i < |loads| && |loads[i]| == c.sequence >= 1 && loads[i][c.sequence - 1] == c.checkpoint;
    assert (loads + more)[i] == loads[i];
  }

  lemma AllKnownGrows(store: Store, store': Store, loads: seq<seq<Ref>>, more: seq<seq<Ref>>, claims: set<Claim>)
    requires Extends(store, store') && AllKnown(store, loads, claims)
    ensures AllKnown(store', loads + more, claims)
  {
    forall c | c in claims ensures Known(store', loads + more, c) {
      assert Known(store, loads, c);
      KnownGrows(store, store', loads, more, c);
    }
  }

  lemma ProcGrows(
      env: Env, store: Store, store': Store, loads: seq<seq<Ref>>, more: seq<seq<Ref>>, p: string, proc: Coordinator)
    requires Extends(store, store') && ProcOk(env, store, loads, p, proc)
    ensures ProcOk(env, store', loads + more, p, proc)
  {
    ClaimsGrow(store, store');
    if proc.head.Some? { KnownGrows(store, store', loads, more, proc.head.value); }
    if proc.phase.ReadHead? { KnownGrows(store, store', loads, more, proc.phase.target); }
  }

  lemma LoadsGrow(store: Store, store': Store, loads: seq<seq<Ref>>)
    requires Extends(store, store') && LoadsOk(store, loads)
    ensures LoadsOk(store', loads)
  {
    ClaimsGrow(store, store');
    forall i | 0 <= i < |loads| ensures LoadOk(store', loads[i]) {
      assert LoadOk(store, loads[i]);
      var seen :| seen <= Claims(store) && Chained(seen, loads[i]);
      assert seen <= Claims(store');
    }
  }

  /** Loading the present chain keeps every earlier load a prefix of the latest. */
  lemma LoadAdded(store: Store, loads: seq<seq<Ref>>, refs: seq<Ref>)
    requires LoadsOk(store, loads) && Chain(Claims(store)) == Some(refs)
    ensures LoadsOk(store, loads + [refs])
  {
    var all := loads + [refs];
    assert LoadOk(store, refs);
    forall i | 0 <= i < |all| ensures LoadOk(store, all[i]) && all[i] <= refs {
      if i < |loads| {
        assert LoadOk(store, loads[i]);
        var seen :| seen <= Claims(store) && Chained(seen, loads[i]);
        ChainExtends(seen, Claims(store), loads[i], refs);
      }
    }
  }

  // ---------------------------------------------------------------------------------------------
  // The steps

  /** A step that writes nothing and observes nothing only has to justify its phase. */
  lemma QuietSound(env: Env, store: Store, loads: seq<seq<Ref>>, p: string, proc: Coordinator)
    requires StoreOk(env, store) && LoadsOk(store, loads) && ProcOk(env, store, loads, p, proc)
    ensures Sound(env, store, loads, p, Quiet(store, proc))
  {
    assert loads + [] == loads;
  }

  /** Observing the present chain, and possibly that some claim is its head. */
  lemma ObserveSound(
      env: Env, store: Store, loads: seq<seq<Ref>>, p: string, refs: seq<Ref>, proc: Coordinator, done: set<Claim>)
    requires StoreOk(env, store) && LoadsOk(store, loads) && Chain(Claims(store)) == Some(refs)
    requires ProcOk(env, store, loads + [refs], p, proc) && AllKnown(store, loads + [refs], done)
    ensures Sound(env, store, loads, p, Effect(store, proc, [refs], done, {}))
  {
    LoadAdded(store, loads, refs);
  }

  lemma LastIsHead(loads: seq<seq<Ref>>, refs: seq<Ref>, c: Claim)
    requires |refs| == c.sequence >= 1 && refs[c.sequence - 1] == c.checkpoint
    ensures HeadOf(loads + [refs], c)
  {
    assert (loads + [refs])[|loads|] == refs;
  }

  lemma PickedIsHead(env: Env, store: Store, loads: seq<seq<Ref>>, refs: seq<Ref>, key: ClaimKey)
    requires StoreOk(env, store) && Chained(Claims(store), refs) && refs != []
    requires key in store.claims && key.sequence == |refs|
    ensures Known(store, loads + [refs], store.claims[key])
  {
    assert ClaimOk(env, store, key);
    assert FitsChain(store.claims[key], refs);
    LastIsHead(loads, refs, store.claims[key]);
  }

  lemma ListForRestoreSound(
      env: Env, store: Store, loads: seq<seq<Ref>>, p: string, head: Option<Claim>, phase: Phase, pick: string)
    requires StoreOk(env, store) && LoadsOk(store, loads) && ProcOk(env, store, loads, p, Coordinator(head, phase))
    requires phase.ListForRestore?
    ensures Sound(env, store, loads, p, Perform(env, store, head, phase, pick))
  {
    var eff := Perform(env, store, head, phase, pick);
    if eff.loads == [] {
      QuietSound(env, store, loads, p, eff.proc);
    } else {
      var refs := Chain(Claims(store)).value;
      ProcGrows(env, store, store, loads, [refs], p, Coordinator(head, Idle));
      if eff.proc.phase.ReadHead? {
        PickedIsHead(env, store, loads, refs, ClaimKey(|refs|, pick));
      }
      ObserveSound(env, store, loads, p, refs, eff.proc, {});
    }
  }

  lemma ListForCommitSound(
      env: Env, store: Store, loads: seq<seq<Ref>>, p: string, head: Option<Claim>, phase: Phase, pick: string)
    requires StoreOk(env, store) && LoadsOk(store, loads) && ProcOk(env, store, loads, p, Coordinator(head, phase))
    requires phase.ListForCommit?
    ensures Sound(env, store, loads, p, Perform(env, store, head, phase, pick))
  {
    var eff := Perform(env, store, head, phase, pick);
    if eff.loads == [] {
      QuietSound(env, store, loads, p, eff.proc);
    } else {
      var refs := Chain(Claims(store)).value;
      ProcGrows(env, store, store, loads, [refs], p, Coordinator(head, Idle));
      if eff.committed != {} { LastIsHead(loads, refs, phase.claim); }
      ObserveSound(env, store, loads, p, refs, eff.proc, eff.committed);
    }
  }

  lemma ReadHeadSound(
      env: Env, store: Store, loads: seq<seq<Ref>>, p: string, head: Option<Claim>, phase: Phase, pick: string)
    requires StoreOk(env, store) && LoadsOk(store, loads) && ProcOk(env, store, loads, p, Coordinator(head, phase))
    requires phase.ReadHead?
    ensures Sound(env, store, loads, p, Perform(env, store, head, phase, pick))
  {
    assert loads + [] == loads;
  }

  lemma BundleAdded(env: Env, store: Store, store': Store)
    requires StoreOk(env, store) && Extends(store, store') && store'.claims == store.claims
    ensures StoreOk(env, store')
  {
    forall k | k in store'.claims ensures ClaimOk(env, store', k) {
      assert ClaimOk(env, store, k);
    }
  }

  lemma WriteBundleSound(
      env: Env, store: Store, loads: seq<seq<Ref>>, p: string, head: Option<Claim>, phase: Phase, pick: string)
    requires StoreOk(env, store) && LoadsOk(store, loads) && ProcOk(env, store, loads, p, Coordinator(head, phase))
    requires phase.WriteBundle?
    ensures Sound(env, store, loads, p, Perform(env, store, head, phase, pick))
  {
    var eff := Perform(env, store, head, phase, pick);
    var store' := eff.store;
    assert Extends(store, store') && store'.claims == store.claims;
    BundleAdded(env, store, store');
    LoadsGrow(store, store', loads);
    ProcGrows(env, store, store', loads, [], p, Coordinator(head, Idle));
    assert loads + [] == loads;
    hide StoreOk, LoadsOk, Decode;
  }

  lemma ReadBackSound(
      env: Env, store: Store, loads: seq<seq<Ref>>, p: string, head: Option<Claim>, phase: Phase, pick: string)
    requires StoreOk(env, store) && LoadsOk(store, loads) && ProcOk(env, store, loads, p, Coordinator(head, phase))
    requires phase.ReadBack? || phase.ReadClaim? || phase.Idle?
    ensures Sound(env, store, loads, p, Perform(env, store, head, phase, pick))
  {
    QuietSound(env, store, loads, p, Perform(env, store, head, phase, pick).proc);
  }

  lemma ClaimOkGrows(env: Env, store: Store, store': Store, k: ClaimKey)
    requires k in store.claims && ClaimOk(env, store, k) && Extends(store, store') && store'.objects == store.objects
    ensures ClaimOk(env, store', k)
  {
    ClaimsGrow(store, store');
    LinkGrows(Claims(store), Claims(store'), store.claims[k]);
  }

  /** The new claim links to the head it was proposed on. */
  lemma ClaimAdded(env: Env, store: Store, store': Store, p: string, head: Option<Claim>, c: Claim)
    requires StoreOk(env, store) && Proposed(env, p, head, c) && Backed(env, store.objects, c)
    requires head.Some? ==> head.value in Claims(store) && head.value.sequence >= 1
    requires KeyFor(c) in store.claims ==> store.claims[KeyFor(c)] == c
    requires store' == store.(claims := store.claims[KeyFor(c) := c])
    ensures Extends(store, store') && StoreOk(env, store') && c in Claims(store')
  {
    assert store'.claims[KeyFor(c)] == c;
    ClaimsGrow(store, store');
    ProposedLinks(env, store', p, head, c);
    forall k | k in store'.claims ensures ClaimOk(env, store', k) {
      if k != KeyFor(c) {
        assert ClaimOk(env, store, k);
        ClaimOkGrows(env, store, store', k);
      }
    }
  }

  lemma LinkGrows(all: set<Claim>, more: set<Claim>, c: Claim)
    requires all <= more && LinkOk(all, c)
    ensures LinkOk(more, c)
  {
    if c.sequence != 1 {
      var d :| d in all && d.sequence + 1 == c.sequence && c.previous == Some(d.checkpoint.sha256);
      assert d in more;
    }
  }

  lemma ProposedLinks(env: Env, store: Store, p: string, head: Option<Claim>, c: Claim)
    requires Proposed(env, p, head, c) && (head.Some? ==> head.value in Claims(store) && head.value.sequence >= 1)
    ensures LinkOk(Claims(store), c)
  {
  }

  lemma WriteClaimSound(
      env: Env, store: Store, loads: seq<seq<Ref>>, p: string, head: Option<Claim>, phase: Phase, pick: string)
    requires StoreOk(env, store) && LoadsOk(store, loads) && ProcOk(env, store, loads, p, Coordinator(head, phase))
    requires phase.WriteClaim?
    ensures Sound(env, store, loads, p, Perform(env, store, head, phase, pick))
  {
    var eff := Perform(env, store, head, phase, pick);
    if eff.proc.phase.Idle? {
      QuietSound(env, store, loads, p, eff.proc);
    } else {
      ClaimAdded(env, store, eff.store, p, head, phase.claim);
      LoadsGrow(store, eff.store, loads);
      ProcGrows(env, store, eff.store, loads, [], p, Coordinator(head, Idle));
      assert loads + [] == loads;
    }
  }

  lemma PerformSound(env: Env, store: Store, loads: seq<seq<Ref>>, p: string, proc: Coordinator, pick: string)
    requires StoreOk(env, store) && LoadsOk(store, loads) && ProcOk(env, store, loads, p, proc)
    ensures Sound(env, store, loads, p, Perform(env, store, proc.head, proc.phase, pick))
  {
    match proc.phase
    case ListForRestore(_) => ListForRestoreSound(env, store, loads, p, proc.head, proc.phase, pick);
    case ListForCommit(_) => ListForCommitSound(env, store, loads, p, proc.head, proc.phase, pick);
    case ReadHead(_, _) => ReadHeadSound(env, store, loads, p, proc.head, proc.phase, pick);
    case WriteBundle(_, _) => WriteBundleSound(env, store, loads, p, proc.head, proc.phase, pick);
    case WriteClaim(_) => WriteClaimSound(env, store, loads, p, proc.head, proc.phase, pick);
    case _ => ReadBackSound(env, store, loads, p, proc.head, proc.phase, pick);
  }

  lemma StartSound(env: Env, store: Store, loads: seq<seq<Ref>>, p: string, proc: Coordinator, job: Job)
    requires RoundTrips(env.codec) && ProcOk(env, store, loads, p, proc) && SafeId(p)
    ensures ProcOk(env, store, loads, p, proc.(phase := Start(env, p, proc.head, job)))
  {
    var next := Start(env, p, proc.head, job);
    if next.WriteBundle? && Decode(env.codec, next.bytes).Some? {
      CreatedDecodesOnlyIf(env.codec, MetaFor(env, p, proc.head, job), job.payloads);
      CreatedDecodes(env.codec, MetaFor(env, p, proc.head, job), job.payloads);
    }
  }

  ghost predicate Grows(st: State, st': State) {
    Extends(st.store, st'.store) && st.loads <= st'.loads && st.committed <= st'.committed
    && st.restored <= st'.restored
  }

  /** One process moves on, and the others are not disturbed. */
  lemma ProcsMove(env: Env, st: State, p: string, store: Store, more: seq<seq<Ref>>, proc: Process)
    requires ProcsOk(env, st) && Extends(st.store, store)
    requires ProcOk(env, store, st.loads + more, proc.attempt, proc.coordinator)
    ensures ProcsOk(env, st.(store := store, loads := st.loads + more, procs := st.procs[p := proc]))
  {
    forall q | q in st.procs && q != p
      ensures ProcOk(env, store, st.loads + more, st.procs[q].attempt, st.procs[q].coordinator)
    {
      ProcGrows(env, st.store, store, st.loads, more, st.procs[q].attempt, st.procs[q].coordinator);
    }
  }

  lemma WorkKeepsInv(env: Env, st: State, p: string, pick: string)
    requires RoundTrips(env.codec) && Inv(env, st)
    ensures Inv(env, Next(env, st, Work(p, pick))) && Grows(st, Next(env, st, Work(p, pick)))
  {
    var Process(attempt, me) := Proc(st, p);
    var eff := Perform(env, st.store, me.head, me.phase, pick);
    PerformSound(env, st.store, st.loads, attempt, me, pick);
    ProcsMove(env, st, p, eff.store, eff.loads, Process(attempt, eff.proc));
    AllKnownGrows(st.store, eff.store, st.loads, eff.loads, st.committed);
    AllKnownGrows(st.store, eff.store, st.loads, eff.loads, st.restored);
  }

  lemma FailKeepsInv(env: Env, st: State, p: string, pick: string, applied: bool)
    requires RoundTrips(env.codec) && Inv(env, st)
    ensures Inv(env, Next(env, st, Fail(p, pick, applied))) && Grows(st, Next(env, st, Fail(p, pick, applied)))
  {
    var Process(attempt, me) := Proc(st, p);
    var eff := Perform(env, st.store, me.head, me.phase, pick);
    var store' := if applied then eff.store else st.store;
    PerformSound(env, st.store, st.loads, attempt, me, pick);
    assert st.loads + [] == st.loads;
    assert Extends(st.store, store');
    LoadsGrow(st.store, store', st.loads);
    ProcGrows(env, st.store, store', st.loads, [], attempt, me.(phase := Idle));
    ProcsMove(env, st, p, store', [], Process(attempt, me.(phase := Idle)));
    AllKnownGrows(st.store, store', st.loads, [], st.committed);
    AllKnownGrows(st.store, store', st.loads, [], st.restored);
  }

  lemma StepKeepsInv(env: Env, st: State, e: Event)
    requires RoundTrips(env.codec) && Inv(env, st)
    ensures Inv(env, Next(env, st, e)) && Grows(st, Next(env, st, e))
  {
    match e
    case Work(p, pick) => WorkKeepsInv(env, st, p, pick);
    case Fail(p, pick, applied) => FailKeepsInv(env, st, p, pick, applied);
    case Open(p, attempt) =>
      assert st.loads + [] == st.loads;
      ProcsMove(env, st, p, st.store, [], Process(attempt, FRESH));
    case Begin(p, job) =>
      assert st.loads + [] == st.loads;
      var Process(attempt, me) := Proc(st, p);
      if Next(env, st, e) != st {
        StartSound(env, st.store, st.loads, attempt, me, job);
        ProcsMove(env, st, p, st.store, [], Process(attempt, me.(phase := Start(env, attempt, me.head, job))));
      }
  }

  lemma {:induction false} InvAfter(env: Env, events: seq<Event>)
    requires RoundTrips(env.codec)
    ensures Inv(env, After(env, events))
  {
    if events != [] {
      InvAfter(env, events[..|events| - 1]);
      StepKeepsInv(env, After(env, events[..|events| - 1]), events[|events| - 1]);
    }
  }
}
