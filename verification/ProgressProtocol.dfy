/**
 Any number of progress publishers and readers over one shared object store.

 Every phase of a process performs at most one store operation, so a history of events
 interleaves the processes at the granularity of single reads, writes and listings, and a crash
 may fall between any two of them.  There is no compare-and-swap: safety rests on writing one's
 own claim and then finding oneself alone.
 */
module ProgressProtocol {
  import opened Prelude
  import opened ProgressModel

  datatype Job = Load(run: Id) | Publish(snapshot: Snapshot)

  function RunOf(job: Job): Id {
    if job.Load? then job.run else job.snapshot.run
  }

  /** Where a process stands between two store operations. */
  datatype Phase =
    | Idle
      // reconciling the pointer with the claims
    | ReadPointer(job: Job)
    | LoadHead(job: Job, pointer: Pointer)
    | CheckHead(job: Job, current: Stored)
    | Walk(job: Job, latest: Option<Stored>)
    | LoadChild(job: Job, latest: Option<Stored>, claim: Claim)
    | Advance(job: Job, child: Stored)
    | ConfirmAdvance(job: Job, child: Stored)
      // publishing on top of the reconciled head
    | ReadObject(snapshot: Snapshot)
    | WriteObject(snapshot: Snapshot)
    | ConfirmObject(snapshot: Snapshot)
    | ReadClaim(snapshot: Snapshot)
    | WriteClaim(snapshot: Snapshot)
    | Recount(snapshot: Snapshot)
    | WritePointer(snapshot: Snapshot)
    | ConfirmPointer(snapshot: Snapshot)

  /**
   The store and the processes, with three histories that no process reads: the claims some
   process listed as the only ones of their sequence, what processes successfully observed, and
   what publishers returned.
   */
  datatype State = State(
    store: Store, procs: map<Id, Phase>,
    alone: set<ClaimKey>, log: set<Stored>, published: set<Stored>)

  const INITIAL := State(EMPTY_STORE, map[], {}, {}, {})

  function PhaseOf(st: State, p: Id): Phase {
    if p in st.procs then st.procs[p] else Idle
  }

  /** A process publishes only under its own attempt id. */
  predicate JobOk(p: Id, job: Job) {
    job.Publish? ==> WellFormed(job.snapshot) && job.snapshot.attempt == p
  }

  datatype Effect = Effect(store: Store, phase: Phase, alone: set<ClaimKey>, log: set<Stored>, published: set<Stored>)

  function Quiet(store: Store, phase: Phase): Effect {
    Effect(store, phase, {}, {}, {})
  }

  /** What the reconciled head is used for: a load is over, a publication validates against it. */
  function Reconciled(job: Job, latest: Option<Stored>): Phase {
    if job.Publish? && Follows(job.snapshot, latest) then ReadObject(job.snapshot) else Idle
  }

  /** The one store operation of a phase; a failed check abandons the job. */
  function Perform(env: Env, store: Store, phase: Phase): Effect {
    match phase
    case Idle => Quiet(store, Idle)
    case ReadPointer(job) =>
      var run := RunOf(job);
      Quiet(store, if run in store.pointers then LoadHead(job, store.pointers[run]) else Walk(job, None))
    case LoadHead(job, pointer) =>
      (match LoadReference(env, store.objects, pointer.snapshot)
       case Err(_) => Quiet(store, Idle)
       case Ok(s) => Quiet(store,
         if PointerMatches(pointer, RunOf(job), s) then CheckHead(job, Stored(s, pointer.snapshot)) else Idle))
    case CheckHead(job, current) =>
      var listed := ClaimsAt(store.claims, RunOf(job), current.snapshot.sequence);
      (match RequireSingleClaim(store.claims, listed, None)
       case Err(_) => Quiet(store, Idle)
       case Ok(claim) =>
         if Listable(current.snapshot.sequence) && ClaimMatches(claim, current)
         then Effect(store, Walk(job, Some(current)), listed, {current}, {})
         else Quiet(store, Idle))
    case Walk(job, latest) =>
      var listed := ClaimsAt(store.claims, RunOf(job), NextSequence(latest));
      if !Listable(NextSequence(latest)) then Quiet(store, Idle)
      else if listed == {} then Quiet(store, Reconciled(job, latest))
      else
        (match RequireSingleClaim(store.claims, listed, None)
         case Err(_) => Quiet(store, Idle)
         case Ok(claim) =>
           if claim.run == RunOf(job) then Effect(store, LoadChild(job, latest, claim), listed, {}, {})
           else Quiet(store, Idle))
    case LoadChild(job, latest, claim) =>
      (match LoadReference(env, store.objects, claim.snapshot)
       case Err(_) => Quiet(store, Idle)
       case Ok(s) =>
         var child := Stored(s, claim.snapshot);
         if s.run == RunOf(job) && ClaimMatches(claim, child) && Follows(s, latest)
         then Effect(store, Advance(job, child), {}, {child}, {})
         else Quiet(store, Idle))
    case Advance(job, child) =>
      Quiet(store.(pointers := store.pointers[child.snapshot.run := PointerTo(child)]), ConfirmAdvance(job, child))
    case ConfirmAdvance(job, child) =>
      var run := child.snapshot.run;
      Quiet(store,
            if run in store.pointers && store.pointers[run] == PointerTo(child) then Walk(job, Some(child)) else Idle)
    case ReadObject(s) =>
      var key := KeyOf(env, s);
      Quiet(store, if key !in store.objects
                     then WriteObject(s)
                     else if store.objects[key] == s then ConfirmObject(s) else Idle)
    case WriteObject(s) =>
      Quiet(store.(objects := store.objects[KeyOf(env, s) := s]), ConfirmObject(s))
    case ConfirmObject(s) =>
      Quiet(store, if LoadReference(env, store.objects, RefOf(env, s)).Ok? then ReadClaim(s) else Idle)
    case ReadClaim(s) =>
      var key := ClaimKeyFor(s);
      Quiet(store, if key !in store.claims
                     then WriteClaim(s)
                     else if store.claims[key] == ClaimFor(env, s) then Recount(s) else Idle)
    case WriteClaim(s) =>
      Quiet(store.(claims := store.claims[ClaimKeyFor(s) := ClaimFor(env, s)]), Recount(s))
    case Recount(s) =>
      var listed := ClaimsAt(store.claims, s.run, s.sequence);
      if RequireSingleClaim(store.claims, listed, Some(ClaimFor(env, s))).Ok?
      then Effect(store, WritePointer(s), listed, {StoredOf(env, s)}, {})
      else Quiet(store, Idle)
    case WritePointer(s) =>
      Quiet(store.(pointers := store.pointers[s.run := PointerTo(StoredOf(env, s))]), ConfirmPointer(s))
    case ConfirmPointer(s) =>
      if s.run in store.pointers && store.pointers[s.run] == PointerTo(StoredOf(env, s))
      then Effect(store, Idle, {}, {}, {StoredOf(env, s)})
      else Quiet(store, Idle)
  }

  datatype Event = Begin(proc: Id, job: Job) | Work(proc: Id) | Crash(proc: Id)

  function Next(env: Env, st: State, e: Event): State {
    match e
    case Crash(p) => st.(procs := st.procs[p := Idle])
    case Begin(p, job) =>
      if PhaseOf(st, p).Idle? && JobOk(p, job) then st.(procs := st.procs[p := ReadPointer(job)]) else st
    case Work(p) =>
      var eff := Perform(env, st.store, PhaseOf(st, p));
      State(eff.store, st.procs[p := eff.phase], st.alone + eff.alone, st.log + eff.log, st.published + eff.published)
  }

  /** The state reached by a history of events. */
  function After(env: Env, events: seq<Event>): State {
    if events == [] then INITIAL else Next(env, After(env, events[..|events| - 1]), events[|events| - 1])
  }

  // ---------------------------------------------------------------------------------------------
  // The invariant

  ghost predicate Precedes(log: set<Stored>, s: Snapshot) {
    if s.sequence == 1 then s.previous == None
    else exists o ::
           && o in log && o.snapshot.run == s.run && o.snapshot.sequence + 1 == s.sequence
           && s.previous == Some(o.reference)
  }

  predicate Present(env: Env, store: Store, s: Snapshot) {
    KeyOf(env, s) in store.objects && store.objects[KeyOf(env, s)] == s
  }

  ghost predicate ObjectsOk(env: Env, store: Store) {
    forall k :: k in store.objects ==> k == KeyOf(env, store.objects[k])
  }

  ghost predicate ClaimOk(env: Env, store: Store, log: set<Stored>, k: ClaimKey)
    requires k in store.claims
  {
    var key := store.claims[k].snapshot.key;
    && key in store.objects
    && store.claims[k] == ClaimFor(env, store.objects[key])
    && k == ClaimKeyFor(store.objects[key])
    && Listable(k.sequence)
    && Precedes(log, store.objects[key])
  }

  ghost predicate ClaimsOk(env: Env, store: Store, log: set<Stored>) {
    forall k {:trigger ClaimOk(env, store, log, k)} :: k in store.claims ==> ClaimOk(env, store, log, k)
  }

  ghost predicate AloneOk(store: Store, alone: set<ClaimKey>) {
    && alone <= store.claims.Keys
    && forall j, k :: j in alone && k in alone && j.run == k.run && j.sequence == k.sequence ==> j == k
  }

  ghost predicate SeenOk(env: Env, store: Store, alone: set<ClaimKey>, o: Stored) {
    && o == StoredOf(env, o.snapshot)
    && Present(env, store, o.snapshot)
    && ClaimKeyFor(o.snapshot) in alone
    && ClaimKeyFor(o.snapshot) in store.claims
    && store.claims[ClaimKeyFor(o.snapshot)] == ClaimFor(env, o.snapshot)
  }

  ghost predicate LogOk(env: Env, st: State) {
    && (forall o {:trigger SeenOk(env, st.store, st.alone, o)} :: o in st.log ==> SeenOk(env, st.store, st.alone, o))
    && st.published <= st.log
  }

  ghost predicate PointersOk(st: State) {
    forall r :: r in st.store.pointers ==>
      exists o :: o in st.log && st.store.pointers[r] == PointerTo(o) && o.snapshot.run == r
  }

  ghost predicate PhaseOk(env: Env, st: State, p: Id, phase: Phase) {
    match phase
    case Idle => true
    case ReadPointer(job) => JobOk(p, job)
    case LoadHead(job, pointer) =>
      JobOk(p, job) && exists o :: o in st.log && pointer == PointerTo(o) && o.snapshot.run == RunOf(job)
    case CheckHead(job, current) => JobOk(p, job) && current in st.log && current.snapshot.run == RunOf(job)
    case Walk(job, latest) =>
      JobOk(p, job) && (latest.Some? ==> latest.value in st.log && latest.value.snapshot.run == RunOf(job))
    case LoadChild(job, latest, claim) =>
      && JobOk(p, job)
      && (exists k :: k in st.alone && k in st.store.claims && st.store.claims[k] == claim)
    case Advance(job, child) => JobOk(p, job) && child in st.log && child.snapshot.run == RunOf(job)
    case ConfirmAdvance(job, child) => JobOk(p, job) && child in st.log && child.snapshot.run == RunOf(job)
    case ReadObject(s) => Publishing(st, p, s)
    case WriteObject(s) => Publishing(st, p, s)
    case ConfirmObject(s) => Publishing(st, p, s) && Present(env, st.store, s)
    case ReadClaim(s) => Publishing(st, p, s) && Present(env, st.store, s)
    case WriteClaim(s) => Publishing(st, p, s) && Present(env, st.store, s) && ClaimKeyFor(s) !in st.store.claims
    case Recount(s) =>
      && Publishing(st, p, s) && Present(env, st.store, s)
      && ClaimKeyFor(s) in st.store.claims && st.store.claims[ClaimKeyFor(s)] == ClaimFor(env, s)
    case WritePointer(s) => StoredOf(env, s) in st.log
    case ConfirmPointer(s) => StoredOf(env, s) in st.log
  }

  ghost predicate Publishing(st: State, p: Id, s: Snapshot) {
    JobOk(p, Publish(s)) && Precedes(st.log, s)
  }

  ghost predicate SharedOk(env: Env, st: State) {
    && ObjectsOk(env, st.store)
    && ClaimsOk(env, st.store, st.log)
    && AloneOk(st.store, st.alone)
    && LogOk(env, st)
    && PointersOk(st)
  }

  ghost predicate Inv(env: Env, st: State) {
    && SharedOk(env, st)
    && forall p :: p in st.procs ==> PhaseOk(env, st, p, st.procs[p])
  }

  /** Nothing is deleted or rewritten, and only process p adds claims under its attempt. */
  ghost predicate Grows(st: State, st': State, p: Id) {
    && (forall k :: k in st.store.objects ==> k in st'.store.objects && st'.store.objects[k] == st.store.objects[k])
    && (forall k :: k in st.store.claims ==> k in st'.store.claims && st'.store.claims[k] == st.store.claims[k])
    && (forall k :: k in st'.store.claims && k !in st.store.claims ==> k.attempt == p)
    && st.alone <= st'.alone && st.log <= st'.log && st.published <= st'.published
  }

  function Joined(st: State, eff: Effect): State {
    State(eff.store, st.procs, st.alone + eff.alone, st.log + eff.log, st.published + eff.published)
  }

  /** A step of process p keeps everything shared, and p's own new phase is justified. */
  ghost predicate Sound(env: Env, st: State, p: Id, eff: Effect) {
    var st' := Joined(st, eff);
    Grows(st, st', p) && SharedOk(env, st') && PhaseOk(env, st', p, eff.phase)
  }

  /** A listing that passes the single-claim check names one key, and no earlier listing named another. */
  lemma ListedAlone(store: Store, alone: set<ClaimKey>, run: Id, n: nat, expected: Option<Claim>)
    requires AloneOk(store, alone)
    requires RequireSingleClaim(store.claims, ClaimsAt(store.claims, run, n), expected).Ok?
    ensures AloneOk(store, alone + ClaimsAt(store.claims, run, n))
    ensures exists k :: k in store.claims && ClaimsAt(store.claims, run, n) == {k}
                     && store.claims[k]
                          == RequireSingleClaim(store.claims, ClaimsAt(store.claims, run, n), expected).value
  {
    var listed := ClaimsAt(store.claims, run, n);
    var k :| k in listed;
    SingleClaimIff(store.claims, run, n, k);
    assert listed == {k} by {
      forall x | x in listed ensures x == k { SingletonIsUnique(listed, x, k); }
    }
  }

  /** A step that writes nothing only has to justify the new phase. */
  lemma QuietSound(env: Env, st: State, p: Id, next: Phase)
    requires SharedOk(env, st) && PhaseOk(env, st, p, next)
    ensures Sound(env, st, p, Quiet(st.store, next))
  {
    assert Joined(st, Quiet(st.store, next)) == st;
  }

  /** Writing to the store while every history stays as it was. */
  lemma WriteSound(env: Env, st: State, p: Id, store: Store, next: Phase)
    requires SharedOk(env, st.(store := store)) && Grows(st, st.(store := store), p)
    requires PhaseOk(env, st.(store := store), p, next)
    ensures Sound(env, st, p, Quiet(store, next))
  {
    assert Joined(st, Quiet(store, next)) == st.(store := store);
  }

  lemma PointerAdded(env: Env, st: State, o: Stored)
    requires SharedOk(env, st) && o in st.log
    ensures SharedOk(env, st.(store := st.store.(pointers := st.store.pointers[o.snapshot.run := PointerTo(o)])))
  {
    var store' := st.store.(pointers := st.store.pointers[o.snapshot.run := PointerTo(o)]);
    forall k | k in store'.claims ensures ClaimOk(env, store', st.log, k) {
      assert ClaimOk(env, st.store, st.log, k);
    }
    forall x | x in st.log ensures SeenOk(env, store', st.alone, x) {
      assert SeenOk(env, st.store, st.alone, x);
    }
    forall r | r in store'.pointers
      ensures exists x :: x in st.log && store'.pointers[r] == PointerTo(x) && x.snapshot.run == r
    {
      if r != o.snapshot.run {
        var x :| x in st.log && st.store.pointers[r] == PointerTo(x) && x.snapshot.run == r;
      }
    }
  }

  /** A pointer may be set to anything that was observed. */
  lemma PointerWriteSound(env: Env, st: State, p: Id, o: Stored, next: Phase)
    requires SharedOk(env, st) && o in st.log
    requires PhaseOk(env, st.(store := st.store.(pointers := st.store.pointers[o.snapshot.run := PointerTo(o)])), p,
                     next)
    ensures Sound(env, st, p, Quiet(st.store.(pointers := st.store.pointers[o.snapshot.run := PointerTo(o)]), next))
  {
    PointerAdded(env, st, o);
    WriteSound(env, st, p, st.store.(pointers := st.store.pointers[o.snapshot.run := PointerTo(o)]), next);
  }

  lemma PointerStepSound(env: Env, st: State, p: Id, ph: Phase)
    requires SharedOk(env, st) && PhaseOk(env, st, p, ph)
    requires ph.Idle? || ph.ReadPointer? || ph.LoadHead? || ph.Advance? || ph.ConfirmAdvance?
    ensures Sound(env, st, p, Perform(env, st.store, ph))
  {
    if ph.Advance? {
      PointerWriteSound(env, st, p, ph.child, ConfirmAdvance(ph.job, ph.child));
    } else {
      if ph.LoadHead? {
        var o :| o in st.log && ph.pointer == PointerTo(o) && o.snapshot.run == RunOf(ph.job);
        assert SeenOk(env, st.store, st.alone, o);
      }
      QuietSound(env, st, p, Perform(env, st.store, ph).phase);
    }
  }

  lemma PrecedesMonotone(log: set<Stored>, log': set<Stored>, s: Snapshot)
    requires log <= log' && Precedes(log, s)
    ensures Precedes(log', s)
  {
  }

  lemma ClaimsOkMonotone(env: Env, store: Store, log: set<Stored>, log': set<Stored>)
    requires log <= log' && ClaimsOk(env, store, log)
    ensures ClaimsOk(env, store, log')
  {
    forall k | k in store.claims ensures ClaimOk(env, store, log', k) {
      assert ClaimOk(env, store, log, k);
      PrecedesMonotone(log, log', store.objects[store.claims[k].snapshot.key]);
    }
  }

  /** Recording a listing that found claim `k` alone, and possibly the snapshot it names. */
  lemma ObserveSound(env: Env, st: State, p: Id, listed: set<ClaimKey>, seen: set<Stored>, next: Phase)
    requires SharedOk(env, st) && AloneOk(st.store, st.alone + listed)
    requires forall o :: o in seen ==> SeenOk(env, st.store, st.alone + listed, o)
    requires PhaseOk(env, State(st.store, st.procs, st.alone + listed, st.log + seen, st.published), p, next)
    ensures Sound(env, st, p, Effect(st.store, next, listed, seen, {}))
  {
    var st' := State(st.store, st.procs, st.alone + listed, st.log + seen, st.published);
    assert st.published + {} == st.published;
    ClaimsOkMonotone(env, st.store, st.log, st'.log);
    forall o | o in st'.log ensures SeenOk(env, st.store, st'.alone, o) {
      if o in st.log { assert SeenOk(env, st.store, st.alone, o); }
    }
    assert PointersOk(st') by {
      forall r | r in st.store.pointers
        ensures exists o :: o in st'.log && st'.store.pointers[r] == PointerTo(o) && o.snapshot.run == r
      {
        var o :| o in st.log && st.store.pointers[r] == PointerTo(o) && o.snapshot.run == r;
        assert o in st'.log;
      }
    }
  }

  lemma CheckHeadSound(env: Env, st: State, p: Id, ph: Phase)
    requires SharedOk(env, st) && PhaseOk(env, st, p, ph) && ph.CheckHead?
    ensures Sound(env, st, p, Perform(env, st.store, ph))
  {
    var n := ph.current.snapshot.sequence;
    var listed := ClaimsAt(st.store.claims, RunOf(ph.job), n);
    if Perform(env, st.store, ph).phase.Walk? {
      ListedAlone(st.store, st.alone, RunOf(ph.job), n, None);
      assert SeenOk(env, st.store, st.alone, ph.current);
      ObserveSound(env, st, p, listed, {ph.current}, Walk(ph.job, Some(ph.current)));
    } else {
      QuietSound(env, st, p, Idle);
    }
  }

  lemma FollowerIsPreceded(env: Env, st: State, latest: Option<Stored>, s: Snapshot)
    requires ClaimsOk(env, st.store, st.log) && LogOk(env, st)
    requires Follows(s, latest) && (latest.Some? ==> latest.value in st.log && latest.value.snapshot.run == s.run)
    ensures Precedes(st.log, s)
  {
    if latest.Some? {
      assert SeenOk(env, st.store, st.alone, latest.value);
      assert ClaimOk(env, st.store, st.log, ClaimKeyFor(latest.value.snapshot));
    }
  }

  lemma WalkOnSound(env: Env, st: State, p: Id, job: Job, latest: Option<Stored>, claim: Claim)
    requires SharedOk(env, st) && JobOk(p, job)
    requires var listed := ClaimsAt(st.store.claims, RunOf(job), NextSequence(latest));
             RequireSingleClaim(st.store.claims, listed, None) == Ok(claim)
    ensures Sound(env, st, p, Effect(st.store, LoadChild(job, latest, claim),
                                     ClaimsAt(st.store.claims, RunOf(job), NextSequence(latest)), {}, {}))
  {
    var n := NextSequence(latest);
    var listed := ClaimsAt(st.store.claims, RunOf(job), n);
    ListedAlone(st.store, st.alone, RunOf(job), n, None);
    ObserveSound(env, st, p, listed, {}, LoadChild(job, latest, claim));
  }

  lemma WalkSound(env: Env, st: State, p: Id, ph: Phase)
    requires SharedOk(env, st) && PhaseOk(env, st, p, ph) && ph.Walk?
    ensures Sound(env, st, p, Perform(env, st.store, ph))
  {
    var next := Perform(env, st.store, ph).phase;
    if next.LoadChild? {
      WalkOnSound(env, st, p, ph.job, ph.latest, next.claim);
    } else {
      if next.ReadObject? {
        FollowerIsPreceded(env, st, ph.latest, next.snapshot);
      }
      QuietSound(env, st, p, next);
    }
  }

  lemma LoadChildSound(env: Env, st: State, p: Id, ph: Phase)
    requires SharedOk(env, st) && PhaseOk(env, st, p, ph) && ph.LoadChild?
    ensures Sound(env, st, p, Perform(env, st.store, ph))
  {
    var next := Perform(env, st.store, ph).phase;
    if next.Advance? {
      var k :| k in st.alone && k in st.store.claims && st.store.claims[k] == ph.claim;
      assert ClaimOk(env, st.store, st.log, k);
      assert st.alone + {} == st.alone;
      ObserveSound(env, st, p, {}, {next.child}, next);
    } else {
      QuietSound(env, st, p, Idle);
    }
  }

  lemma ObjectAdded(env: Env, st: State, s: Snapshot)
    requires SharedOk(env, st) && KeyOf(env, s) !in st.store.objects
    ensures SharedOk(env, st.(store := st.store.(objects := st.store.objects[KeyOf(env, s) := s])))
  {
    var store' := st.store.(objects := st.store.objects[KeyOf(env, s) := s]);
    forall k | k in store'.claims ensures ClaimOk(env, store', st.log, k) {
      assert ClaimOk(env, st.store, st.log, k);
    }
    forall o | o in st.log ensures SeenOk(env, store', st.alone, o) {
      assert SeenOk(env, st.store, st.alone, o);
    }
    forall r | r in store'.pointers
      ensures exists x :: x in st.log && store'.pointers[r] == PointerTo(x) && x.snapshot.run == r
    {
      var x :| x in st.log && st.store.pointers[r] == PointerTo(x) && x.snapshot.run == r;
    }
  }

  lemma DigestDetermines(env: Env, store: Store, s: Snapshot)
    requires CollisionFree(env) && ObjectsOk(env, store) && KeyOf(env, s) in store.objects
    ensures store.objects[KeyOf(env, s)] == s
  {
    assert KeyOf(env, s) == KeyOf(env, store.objects[KeyOf(env, s)]);
  }

  lemma WriteObjectSound(env: Env, st: State, p: Id, ph: Phase)
    requires CollisionFree(env) && SharedOk(env, st) && PhaseOk(env, st, p, ph) && ph.WriteObject?
    ensures Sound(env, st, p, Perform(env, st.store, ph))
  {
    var s := ph.snapshot;
    var store' := st.store.(objects := st.store.objects[KeyOf(env, s) := s]);
    if KeyOf(env, s) in st.store.objects {
      DigestDetermines(env, st.store, s);
      assert store'.objects == st.store.objects;
      QuietSound(env, st, p, ConfirmObject(s));
    } else {
      ObjectAdded(env, st, s);
      WriteSound(env, st, p, store', ConfirmObject(s));
    }
  }

  lemma WriteClaimSound(env: Env, st: State, p: Id, ph: Phase)
    requires CollisionFree(env) && SharedOk(env, st) && PhaseOk(env, st, p, ph) && ph.WriteClaim?
    ensures Sound(env, st, p, Perform(env, st.store, ph))
  {
    var s := ph.snapshot;
    var key := ClaimKeyFor(s);
    var store' := st.store.(claims := st.store.claims[key := ClaimFor(env, s)]);
    var st' := st.(store := store');
    forall k | k in store'.claims ensures ClaimOk(env, store', st.log, k) {
      if k != key { assert ClaimOk(env, st.store, st.log, k); }
    }
    forall o | o in st.log ensures SeenOk(env, store', st.alone, o) {
      assert SeenOk(env, st.store, st.alone, o);
    }
    WriteSound(env, st, p, store', Recount(s));
  }

  lemma ReadStepSound(env: Env, st: State, p: Id, ph: Phase)
    requires CollisionFree(env) && SharedOk(env, st) && PhaseOk(env, st, p, ph)
    requires ph.ReadObject? || ph.ConfirmObject? || ph.ReadClaim?
    ensures Sound(env, st, p, Perform(env, st.store, ph))
  {
    QuietSound(env, st, p, Perform(env, st.store, ph).phase);
  }

  lemma RecountSound(env: Env, st: State, p: Id, ph: Phase)
    requires SharedOk(env, st) && PhaseOk(env, st, p, ph) && ph.Recount?
    ensures Sound(env, st, p, Perform(env, st.store, ph))
  {
    var s := ph.snapshot;
    var listed := ClaimsAt(st.store.claims, s.run, s.sequence);
    if RequireSingleClaim(st.store.claims, listed, Some(ClaimFor(env, s))).Ok? {
      ListedAlone(st.store, st.alone, s.run, s.sequence, Some(ClaimFor(env, s)));
      assert ClaimKeyFor(s) in listed;
      ObserveSound(env, st, p, listed, {StoredOf(env, s)}, WritePointer(s));
    } else {
      QuietSound(env, st, p, Idle);
    }
  }

  lemma Returned(env: Env, st: State, o: Stored)
    requires SharedOk(env, st) && o in st.log
    ensures SharedOk(env, st.(published := st.published + {o}))
  {
  }

  lemma ReturnSound(env: Env, st: State, p: Id, ph: Phase)
    requires SharedOk(env, st) && PhaseOk(env, st, p, ph) && ph.ConfirmPointer?
    ensures Sound(env, st, p, Perform(env, st.store, ph))
  {
    var o := StoredOf(env, ph.snapshot);
    var eff := Perform(env, st.store, ph);
    if eff == Quiet(st.store, Idle) {
      QuietSound(env, st, p, Idle);
    } else {
      Returned(env, st, o);
      assert Joined(st, eff) == st.(published := st.published + {o});
    }
  }

  lemma WorkSound(env: Env, st: State, p: Id, ph: Phase)
    requires CollisionFree(env) && SharedOk(env, st) && PhaseOk(env, st, p, ph)
    ensures Sound(env, st, p, Perform(env, st.store, ph))
  {
    match ph
    case CheckHead(_, _) => CheckHeadSound(env, st, p, ph);
    case Walk(_, _) => WalkSound(env, st, p, ph);
    case LoadChild(_, _, _) => LoadChildSound(env, st, p, ph);
    case ReadObject(_) => ReadStepSound(env, st, p, ph);
    case WriteObject(_) => WriteObjectSound(env, st, p, ph);
    case ConfirmObject(_) => ReadStepSound(env, st, p, ph);
    case ReadClaim(_) => ReadStepSound(env, st, p, ph);
    case WriteClaim(_) => WriteClaimSound(env, st, p, ph);
    case Recount(_) => RecountSound(env, st, p, ph);
    case WritePointer(s) => PointerWriteSound(env, st, p, StoredOf(env, s), ConfirmPointer(s));
    case ConfirmPointer(_) => ReturnSound(env, st, p, ph);
    case _ => PointerStepSound(env, st, p, ph);
  }

  lemma OthersKeepTheirPhase(env: Env, st: State, st': State, p: Id, q: Id, phase: Phase)
    requires Grows(st, st', p) && p != q && PhaseOk(env, st, q, phase)
    ensures PhaseOk(env, st', q, phase)
  {
  }

  lemma StepKeepsInv(env: Env, st: State, e: Event)
    requires CollisionFree(env) && Inv(env, st)
    ensures Inv(env, Next(env, st, e)) && Grows(st, Next(env, st, e), e.proc)
  {
    var p := e.proc;
    if e.Work? {
      var eff := Perform(env, st.store, PhaseOf(st, p));
      WorkSound(env, st, p, PhaseOf(st, p));
      ProcsSound(env, st, Joined(st, eff), p, eff.phase);
    } else if Next(env, st, e) != st {
      ProcsSound(env, st, st, p, Next(env, st, e).procs[p]);
    }
  }

  /** The invariant only looks at `procs` one process at a time. */
  lemma ProcsSound(env: Env, st: State, mid: State, p: Id, next: Phase)
    requires Inv(env, st) && SharedOk(env, mid) && Grows(st, mid, p) && mid.procs == st.procs
    requires PhaseOk(env, mid, p, next)
    ensures Inv(env, mid.(procs := st.procs[p := next])) && Grows(st, mid.(procs := st.procs[p := next]), p)
  {
    var st' := mid.(procs := st.procs[p := next]);
    forall q | q in st'.procs ensures PhaseOk(env, st', q, st'.procs[q]) {
      if q != p { OthersKeepTheirPhase(env, st, mid, p, q, st.procs[q]); }
      SamePhase(env, mid, st', q, st'.procs[q]);
    }
  }

  lemma SamePhase(env: Env, st: State, st': State, q: Id, phase: Phase)
    requires st' == st.(procs := st'.procs) && PhaseOk(env, st, q, phase)
    ensures PhaseOk(env, st', q, phase)
  {
  }

  lemma {:induction false} InvAfter(env: Env, events: seq<Event>)
    requires CollisionFree(env)
    ensures Inv(env, After(env, events))
  {
    if events != [] {
      InvAfter(env, events[..|events| - 1]);
      StepKeepsInv(env, After(env, events[..|events| - 1]), events[|events| - 1]);
    }
  }
}
