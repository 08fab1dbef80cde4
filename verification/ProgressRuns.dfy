/**
 What a process of ProgressProtocol does when no other one works: the machine and the store class agree.
 */
module ProgressRuns {
  import opened Prelude
  import opened ProgressModel
  import opened ProgressProtocol
  import opened ProgressAgreement
  import opened ProgressReconcile
  import opened ProgressStores

  /** Process p works n times and nothing else happens. */
  function Works(env: Env, st: State, p: Id, n: nat): State
    decreases n
  {
    if n == 0 then st else Works(env, Next(env, st, Work(p)), p, n - 1)
  }

  lemma {:induction false} WorksAdd(env: Env, st: State, p: Id, n: nat, more: nat)
    ensures Works(env, st, p, n + more) == Works(env, Works(env, st, p, n), p, more)
    decreases n
  {
    hide Next;
    if n > 0 {
      WorksAdd(env, Next(env, st, Work(p)), p, n - 1, more);
    }
  }

  lemma OneStep(env: Env, st: State, p: Id)
    ensures Works(env, st, p, 1) == Next(env, st, Work(p))
  {
    hide Next;
    assert Works(env, st, p, 1) == Works(env, Next(env, st, Work(p)), p, 0);
  }

  lemma TwoSteps(env: Env, st: State, p: Id)
    ensures Works(env, st, p, 2) == Next(env, Next(env, st, Work(p)), Work(p))
  {
    hide Next;
    assert Works(env, st, p, 2) == Works(env, Next(env, st, Work(p)), p, 1)
        == Works(env, Next(env, Next(env, st, Work(p)), Work(p)), p, 0);
  }

  /** Only the histories, the pointer of the run and the phase of p differ. */
  ghost predicate OnlyWalked(st: State, end: State, p: Id, run: Id) {
    && end.store.objects == st.store.objects && end.store.claims == st.store.claims
    && (forall r :: r != run ==> PointerOf(end.store, r) == PointerOf(st.store, r))
    && st.log <= end.log && end.published == st.published
  }

  lemma WalkDependsOn(env: Env, store: Store, other: Store, run: Id, latest: Option<Stored>, pointer: Option<Pointer>)
    requires other.objects == store.objects && other.claims == store.claims
    ensures WalkClaims(env, other, run, latest, pointer) == WalkClaims(env, store, run, latest, pointer)
    decreases Remaining(store.claims, run, NextSequence(latest))
  {
    var r := NextChild(env, store, run, latest);
    assert NextChild(env, other, run, latest) == r;
    if r.Ok? && r.value.Some? {
      ListedIsBelowHighest(store.claims, run, NextSequence(latest));
      WalkDependsOn(env, store, other, run, r.value, Some(PointerTo(r.value.value)));
    }
  }

  /** Where a process ends that alone finishes a reconciliation with this outcome. */
  ghost predicate EndsReconciled(st: State, end: State, p: Id, job: Job, out: Outcome) {
    && OnlyWalked(st, end, p, RunOf(job)) && PointerOf(end.store, RunOf(job)) == out.pointer
    && PhaseOf(end, p) == (if out.result.Ok? then Reconciled(job, out.result.value) else Idle)
    && (out.result.Ok? && out.result.value.Some? ==> out.result.value.value in end.log)
  }

  /** One turn of the walk that finds no child ends it. */
  lemma LastTurn(env: Env, st: State, p: Id, job: Job, latest: Option<Stored>) returns (n: nat)
    requires PhaseOf(st, p) == Walk(job, latest) && (latest.Some? ==> latest.value in st.log)
    requires var r := NextChild(env, st.store, RunOf(job), latest); r.Err? || r.value.None?
    ensures var out := WalkClaims(env, st.store, RunOf(job), latest, PointerOf(st.store, RunOf(job)));
            EndsReconciled(st, Works(env, st, p, n), p, job, out)
  {
    hide Works;
    OneStep(env, st, p);
    TwoSteps(env, st, p);
    n := if PhaseOf(Next(env, st, Work(p)), p).LoadChild? then 2 else 1;
    var out := WalkClaims(env, st.store, RunOf(job), latest, PointerOf(st.store, RunOf(job)));
    hide WalkClaims, Remaining;
    NoChildEnds(env, st, p, job, latest, out);
  }

  lemma NoChildPhases(env: Env, store: Store, job: Job, latest: Option<Stored>)
    requires NextChild(env, store, RunOf(job), latest).Err? || NextChild(env, store, RunOf(job), latest).value.None?
    ensures var first, r := Perform(env, store, Walk(job, latest)), NextChild(env, store, RunOf(job), latest);
            && first.store == store && first.published == {}
            && if first.phase.LoadChild?
               then r.Err? && Perform(env, store, first.phase) == Quiet(store, Idle)
               else first.phase == if r.Err? then Idle else Reconciled(job, latest)
  {
  }

  lemma NoChildEnds(env: Env, st: State, p: Id, job: Job, latest: Option<Stored>, out: Outcome)
    requires PhaseOf(st, p) == Walk(job, latest) && (latest.Some? ==> latest.value in st.log)
    requires match NextChild(env, st.store, RunOf(job), latest)
             case Err(e) => out == Outcome(Err(e), PointerOf(st.store, RunOf(job)))
             case Ok(child) => child.None? && out == Outcome(Ok(latest), PointerOf(st.store, RunOf(job)))
    ensures var next := Next(env, st, Work(p));
            EndsReconciled(st, if PhaseOf(next, p).LoadChild? then Next(env, next, Work(p)) else next, p, job, out)
  {
    NoChildPhases(env, st.store, job, latest);
    hide Perform, NextChild, Reconciled;
  }

  lemma ChildFound(env: Env, st: State, p: Id, job: Job, latest: Option<Stored>, child: Stored)
    requires PhaseOf(st, p) == Walk(job, latest) && NextChild(env, st.store, RunOf(job), latest) == Ok(Some(child))
    ensures var end := Works(env, st, p, 2);
            && OnlyWalked(st, end, p, RunOf(job)) && PointerOf(end.store, RunOf(job)) == PointerOf(st.store, RunOf(job))
            && PhaseOf(end, p) == Advance(job, child) && child in end.log && child.snapshot.run == RunOf(job)
  {
    TwoSteps(env, st, p);
    var one := Next(env, st, Work(p));
    assert PhaseOf(one, p).LoadChild?;
  }

  lemma PointerMoved(env: Env, st: State, p: Id, job: Job, child: Stored)
    requires PhaseOf(st, p) == Advance(job, child) && child in st.log && child.snapshot.run == RunOf(job)
    ensures var end := Works(env, st, p, 2);
            && OnlyWalked(st, end, p, RunOf(job)) && PointerOf(end.store, RunOf(job)) == Some(PointerTo(child))
            && PhaseOf(end, p) == Walk(job, Some(child)) && child in end.log
  {
    TwoSteps(env, st, p);
  }

  /** One turn of the walk that finds a child moves the pointer to it. */
  lemma OneTurn(env: Env, st: State, p: Id, job: Job, latest: Option<Stored>, child: Stored)
    requires PhaseOf(st, p) == Walk(job, latest) && NextChild(env, st.store, RunOf(job), latest) == Ok(Some(child))
    ensures var end := Works(env, st, p, 4);
            && OnlyWalked(st, end, p, RunOf(job)) && PointerOf(end.store, RunOf(job)) == Some(PointerTo(child))
            && PhaseOf(end, p) == Walk(job, Some(child)) && child in end.log
  {
    hide Works, NextChild, Next;
    ChildFound(env, st, p, job, latest, child);
    PointerMoved(env, Works(env, st, p, 2), p, job, child);
    WorksAdd(env, st, p, 2, 2);
  }

  lemma WalkUnfolds(
      env: Env, store: Store, run: Id, latest: Option<Stored>, pointer: Option<Pointer>, child: Stored)
    requires NextChild(env, store, run, latest) == Ok(Some(child))
    ensures WalkClaims(env, store, run, latest, pointer)
         == WalkClaims(env, store, run, Some(child), Some(PointerTo(child)))
    ensures Remaining(store.claims, run, NextSequence(Some(child))) < Remaining(store.claims, run, NextSequence(latest))
  {
    ListedIsBelowHighest(store.claims, run, NextSequence(latest));
  }

  /** A reconciliation whose rest is known ends as that rest does. */
  lemma EndsLater(st: State, mid: State, end: State, p: Id, job: Job, out: Outcome)
    requires OnlyWalked(st, mid, p, RunOf(job)) && EndsReconciled(mid, end, p, job, out)
    ensures EndsReconciled(st, end, p, job, out)
  {
  }

  lemma {:induction false} WalkRuns(env: Env, st: State, p: Id, job: Job, latest: Option<Stored>) returns (n: nat)
    requires PhaseOf(st, p) == Walk(job, latest) && (latest.Some? ==> latest.value in st.log)
    ensures var out := WalkClaims(env, st.store, RunOf(job), latest, PointerOf(st.store, RunOf(job)));
            EndsReconciled(st, Works(env, st, p, n), p, job, out)
    decreases Remaining(st.store.claims, RunOf(job), NextSequence(latest))
  {
    hide Works, Next, NextChild, WalkClaims, Reconciled, PhaseOf, EndsReconciled;
    var run := RunOf(job);
    var r := NextChild(env, st.store, run, latest);
    if r.Ok? && r.value.Some? {
      var child := r.value.value;
      WalkUnfolds(env, st.store, run, latest, PointerOf(st.store, run), child);
      OneTurn(env, st, p, job, latest, child);
      var mid := Works(env, st, p, 4);
      var m := WalkRuns(env, mid, p, job, Some(child));
      WorksAdd(env, st, p, 4, m);
      WalkDependsOn(env, st.store, mid.store, run, Some(child), Some(PointerTo(child)));
      n := 4 + m;
      EndsLater(st, mid, Works(env, st, p, n), p, job,
                WalkClaims(env, st.store, run, Some(child), Some(PointerTo(child))));
    } else {
      n := LastTurn(env, st, p, job, latest);
    }
  }

  /** Where the walk of a load begins, if the pointer allows one. */
  ghost function HeadPhase(env: Env, store: Store, job: Job): Phase {
    match PointerOf(store, RunOf(job))
    case None => Walk(job, None)
    case Some(pointer) =>
      match PointedHead(env, store, RunOf(job), pointer)
      case Err(_) => Idle
      case Ok(current) => Walk(job, Some(current))
  }

  /** Reading the pointer and checking what it names. */
  lemma HeadRuns(env: Env, st: State, p: Id, job: Job) returns (n: nat)
    requires PhaseOf(st, p) == ReadPointer(job)
    ensures var end, run := Works(env, st, p, n), RunOf(job);
            && end.store == st.store && st.log <= end.log && end.published == st.published
            && PhaseOf(end, p) == HeadPhase(env, st.store, job)
            && (PhaseOf(end, p).Walk? && PhaseOf(end, p).latest.Some? ==> PhaseOf(end, p).latest.value in end.log)
  {
    var one := Next(env, st, Work(p));
    assert Works(env, st, p, 1) == Works(env, one, p, 0) == one;
    n := 1;
    if PhaseOf(one, p).LoadHead? {
      var two := Next(env, one, Work(p));
      var three := Next(env, two, Work(p));
      assert Works(env, one, p, 2) == Works(env, two, p, 1) == Works(env, three, p, 0) == three;
      WorksAdd(env, st, p, 1, 2);
      n := 3;
    }
  }

  /** A process alone reconciles as the specification of a load says. */
  lemma ReconcileRuns(env: Env, st: State, p: Id, job: Job) returns (n: nat)
    requires PhaseOf(st, p) == ReadPointer(job)
    ensures var run := RunOf(job);
            EndsReconciled(st, Works(env, st, p, n), p, job,
                           Reconcile(env, st.store, run, PointerOf(st.store, run)))
  {
    hide Works, WalkClaims, PointedHead, Reconciled, PhaseOf;
    n := HeadRuns(env, st, p, job);
    var mid := Works(env, st, p, n);
    if PhaseOf(mid, p).Walk? {
      var m := WalkRuns(env, mid, p, job, PhaseOf(mid, p).latest);
      WorksAdd(env, st, p, n, m);
      n := n + m;
    }
  }

  // ---------------------------------------------------------------------------------------------
  // Writing on top of the head

  /** Where a process ends that alone writes a snapshot: object, claim and pointer are stored, and it returned. */
  ghost predicate EndsPublished(env: Env, st: State, end: State, p: Id, s: Snapshot) {
    && PhaseOf(end, p) == Idle
    && end.store.objects == st.store.objects[KeyOf(env, s) := s]
    && end.store.claims == AddClaim(env, st.store.claims, s)
    && end.store.pointers == st.store.pointers[s.run := PointerTo(StoredOf(env, s))]
    && end.published == st.published + {StoredOf(env, s)} && StoredOf(env, s) in end.log
  }

  lemma ObjectRuns(env: Env, st: State, p: Id, s: Snapshot) returns (n: nat)
    requires PhaseOf(st, p) == ReadObject(s)
    requires KeyOf(env, s) in st.store.objects ==> st.store.objects[KeyOf(env, s)] == s
    ensures var end := Works(env, st, p, n);
            && PhaseOf(end, p) == ReadClaim(s)
            && end.store == st.store.(objects := st.store.objects[KeyOf(env, s) := s])
            && end.log == st.log && end.published == st.published
  {
    TwoSteps(env, st, p);
    n := 2;
    if KeyOf(env, s) !in st.store.objects {
      var two := Works(env, st, p, 2);
      assert Works(env, two, p, 1) == Works(env, Next(env, two, Work(p)), p, 0) == Next(env, two, Work(p));
      WorksAdd(env, st, p, 2, 1);
      n := 3;
    }
  }

  lemma ClaimRuns(env: Env, st: State, p: Id, s: Snapshot)
    requires PhaseOf(st, p) == ReadClaim(s) && ClaimsAt(st.store.claims, s.run, s.sequence) == {}
    ensures var end := Works(env, st, p, 2);
            && PhaseOf(end, p) == Recount(s)
            && end.store == st.store.(claims := AddClaim(env, st.store.claims, s))
            && end.log == st.log && end.published == st.published
  {
    assert ClaimKeyFor(s) in st.store.claims ==> ClaimKeyFor(s) in ClaimsAt(st.store.claims, s.run, s.sequence);
    TwoSteps(env, st, p);
  }

  lemma RecountRuns(env: Env, st: State, p: Id, s: Snapshot)
    requires PhaseOf(st, p) == Recount(s)
    requires RequireSingleClaim(
               st.store.claims, ClaimsAt(st.store.claims, s.run, s.sequence), Some(ClaimFor(env, s))).Ok?
    ensures var end := Works(env, st, p, 3);
            && PhaseOf(end, p) == Idle
            && end.store == st.store.(pointers := st.store.pointers[s.run := PointerTo(StoredOf(env, s))])
            && end.published == st.published + {StoredOf(env, s)} && StoredOf(env, s) in end.log
  {
    hide RequireSingleClaim, ClaimsAt, Works;
    OneStep(env, st, p);
    WorksAdd(env, st, p, 1, 2);
    var one := Next(env, st, Work(p));
    assert PhaseOf(one, p) == WritePointer(s);
    TwoSteps(env, one, p);
  }

  lemma WriteRuns(env: Env, st: State, p: Id, s: Snapshot) returns (n: nat)
    requires PhaseOf(st, p) == ReadObject(s) && ClaimsAt(st.store.claims, s.run, s.sequence) == {}
    requires KeyOf(env, s) in st.store.objects ==> st.store.objects[KeyOf(env, s)] == s
    ensures EndsPublished(env, st, Works(env, st, p, n), p, s)
  {
    hide Works, Next, PhaseOf;
    n := ObjectRuns(env, st, p, s);
    var mid := Works(env, st, p, n);
    ClaimRuns(env, mid, p, s);
    WorksAdd(env, st, p, n, 2);
    AloneAfterAdding(env, st.store.claims, s);
    RecountRuns(env, Works(env, mid, p, 2), p, s);
    WorksAdd(env, mid, p, 2, 3);
    WorksAdd(env, st, p, n, 5);
    n := n + 5;
  }

  // ---------------------------------------------------------------------------------------------
  // Whole jobs

  /** Process p begins the job and works on it n times. */
  function Turns(p: Id, job: Job, n: nat): seq<Event> {
    [Begin(p, job)] + seq(n, i => Work(p))
  }

  lemma OneMoreTurn(p: Id, job: Job, n: nat)
    ensures Turns(p, job, n + 1) == Turns(p, job, n) + [Work(p)] && Turns(p, job, 0) == [Begin(p, job)]
  {
  }

  lemma OneEvent(env: Env, events: seq<Event>, e: Event)
    ensures After(env, events + [e]) == Next(env, After(env, events), e)
  {
    assert (events + [e])[..|events|] == events;
  }

  lemma {:induction false} AfterTurns(env: Env, events: seq<Event>, p: Id, job: Job, n: nat)
    ensures After(env, events + Turns(p, job, n)) == Works(env, Next(env, After(env, events), Begin(p, job)), p, n)
  {
    hide Next, After, Turns;
    if n == 0 {
      OneMoreTurn(p, job, 0);
      OneEvent(env, events, Begin(p, job));
    } else {
      AfterTurns(env, events, p, job, n - 1);
      OneMoreTurn(p, job, n - 1);
      OneEvent(env, events + Turns(p, job, n - 1), Work(p));
      assert events + Turns(p, job, n) == events + Turns(p, job, n - 1) + [Work(p)];
      var begun := Next(env, After(env, events), Begin(p, job));
      hide Works;
      WorksAdd(env, begun, p, n - 1, 1);
      OneStep(env, Works(env, begun, p, n - 1), p);
    }
  }

  /** The sequence that a load of the run looks at first. */
  function FirstChecked(store: Store, run: Id): nat {
    if run in store.pointers then store.pointers[run].sequence else 1
  }

  /** Numbered right after the highest claim of its run, naming the one claim there, or none, as its predecessor. */
  ghost predicate Extending(store: Store, s: Snapshot) {
    var h := Highest(store.claims, s.run);
    && s.sequence == h + 1
    && (if h == 0 then s.previous == None
        else exists k :: ClaimsAt(store.claims, s.run, h) == {k} && s.previous == Some(store.claims[k].snapshot))
  }

  /** When a publication would be accepted, said of the claims alone. */
  lemma AcceptsExact(env: Env, store: Store, s: Snapshot)
    requires Coherent(env, store, s.run)
    requires KeyOf(env, s) in store.objects ==> store.objects[KeyOf(env, s)] == s
    ensures Accepts(env, store, s) <==> Clear(store, s.run, FirstChecked(store, s.run)) && Extending(store, s)
  {
    var h, out := Highest(store.claims, s.run), Reconcile(env, store, s.run, PointerOf(store, s.run));
    ReconcileExact(env, store, s.run, PointerOf(store, s.run));
    if out.result.Ok? && h > 0 {
      HeadIsClaimed(env, store, s.run, out.result.value.value);
      hide Reconcile, Clear;
      var head := out.result.value.value;
      var j :| ClaimsAt(store.claims, s.run, h) == {j} && store.claims[j].snapshot == head.reference;
      if Extending(store, s) {
        var k :| ClaimsAt(store.claims, s.run, h) == {k} && s.previous == Some(store.claims[k].snapshot);
        assert j in {k};
      }
    }
  }

  lemma HeadIsClaimed(env: Env, store: Store, run: Id, head: Stored)
    requires Shaped(env, store) && SoleAt(env, store, run, head)
    ensures exists k :: ClaimsAt(store.claims, run, head.snapshot.sequence) == {k}
                        && k in store.claims && store.claims[k].snapshot == head.reference
  {
    var k :| ClaimsAt(store.claims, run, head.snapshot.sequence) == {k}
             && store.claims[k].snapshot.key in store.objects && head == StoredOf(env, ClaimedSnapshot(store, k));
    assert k in ClaimsAt(store.claims, run, head.snapshot.sequence) && ClaimShape(env, store, k);
  }

  lemma ReachableAccepts(env: Env, events: seq<Event>, s: Snapshot)
    requires CollisionFree(env)
    ensures var store := After(env, events).store;
            && Coherent(env, store, s.run)
            && (KeyOf(env, s) in store.objects ==> store.objects[KeyOf(env, s)] == s)
  {
    InvAfter(env, events);
    ClaimsAreLinear(env, After(env, events));
    if KeyOf(env, s) in After(env, events).store.objects {
      DigestDetermines(env, After(env, events).store, s);
    }
  }

  /** A begun publication, left to itself. */
  lemma PublishRuns(env: Env, st: State, p: Id, s: Snapshot) returns (n: nat)
    requires PhaseOf(st, p) == ReadPointer(Publish(s))
    requires KeyOf(env, s) in st.store.objects ==> st.store.objects[KeyOf(env, s)] == s
    ensures var end := Works(env, st, p, n);
            && PhaseOf(end, p).Idle?
            && (if Accepts(env, st.store, s)
                then && end.store.objects == st.store.objects[KeyOf(env, s) := s]
                     && end.store.claims == AddClaim(env, st.store.claims, s)
                     && PointerOf(end.store, s.run) == Some(PointerTo(StoredOf(env, s)))
                     && end.published == st.published + {StoredOf(env, s)}
                else OnlyWalked(st, end, p, s.run))
  {
    hide Works, Reconcile, ClaimsAt, Next, PhaseOf;
    n := ReconcileRuns(env, st, p, Publish(s));
    if Accepts(env, st.store, s) {
      var mid := Works(env, st, p, n);
      NothingAfterHead(env, st.store, s.run, Reconcile(env, st.store, s.run, PointerOf(st.store, s.run)).result.value);
      var m := WriteRuns(env, mid, p, s);
      WorksAdd(env, st, p, n, m);
      n := n + m;
    }
  }

  /**
   After any history, a process left to itself publishes its snapshot when no sequence from the pointer on
   is contested and the snapshot extends the claims: object, claim and pointer are stored, and it returns.
   Otherwise it gives up and leaves objects and claims alone.
   */
  lemma PublishAlone(env: Env, events: seq<Event>, p: Id, s: Snapshot) returns (n: nat)
    requires CollisionFree(env) && PhaseOf(After(env, events), p).Idle? && JobOk(p, Publish(s))
    ensures var st, end := After(env, events), After(env, events + Turns(p, Publish(s), n));
            && PhaseOf(end, p).Idle?
            && if Clear(st.store, s.run, FirstChecked(st.store, s.run)) && Extending(st.store, s)
               then && StoredOf(env, s) in end.published
                    && end.store.objects == st.store.objects[KeyOf(env, s) := s]
                    && end.store.claims == st.store.claims[ClaimKeyFor(s) := ClaimFor(env, s)]
                    && PointerOf(end.store, s.run) == Some(PointerTo(StoredOf(env, s)))
               else && end.published == st.published
                    && end.store.objects == st.store.objects && end.store.claims == st.store.claims
  {
    hide Works, After, Accepts, Clear, Extending, Coherent;
    var st := After(env, events);
    ReachableAccepts(env, events, s);
    AcceptsExact(env, st.store, s);
    n := PublishRuns(env, Next(env, st, Begin(p, Publish(s))), p, s);
    AfterTurns(env, events, p, Publish(s), n);
  }

  /** A load left to itself ends with the pointer and the head that the specification gives it, and has observed it. */
  lemma LoadAlone(env: Env, events: seq<Event>, p: Id, run: Id) returns (n: nat)
    requires CollisionFree(env) && PhaseOf(After(env, events), p).Idle?
    ensures var st, end := After(env, events), After(env, events + Turns(p, Load(run), n));
            var out := Reconcile(env, st.store, run, PointerOf(st.store, run));
            && PhaseOf(end, p).Idle? && OnlyWalked(st, end, p, run) && PointerOf(end.store, run) == out.pointer
            && (out.result.Ok? <==> Clear(st.store, run, FirstChecked(st.store, run)))
            && (out.result.Ok? ==> AtHead(env, st.store, run, out))
            && (out.result.Ok? && out.result.value.Some? ==> out.result.value.value in end.log)
  {
    var st := After(env, events);
    var begun := Next(env, st, Begin(p, Load(run)));
    InvAfter(env, events);
    ClaimsAreLinear(env, st);
    ReconcileExact(env, st.store, run, PointerOf(st.store, run));
    n := ReconcileRuns(env, begun, p, Load(run));
    hide Works, After, Reconcile, Clear;
    AfterTurns(env, events, p, Load(run), n);
  }

  /** The pointer of the snapshot's run names it. */
  predicate PointedAt(store: Store, o: Stored) {
    o.snapshot.run in store.pointers && store.pointers[o.snapshot.run] == PointerTo(o)
  }

  /**
   A process whose pointer write has been overtaken gives up: a load goes on, and a publication returns,
   exactly while the pointer still names what it wrote.
   */
  lemma OvertakenGivesUp(env: Env, st: State, p: Id)
    ensures var phase, end := PhaseOf(st, p), Next(env, st, Work(p));
            && (phase.ConfirmAdvance? ==>
                  && end.published == st.published
                  && PhaseOf(end, p) == if PointedAt(st.store, phase.child)
                                          then Walk(phase.job, Some(phase.child))
                                          else Idle)
            && (phase.ConfirmPointer? ==>
                  && PhaseOf(end, p) == Idle
                  && end.published == st.published + if PointedAt(st.store, StoredOf(env, phase.snapshot))
                                                       then {StoredOf(env, phase.snapshot)} else {})
            && (!phase.ConfirmPointer? ==> end.published == st.published)
  {
  }
}
