/**
 Retries among competitors: a process that keeps trying to publish one snapshot, while any other
 processes publish, load and crash around it, adds at most that snapshot's claim.
 */
module ProgressRetries {
  import opened Prelude
  import opened ProgressModel
  import opened ProgressProtocol
  import opened ProgressAgreement
  import S = ProgressStores

  /** Every reachable store satisfies what the store's methods rely on. */
  lemma ReachableIsCoherent(env: Env, events: seq<Event>, run: Id)
    requires CollisionFree(env)
    ensures S.Coherent(env, After(env, events).store, run)
  {
    InvAfter(env, events);
    ClaimsAreLinear(env, After(env, events));
  }

  /** Whatever the phase is about to publish is `s`. */
  predicate Concerns(phase: Phase, s: Snapshot) {
    match phase
    case Idle => true
    case ReadPointer(job) => JobConcerns(job, s)
    case LoadHead(job, _) => JobConcerns(job, s)
    case CheckHead(job, _) => JobConcerns(job, s)
    case Walk(job, _) => JobConcerns(job, s)
    case LoadChild(job, _, _) => JobConcerns(job, s)
    case Advance(job, _) => JobConcerns(job, s)
    case ConfirmAdvance(job, _) => JobConcerns(job, s)
    case ReadObject(x) => x == s
    case WriteObject(x) => x == s
    case ConfirmObject(x) => x == s
    case ReadClaim(x) => x == s
    case WriteClaim(x) => x == s
    case Recount(x) => x == s
    case WritePointer(x) => x == s
    case ConfirmPointer(x) => x == s
  }

  predicate JobConcerns(job: Job, s: Snapshot) {
    job.Publish? ==> job.snapshot == s
  }

  /** The process reconciles, or does nothing; it has no publication under way. */
  predicate Reconciling(phase: Phase) {
    || phase.Idle? || phase.ReadPointer? || phase.LoadHead? || phase.CheckHead? || phase.Walk?
    || phase.LoadChild? || phase.Advance? || phase.ConfirmAdvance?
  }

  /** In these events process p loads what it likes, but publishes nothing except `s`. */
  predicate Retries(events: seq<Event>, p: Id, s: Snapshot) {
    forall i :: 0 <= i < |events| && events[i].Begin? && events[i].proc == p ==> JobConcerns(events[i].job, s)
  }

  lemma PerformConcerns(env: Env, store: Store, phase: Phase, s: Snapshot)
    requires Concerns(phase, s)
    ensures Concerns(Perform(env, store, phase).phase, s)
    ensures Perform(env, store, phase).store.claims == store.claims
            || Perform(env, store, phase).store.claims == store.claims[ClaimKeyFor(s) := ClaimFor(env, s)]
  {
  }

  /** Only the claim of `s` may appear under process p. */
  ghost predicate OnlyOwnClaim(env: Env, was: Store, now: Store, p: Id, s: Snapshot) {
    forall k :: k in now.claims && k !in was.claims && k.attempt == p ==>
      k == ClaimKeyFor(s) && now.claims[k] == ClaimFor(env, s)
  }

  lemma StepAddsOwnClaim(env: Env, st: State, e: Event, p: Id, s: Snapshot)
    requires CollisionFree(env) && Inv(env, st) && Concerns(PhaseOf(st, p), s)
    requires e.Begin? && e.proc == p ==> JobConcerns(e.job, s)
    ensures Concerns(PhaseOf(Next(env, st, e), p), s) && OnlyOwnClaim(env, st.store, Next(env, st, e).store, p, s)
  {
    if e.proc == p {
      PerformConcerns(env, st.store, PhaseOf(st, p), s);
    } else {
      StepKeepsInv(env, st, e);
    }
  }

  /**
   At most once among competitors.  However often process p tries to publish `s`, and whatever fails or
   interleaves, the only claim that appears under p is that of `s`.
   */
  lemma {:induction false} RetriesAddOneClaim(env: Env, events: seq<Event>, more: seq<Event>, p: Id, s: Snapshot)
    requires CollisionFree(env) && Concerns(PhaseOf(After(env, events), p), s) && Retries(more, p, s)
    ensures Concerns(PhaseOf(After(env, events + more), p), s)
    ensures OnlyOwnClaim(env, After(env, events).store, After(env, events + more).store, p, s)
  {
    if more == [] {
      assert events + more == events;
    } else {
      var n := |more| - 1;
      RetriesStart(more, p, s);
      RetriesAddOneClaim(env, events, more[..n], p, s);
      InvAfter(env, events + more[..n]);
      AfterOneMore(env, events, more);
      var was, mid := After(env, events), After(env, events + more[..n]);
      var now := After(env, events + more);
      hide Next, After, Inv, Concerns, Grows;
      StepAddsOwnClaim(env, mid, more[n], p, s);
      ClaimsStay(env, mid, more[n]);
      OwnClaimsCompose(env, was.store, mid.store, now.store, p, s);
    }
  }

  lemma RetriesStart(more: seq<Event>, p: Id, s: Snapshot)
    requires Retries(more, p, s) && more != []
    ensures Retries(more[..|more| - 1], p, s)
    ensures more[|more| - 1].Begin? && more[|more| - 1].proc == p ==> JobConcerns(more[|more| - 1].job, s)
  {
    assert forall i :: 0 <= i < |more| - 1 ==> more[..|more| - 1][i] == more[i];
  }

  lemma AfterOneMore(env: Env, events: seq<Event>, more: seq<Event>)
    requires more != []
    ensures After(env, events + more) == Next(env, After(env, events + more[..|more| - 1]), more[|more| - 1])
  {
    assert (events + more)[..|events + more| - 1] == events + more[..|more| - 1];
  }

  lemma ClaimsStay(env: Env, st: State, e: Event)
    requires CollisionFree(env) && Inv(env, st)
    ensures forall k :: k in st.store.claims ==>
              k in Next(env, st, e).store.claims && Next(env, st, e).store.claims[k] == st.store.claims[k]
  {
    StepKeepsInv(env, st, e);
  }

  /** A try that returned has its claim in the store, whoever else was at work. */
  lemma ReturnedIsClaimed(env: Env, events: seq<Event>, s: Snapshot)
    requires CollisionFree(env) && StoredOf(env, s) in After(env, events).published
    ensures ClaimKeyFor(s) in After(env, events).store.claims
    ensures After(env, events).store.claims[ClaimKeyFor(s)] == ClaimFor(env, s)
  {
    var st := After(env, events);
    InvAfter(env, events);
    assert SeenOk(env, st.store, st.alone, StoredOf(env, s));
  }

  lemma OwnClaimsCompose(env: Env, was: Store, mid: Store, now: Store, p: Id, s: Snapshot)
    requires OnlyOwnClaim(env, was, mid, p, s) && OnlyOwnClaim(env, mid, now, p, s)
    requires forall k :: k in mid.claims ==> k in now.claims && now.claims[k] == mid.claims[k]
    ensures OnlyOwnClaim(env, was, now, p, s)
  {
    forall k | k in now.claims && k !in was.claims && k.attempt == p
      ensures k == ClaimKeyFor(s) && now.claims[k] == ClaimFor(env, s)
    {
      if k in mid.claims { assert now.claims[k] == mid.claims[k]; }
    }
  }

  /** Reconciliation ends below a claim that stands, so it never accepts that claim's own snapshot again. */
  lemma StepStaysReconciling(env: Env, st: State, e: Event, p: Id, s: Snapshot)
    requires Concerns(PhaseOf(st, p), s) && Reconciling(PhaseOf(st, p)) && ClaimKeyFor(s) in st.store.claims
    requires e.Begin? && e.proc == p ==> JobConcerns(e.job, s)
    ensures Reconciling(PhaseOf(Next(env, st, e), p))
    ensures e.proc == p ==> Next(env, st, e).published == st.published
  {
    assert ClaimKeyFor(s) in ClaimsAt(st.store.claims, s.run, s.sequence);
  }

  /**
   A retry is rejected, not repeated: once the claim of `s` is stored and process p has abandoned the
   publication that stored it, no further try of p to publish `s` ever gets as far as its first write.
   */
  lemma {:induction false} RetryIsRejected(env: Env, events: seq<Event>, more: seq<Event>, p: Id, s: Snapshot)
    requires CollisionFree(env) && Concerns(PhaseOf(After(env, events), p), s)
             && Reconciling(PhaseOf(After(env, events), p))
    requires ClaimKeyFor(s) in After(env, events).store.claims && Retries(more, p, s)
    ensures Reconciling(PhaseOf(After(env, events + more), p))
    ensures forall k :: k in After(env, events + more).store.claims && k.attempt == p ==>
              k in After(env, events).store.claims
  {
    if more == [] {
      assert events + more == events;
    } else {
      var n := |more| - 1;
      RetriesStart(more, p, s);
      RetryIsRejected(env, events, more[..n], p, s);
      RetriesAddOneClaim(env, events, more[..n], p, s);
      AfterOneMore(env, events, more);
      InvAfter(env, events + more[..n]);
      HistoryGrows(env, events + more[..n], |events|);
      assert (events + more[..n])[..|events|] == events;
      RejectedStep(env, After(env, events + more[..n]), more[n], p, s);
      hide Next, After, Inv, Concerns, Reconciling;
    }
  }

  lemma RejectedStep(env: Env, st: State, e: Event, p: Id, s: Snapshot)
    requires CollisionFree(env) && Inv(env, st) && Concerns(PhaseOf(st, p), s) && Reconciling(PhaseOf(st, p))
    requires ClaimKeyFor(s) in st.store.claims && (e.Begin? && e.proc == p ==> JobConcerns(e.job, s))
    ensures Reconciling(PhaseOf(Next(env, st, e), p))
    ensures forall k :: k in Next(env, st, e).store.claims && k.attempt == p ==> k in st.store.claims
  {
    StepStaysReconciling(env, st, e, p, s);
    StepKeepsInv(env, st, e);
  }
}
