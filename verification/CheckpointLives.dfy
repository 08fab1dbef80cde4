/** Coordinators that live one after the other on one run: what each of them finds to restore. */
module CheckpointLives {
  import opened Prelude
  import opened ClaimKeys
  import opened Bundle
  import opened CheckpointChain
  import opened CheckpointFiles
  import opened Coordinator
  import P = CheckpointProtocol

  /**
   A moment of the run.  `ready` says that the living coordinator has restored or is the first of the
   run, and `landed` is what the last commit whose claim was stored had been given to save, whether or
   not that commit returned.
   */
  datatype Moment = Moment(files: Files, attempt: string, head: Option<Claim>, ready: bool, landed: Option<Verified>)

  /** A bucket without a claim of the run. */
  ghost predicate Fresh(site: Site, s: Moment) {
    History(site, s.files) == Some([]) && s.head == None && s.landed == None && SafeId(s.attempt)
  }

  /** The coordinator is gone, whatever it was doing, and another one is constructed. */
  ghost predicate Replaced(site: Site, s: Moment, s': Moment) {
    && SafeId(s'.attempt) && s' == Moment(s.files, s'.attempt, None, s'.ready, s.landed)
    && (s'.ready ==> History(site, s.files) == Some([]))
  }

  ghost predicate SameButPointer(site: Site, files: Files, files': Files) {
    forall k :: k != PointerKey(site) ==> Get(files', k) == Get(files, k)
  }

  /** A restore: it failed early, found nothing to restore, or took the head of the chain. */
  ghost predicate Restored(site: Site, adapter: AdapterSpec, s: Moment, s': Moment) {
    && SameButPointer(site, s.files, s'.files) && s'.attempt == s.attempt && s'.landed == s.landed
    && (|| (s'.head == s.head && s'.ready == s.ready)
        || (s'.head == s.head && s'.ready && Recover(site, s.files, adapter) == Some(None))
        || (s'.ready && RestoredTo(site, s.files, s'.head)))
  }

  /** A commit of the job, stopped anywhere; one that returned has moved the head to its claim. */
  ghost predicate Committed(site: Site, adapter: AdapterSpec, s: Moment, s': Moment, job: P.Job) {
    && job.Commit? && job.adapter == adapter && Made(site, s.attempt, s.head, job).Some?
    && s.ready && s'.ready && s'.attempt == s.attempt
    && SomeWritesOf(site, s.files, s'.files, s.attempt, s.head, job)
    && (s'.head == s.head || Returned(site, s, s', job))
    && s'.landed == if Landed(site, s.files, s'.files, MadeClaim(site, s.attempt, s.head, job))
                    then Some(Verified(Made(site, s.attempt, s.head, job).value.1, Saved(job.payloads)))
                    else s.landed
  }

  ghost predicate Returned(site: Site, s: Moment, s': Moment, job: P.Job)
    requires job.Commit? && Made(site, s.attempt, s.head, job).Some?
  {
    var c := MadeClaim(site, s.attempt, s.head, job);
    s'.head == Some(c) && EndsWith(History(site, s'.files), c)
  }

  ghost predicate Next(site: Site, adapter: AdapterSpec, s: Moment, s': Moment) {
    Replaced(site, s, s') || Restored(site, adapter, s, s') || (exists job :: Committed(site, adapter, s, s', job))
  }

  /** A run from a bucket without a claim of it: any number of lives, each with any number of commits. */
  ghost predicate Lived(site: Site, adapter: AdapterSpec, run: seq<Moment>) {
    && run != [] && Fresh(site, run[0])
    && forall i {:trigger run[i]} :: 1 <= i < |run| ==> Next(site, adapter, run[i - 1], run[i])
  }

  // ---------------------------------------------------------------------------------------------
  // What every moment keeps

  ghost predicate Inv(site: Site, adapter: AdapterSpec, s: Moment) {
    && InOrder(site, s.files, adapter) && Recover(site, s.files, adapter) == Some(s.landed)
    && SafeId(s.attempt) && (s.ready || s.head.Some? ==> InStep(site, s.files, s.attempt, s.head))
  }

  lemma FreshInv(site: Site, adapter: AdapterSpec, s: Moment)
    requires Fresh(site, s)
    ensures Inv(site, adapter, s)
  {
    HistoryIsChained(site, s.files);
    NoClaims(ClaimsOf(site, s.files));
    hide History, ClaimsOf;
  }

  lemma NoClaims(all: set<Claim>)
    requires Chained(all, [])
    ensures all == {}
  {
    forall c ensures c !in all {
      assert !FitsChain(c, []);
    }
  }

  /** Pointer writes do not bring a coordinator out of step. */
  lemma StaysInStep(site: Site, files: Files, files': Files, attempt: string, head: Option<Claim>)
    requires InStep(site, files, attempt, head) && SameButPointer(site, files, files')
    ensures InStep(site, files', attempt, head)
  {
    SameHistory(site, files, files');
    CheckpointListingSkipsOthers(site.env.prefix, site.env.run, "");
    var path := CheckpointClaimKey(site.env.prefix, site.env.run, P.Expected(head), attempt);
    PathIsListed(site, P.Expected(head), attempt);
    assert Get(files', path) == Get(files, path);
    hide History;
  }

  lemma PathIsListed(site: Site, n: nat, attempt: string)
    ensures ListPrefix(site) <= CheckpointClaimKey(site.env.prefix, site.env.run, n, attempt)
  {
  }

  lemma RestoreKeepsInv(site: Site, adapter: AdapterSpec, s: Moment, s': Moment)
    requires Inv(site, adapter, s) && Restored(site, adapter, s, s')
    ensures Inv(site, adapter, s')
  {
    hide History, ClaimsOf, InOrder;
    RestoreKeepsOrder(site, s.files, s'.files, adapter);
    if RestoredTo(site, s.files, s'.head) {
      RestoredIsSynced(site, s.files, s'.files, s'.head);
    } else if InStep(site, s.files, s.attempt, s.head) {
      StaysInStep(site, s.files, s'.files, s.attempt, s.head);
    } else if s'.ready {
      NothingToRestore(site, s.files, adapter);
      StaysInStep(site, s.files, s'.files, s.attempt, s.head);
    }
  }

  /** A new coordinator of a run without a checkpoint stands where the bucket does. */
  lemma NothingToRestore(site: Site, files: Files, adapter: AdapterSpec)
    requires Recover(site, files, adapter) == Some(None)
    ensures Synced(site, files, None)
  {
    hide History;
  }

  lemma CommitKeepsInv(site: Site, adapter: AdapterSpec, s: Moment, s': Moment, job: P.Job)
    requires SiteOk(site) && Inv(site, adapter, s) && Committed(site, adapter, s, s', job)
    ensures Inv(site, adapter, s')
  {
    CrashAtomicity(site, s.files, s'.files, s.attempt, s.head, job);
    hide History, InOrder, Recover;
    if s'.head != s.head {
      ReturnedIsSynced(site, s'.files, s'.head.value);
    }
  }

  lemma ReturnedIsSynced(site: Site, files: Files, c: Claim)
    requires EndsWith(History(site, files), c)
    ensures Synced(site, files, Some(c))
  {
    hide History;
  }

  lemma NextKeepsInv(site: Site, adapter: AdapterSpec, s: Moment, s': Moment)
    requires SiteOk(site) && Inv(site, adapter, s) && Next(site, adapter, s, s')
    ensures Inv(site, adapter, s')
  {
    hide InOrder, Recover, Restored, Committed, History;
    if Restored(site, adapter, s, s') {
      RestoreKeepsInv(site, adapter, s, s');
    } else if !Replaced(site, s, s') {
      var job :| Committed(site, adapter, s, s', job);
      CommitKeepsInv(site, adapter, s, s', job);
    }
  }

  lemma {:induction false} InvAfter(site: Site, adapter: AdapterSpec, run: seq<Moment>)
    requires SiteOk(site) && Lived(site, adapter, run)
    ensures Inv(site, adapter, run[|run| - 1])
  {
    hide Inv, Next;
    if |run| == 1 {
      FreshInv(site, adapter, run[0]);
    } else {
      var before := run[..|run| - 1];
      assert forall i :: 0 <= i < |before| ==> before[i] == run[i];
      InvAfter(site, adapter, before);
      assert Next(site, adapter, run[|run| - 2], run[|run| - 1]);
      NextKeepsInv(site, adapter, run[|run| - 2], run[|run| - 1]);
    }
  }

  /**
   Whatever lives and crashes have gone before, the bucket restores exactly what was given to the last
   commit whose claim landed; and a coordinator that has restored finds its next claim to extend the
   chain, unless it already stored a claim there.
   */
  lemma LivesAreAtomic(site: Site, adapter: AdapterSpec, run: seq<Moment>)
    requires SiteOk(site) && Lived(site, adapter, run)
    ensures var s := run[|run| - 1];
            && Recover(site, s.files, adapter) == Some(s.landed)
            && History(site, s.files).Some?
            && (s.ready ==> InStep(site, s.files, s.attempt, s.head))
  {
    InvAfter(site, adapter, run);
    hide ClaimsOf, History;
  }

  // ---------------------------------------------------------------------------------------------
  // A life of the coordinator

  datatype Call = RestoreCall(adapterFails: bool) | CommitCall(boundary: nat, payloads: seq<Payload>, createdAt: int)

  /** One call on the coordinator; an unready one commits nothing, and restoring makes it ready. */
  method Serve(coordinator: CheckpointCoordinator, ready: bool, adapter: AdapterSpec, call: Call, ghost s: Moment)
    returns (ready': bool, restored: Option<Option<Verified>>, ghost s': Moment)
    requires coordinator.Valid() && Inv(coordinator.site, adapter, s)
    requires s.files == coordinator.store.files && s.attempt == coordinator.attempt
    requires s.head == coordinator.head && s.ready == ready
    modifies coordinator`head, coordinator.store
    modifies if coordinator.receipts == null then {} else {coordinator.receipts}
    ensures Next(coordinator.site, adapter, s, s')
    ensures s'.files == coordinator.store.files && s'.attempt == coordinator.attempt
    ensures s'.head == coordinator.head && s'.ready == ready'
    ensures restored.Some? ==> call.RestoreCall? && restored.value == s.landed
  {
    hide Inv, InOrder, Recover, History, SiteOk, InStep, CommitOutcome, Restored, Committed, Create;
    ready', restored := ready, None;
    match call
    case RestoreCall(adapterFails) =>
      var head := coordinator.head;
      var r := coordinator.RestoreLatest(adapter, adapterFails);
      ready' := ready || r.Ok? || coordinator.head != head;
      s' := s.(files := coordinator.store.files, head := coordinator.head, ready := ready');
      RestoreIsNext(coordinator.site, adapter, s, s', r);
      if r.Ok? { restored := Some(r.value); }
    case CommitCall(boundary, payloads, createdAt) =>
      s' := s;
      IdleIsNext(coordinator.site, adapter, s);
      if ready {
        var r := coordinator.Commit(adapter, boundary, payloads, createdAt);
        ghost var job := P.Commit(adapter, boundary, payloads, createdAt);
        s' := After(coordinator.site, s, coordinator.store.files, coordinator.head, job);
        CommitIsNext(coordinator.site, adapter, s, s', job, r);
      }
  }

  /** The moment a commit leaves behind. */
  ghost function After(site: Site, s: Moment, files: Files, head: Option<Claim>, job: P.Job): Moment
    requires job.Commit?
  {
    match Made(site, s.attempt, s.head, job)
    case None => s
    case Some((_, manifest)) =>
      var landed := Landed(site, s.files, files, MadeClaim(site, s.attempt, s.head, job));
      s.(files := files, head := head,
         landed := if landed then Some(Verified(manifest, Saved(job.payloads))) else s.landed)
  }

  lemma RestoreIsNext(
      site: Site, adapter: AdapterSpec, s: Moment, s': Moment, r: Result<Option<Verified>, CheckpointError>)
    requires Inv(site, adapter, s) && SameButPointer(site, s.files, s'.files)
    requires s' == s.(files := s'.files, head := s'.head, ready := s.ready || r.Ok? || s'.head != s.head)
    requires r.Ok? ==> Recover(site, s.files, adapter) == Some(r.value)
    requires r == Ok(None) ==> s'.head == s.head
    requires s'.head != s.head || (r.Ok? && r.value.Some?) ==> RestoredTo(site, s.files, s'.head)
    ensures Next(site, adapter, s, s') && (r.Ok? ==> r.value == s.landed)
  {
    assert Restored(site, adapter, s, s') by { hide Recover, RestoredTo; }
  }

  lemma IdleIsNext(site: Site, adapter: AdapterSpec, s: Moment)
    ensures Next(site, adapter, s, s)
  {
    assert Restored(site, adapter, s, s);
  }

  lemma CommitIsNext(
      site: Site, adapter: AdapterSpec, s: Moment, s': Moment, job: P.Job, r: Result<Ref, CheckpointError>)
    requires job.Commit? && job.adapter == adapter && s.ready && s' == After(site, s, s'.files, s'.head, job)
    requires Made(site, s.attempt, s.head, job).None? ==> s'.files == s.files && s'.head == s.head
    requires Made(site, s.attempt, s.head, job).Some? ==>
               CommitOutcome(site, s.files, s'.files, s.attempt, s.head, job)
    requires s'.head == s.head
             || (Made(site, s.attempt, s.head, job).Some? && Returned(site, s, s', job))
    ensures Next(site, adapter, s, s')
  {
    hide SomeWritesOf, InOrder, InStep, Recover, History, Returned;
    if Made(site, s.attempt, s.head, job).None? {
      IdleIsNext(site, adapter, s);
    } else {
      assert Committed(site, adapter, s, s', job);
    }
  }

  lemma LivedOn(site: Site, adapter: AdapterSpec, run: seq<Moment>, s: Moment)
    requires Lived(site, adapter, run)
    requires Replaced(site, run[|run| - 1], s) || Next(site, adapter, run[|run| - 1], s)
    ensures Lived(site, adapter, run + [s])
  {
    hide Replaced, Restored, Committed, Fresh;
  }

  /**
   A life: a new coordinator serves its calls on whatever the lives before it left, under any failures,
   and may be gone after any of them.  Each restore that returns hands out what had last landed.  Only
   the first coordinator of a run commits without restoring.
   */
  method Live(
      site: Site, attempt: string, store: ObjectStore, receipts: ReceiptStore?, renderPointer: Claim -> Bytes,
      adapter: AdapterSpec, isFirst: bool, calls: seq<Call>, ghost past: seq<Moment>)
    returns (restored: seq<Option<Option<Verified>>>, ghost run: seq<Moment>)
    requires SiteOk(site) && SafeId(attempt)
    requires past != [] && Lived(site, adapter, past) && past[|past| - 1].files == store.files
    requires isFirst ==> History(site, store.files) == Some([])
    modifies store
    modifies if receipts == null then {} else {receipts}
    ensures |run| == |past| + 1 + |calls| && past <= run
    ensures Lived(site, adapter, run) && run[|run| - 1].files == store.files
    ensures |restored| == |calls|
    ensures forall i :: 0 <= i < |calls| && restored[i].Some? ==> restored[i].value == run[|past| + i].landed
    ensures Recover(site, store.files, adapter) == Some(run[|run| - 1].landed)
  {
    hide Inv, Next, Fresh, Lived, Recover, SiteOk, History;
    var coordinator := new CheckpointCoordinator(site, attempt, store, receipts, renderPointer);
    var ready := isFirst;
    ghost var first := past[|past| - 1].(attempt := attempt, head := None, ready := isFirst);
    LivedOn(site, adapter, past, first);
    run, restored := past + [first], [];
    while |restored| < |calls|
      invariant |restored| <= |calls| && |run| == |past| + 1 + |restored| && past <= run
      invariant Lived(site, adapter, run)
      invariant run[|run| - 1].files == store.files && run[|run| - 1].attempt == attempt
      invariant run[|run| - 1].head == coordinator.head && run[|run| - 1].ready == ready
      invariant forall i :: 0 <= i < |restored| && restored[i].Some? ==> restored[i].value == run[|past| + i].landed
    {
      InvAfter(site, adapter, run);
      var value: Option<Option<Verified>>;
      ghost var s;
      ready, value, s := Serve(coordinator, ready, adapter, calls[|restored|], run[|run| - 1]);
      LivedOn(site, adapter, run, s);
      restored, run := restored + [value], run + [s];
    }
    LivesAreAtomic(site, adapter, run);
  }
}
