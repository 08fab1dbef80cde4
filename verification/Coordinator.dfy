/** The checkpoint coordinator: one attempt's commits and restores, under arbitrary failures of its store. */
module Coordinator {
  import opened Prelude
  import opened ClaimKeys
  import opened Bundle
  import opened CheckpointChain
  import opened CheckpointFiles
  import P = CheckpointProtocol

  datatype CheckpointError =
    | Io | Differs | Missing | WrongSequence | BadBundle | BadChain | ReadBackMismatch | NotTheHead
    | ModeRefused | HeadMismatch | AdapterFailed

  function Get(files: Files, path: string): Option<Bytes> {
    if path in files then Some(files[path]) else None
  }

  class ObjectStore {
    var files: Files
    /** The failures that the next operations will meet; none once the script is used up. */
    var faults: seq<Fault>

    constructor (faults: seq<Fault>)
      ensures files == map[] && this.faults == faults
    {
      files := map[];
      this.faults := faults;
    }

    method NextFault() returns (f: Fault)
      modifies this`faults
      ensures f == (if old(faults) == [] then Clean else old(faults)[0])
      ensures faults == if old(faults) == [] then [] else old(faults)[1..]
    {
      f := Clean;
      if faults != [] {
        f := faults[0];
        faults := faults[1..];
      }
    }

    method Read(path: string) returns (r: Result<Option<Bytes>, CheckpointError>)
      modifies this`faults
      ensures r == Ok(Get(files, path)) || r == Err(Io)
      ensures old(faults) == [] ==> faults == [] && r.Ok?
    {
      var f := NextFault();
      r := if f.Clean? then Ok(Get(files, path)) else Err(Io);
    }

    /** Writes an object that may be written again only with the same bytes. */
    method WriteImmutable(path: string, bytes: Bytes) returns (r: Result<(), CheckpointError>)
      modifies this`files, this`faults
      ensures files == old(files) || (path !in old(files) && files == old(files)[path := bytes])
      ensures r.Ok? ==> path in files && files[path] == bytes
      ensures old(faults) == [] ==>
                faults == [] && (r.Ok? <==> !(path in old(files) && old(files)[path] != bytes))
    {
      var f := NextFault();
      if f.Refused? { return Err(Io); }
      if path in files && files[path] != bytes { return Err(Differs); }
      if path !in files { files := files[path := bytes]; }
      r := if f.Applied? then Err(Io) else Ok(());
    }

    method WritePointerHint(path: string, bytes: Bytes) returns (r: Result<(), CheckpointError>)
      modifies this`files, this`faults
      ensures files == old(files) || files == old(files)[path := bytes]
      ensures r.Ok? ==> files == old(files)[path := bytes]
      ensures r.Err? ==> r.error == Io
      ensures old(faults) == [] ==> faults == [] && r.Ok?
    {
      var f := NextFault();
      if f.Refused? { return Err(Io); }
      files := files[path := bytes];
      r := if f.Applied? then Err(Io) else Ok(());
    }

    /** The paths below a prefix, in no particular order. */
    method List(prefix: string) returns (r: Result<seq<string>, CheckpointError>)
      modifies this`faults
      ensures r.Ok? ==> forall k :: k in r.value <==> k in files && prefix <= k
      ensures r.Err? ==> r.error == Io
      ensures old(faults) == [] ==> faults == [] && r.Ok?
    {
      var f := NextFault();
      if !f.Clean? { return Err(Io); }
      var keys: seq<string> := [];
      var rest := files.Keys;
      while rest != {}
        invariant rest <= files.Keys
        invariant forall k :: k in keys <==> k in files && k !in rest && prefix <= k
        decreases rest
      {
        var k :| k in rest;
        rest := rest - {k};
        if prefix <= k { keys := keys + [k]; }
      }
      r := Ok(keys);
    }
  }

  datatype Kind = RestoreReceipt | TerminalReceipt

  datatype Receipt = Receipt(kind: Kind, attempt: string, sequence: nat, checkpoint: Ref, adapter: AdapterSpec)

  class ReceiptStore {
    var receipts: seq<Receipt>
    var failing: bool

    method Publish(receipt: Receipt) returns (r: Result<(), CheckpointError>)
      modifies this`receipts
      ensures failing ==> r == Err(Io) && receipts == old(receipts)
      ensures !failing ==> r == Ok(()) && receipts == old(receipts) + [receipt]
    {
      if failing { return Err(Io); }
      receipts := receipts + [receipt];
      r := Ok(());
    }
  }

  class CheckpointCoordinator {
    const site: Site
    const attempt: string
    const store: ObjectStore
    const receipts: ReceiptStore?
    const renderPointer: Claim -> Bytes
    var head: Option<Claim>

    constructor (
        site: Site, attempt: string, store: ObjectStore, receipts: ReceiptStore?, renderPointer: Claim -> Bytes)
      requires SiteOk(site) && SafeId(attempt)
      ensures Valid() && head == None
      ensures this.site == site && this.attempt == attempt && this.store == store && this.receipts == receipts
      ensures this.renderPointer == renderPointer
    {
      this.site := site;
      this.attempt := attempt;
      this.store := store;
      this.receipts := receipts;
      this.renderPointer := renderPointer;
      head := None;
    }

    ghost predicate Valid() {
      SiteOk(site) && SafeId(attempt)
    }

    /** The history of the run; reading the listed claims fails like listing them. */
    method LoadHistory() returns (r: Result<seq<Claim>, CheckpointError>)
      modifies store`faults
      ensures r.Ok? ==> History(site, store.files) == Some(Checkpoints(r.value))
      ensures r.Ok? ==> forall i :: 0 <= i < |r.value| ==>
                r.value[i] in ClaimsOf(site, store.files) && r.value[i].sequence == i + 1
      ensures r.Err? ==> r.error == Io || History(site, store.files) == None
      ensures old(store.faults) == [] ==> store.faults == [] && (r.Ok? <==> History(site, store.files).Some?)
    {
      var keys :- store.List(CheckpointClaimPrefix(site.env.prefix, site.env.run));
      ListingShowsHistory(site, store.files, keys);
      var chain := LoadChain(site.cfg, store.files, keys);
      r := if chain.Ok? then Ok(chain.value) else Err(BadChain);
    }

    method FetchReference(reference: Ref) returns (r: Result<Bytes, CheckpointError>)
      modifies store`faults
      ensures r.Ok? ==>
                && reference.bucket == site.env.bucket && Get(store.files, reference.key) == Some(r.value)
                && |r.value| == reference.bytes && site.env.codec.sha(r.value) == reference.sha256
      ensures old(store.faults) == [] && r.Err? ==>
                || reference.bucket != site.env.bucket || reference.key !in store.files
                || |store.files[reference.key]| != reference.bytes
                || site.env.codec.sha(store.files[reference.key]) != reference.sha256
      ensures r.Ok? ==> P.ReadReference(site.env, store.files, reference) == Some(r.value)
      ensures r.Err? ==> r.error == Io || P.ReadReference(site.env, store.files, reference) == None
      ensures old(store.faults) == [] ==>
                store.faults == [] && (r.Ok? <==> P.ReadReference(site.env, store.files, reference).Some?)
    {
      if reference.bucket != site.env.bucket { return Err(Missing); }
      var raw :- store.Read(reference.key);
      if raw.None? { return Err(Missing); }
      if |raw.value| != reference.bytes || site.env.codec.sha(raw.value) != reference.sha256 { return Err(BadBundle); }
      r := Ok(raw.value);
    }

    /** The pointer is only a hint: claims remain authoritative when it cannot be written. */
    method RepairPointer(claim: Claim)
      modifies store`files, store`faults
      ensures store.files == old(store.files) 
                || store.files == old(store.files)[PointerKey(site) := renderPointer(claim)]
      ensures old(store.faults) == [] ==>
                store.faults == [] && store.files == old(store.files)[PointerKey(site) := renderPointer(claim)]
    {
      var written := store.WritePointerHint(CheckpointPointerKey(site.env.prefix, site.env.run), renderPointer(claim));
      if written.Ok? {
        var readBack := store.Read(CheckpointPointerKey(site.env.prefix, site.env.run));
      }
    }

    // -------------------------------------------------------------------------------------------
    // Committing

    method UploadBundle(bytes: Bytes, reference: Ref) returns (r: Result<(), CheckpointError>)
      requires reference == P.RefOf(site.env, bytes)
      modifies store`files, store`faults
      ensures store.files == old(store.files)
              || (reference.key !in old(store.files) && store.files == old(store.files)[reference.key := bytes])
      ensures r.Ok? ==>
                && reference.key in store.files && store.files[reference.key] == bytes
                && Decode(site.env.codec, bytes).Some?
      ensures old(store.faults) == [] ==> store.faults == []
      ensures old(store.faults) == [] && r.Err? ==>
                (reference.key in old(store.files) && old(store.files)[reference.key] != bytes)
                || Decode(site.env.codec, bytes).None?
    {
      var _ :- store.WriteImmutable(reference.key, bytes);
      var uploaded :- FetchReference(reference);
      var verified := VerifyBundle(site.env.codec, uploaded);
      r := if verified.None? then Err(BadBundle) else Ok(());
    }

    method PutClaim(claim: Claim) returns (r: Result<(), CheckpointError>)
      modifies store`files, store`faults
      ensures var path := ClaimPath(site, claim);
              store.files == old(store.files)
              || (path !in old(store.files) && store.files == old(store.files)[path := site.render(claim)])
      ensures r.Ok? ==>
                ClaimPath(site, claim) in store.files && store.files[ClaimPath(site, claim)] == site.render(claim)
      ensures old(store.faults) == [] ==> store.faults == []
      ensures old(store.faults) == [] && r.Err? ==> ClaimPath(site, claim) in old(store.files)
    {
      var doc := site.render(claim);
      var path := KeyOf(site.env.prefix, claim);
      var _ :- store.WriteImmutable(path, doc);
      var stored :- store.Read(path);
      r := if stored == Some(doc) then Ok(()) else Err(ReadBackMismatch);
    }

    method ConfirmHead(claim: Claim) returns (r: Result<(), CheckpointError>)
      requires claim.sequence >= 1
      modifies store`faults
      ensures r.Ok? ==> EndsWith(History(site, store.files), claim)
      ensures old(store.faults) == [] ==> store.faults == [] && (r.Ok? <==> EndsWith(History(site, store.files), claim))
    {
      var chain :- LoadHistory();
      LastConfirms(History(site, store.files), chain, claim);
      r := if |chain| > 0 && chain[|chain| - 1].sequence == claim.sequence
              && chain[|chain| - 1].checkpoint == claim.checkpoint
        then Ok(()) else Err(NotTheHead);
    }

    /** Everything between creating a bundle and finding its claim at the head of the chain. */
    method PublishBundle(bytes: Bytes, claim: Claim) returns (r: Result<(), CheckpointError>)
      requires Valid() && claim.checkpoint == P.RefOf(site.env, bytes)
      requires claim.run == site.env.run && WellFormed(claim)
      modifies store`files, store`faults
      ensures SomeCommitWrites(site, old(store.files), store.files, bytes, claim)
      ensures r.Ok? ==> ClaimPath(site, claim) in store.files && EndsWith(History(site, store.files), claim)
      ensures old(store.faults) == [] ==> store.faults == []
      ensures old(store.faults) == [] && r.Err? ==>
                || (claim.checkpoint.key in old(store.files) && old(store.files)[claim.checkpoint.key] != bytes)
                || Decode(site.env.codec, bytes).None?
                || ClaimPath(site, claim) in old(store.files)
                || (ClaimPath(site, claim) in store.files && !EndsWith(History(site, store.files), claim))
    {
      PathsAreApart(site, claim, bytes);
      var _ :- UploadBundle(bytes, claim.checkpoint);
      var _ :- PutClaim(claim);
      r := ConfirmHead(claim);
    }

    /** The writes of a commit, then the new head and the pointer. */
    method CommitMade(bytes: Bytes, claim: Claim) returns (r: Result<(), CheckpointError>)
      requires Valid() && claim.checkpoint == P.RefOf(site.env, bytes)
      requires claim.run == site.env.run && WellFormed(claim)
      modifies this`head, store`files, store`faults
      ensures SomeCommitWrites(site, old(store.files), store.files, bytes, claim)
      ensures r.Ok? ==> ClaimPath(site, claim) in store.files && EndsWith(History(site, store.files), claim)
      ensures head == if r.Ok? then Some(claim) else old(head)
      ensures old(store.faults) == [] && r.Ok? ==> Get(store.files, PointerKey(site)) == Some(renderPointer(claim))
      ensures old(store.faults) == [] && r.Err? ==>
                || (claim.checkpoint.key in old(store.files) && old(store.files)[claim.checkpoint.key] != bytes)
                || Decode(site.env.codec, bytes).None?
                || ClaimPath(site, claim) in old(store.files)
                || (ClaimPath(site, claim) in store.files && !EndsWith(History(site, store.files), claim))
    {
      var _ :- PublishBundle(bytes, claim);
      ghost var committed := store.files;
      head := Some(claim);
      RepairPointer(claim);
      PointerIsOnlyAHint(site, old(store.files), committed, store.files, bytes, claim);
      r := Ok(());
    }

    /**
     Commits a checkpoint of the boundary after the head.  However it ends, `CommitOutcome` holds; if it
     returns, the new bundle is the head of the chain; without failures it returns whenever it should.
     */
    method Commit(adapter: AdapterSpec, boundary: nat, payloads: seq<Payload>, createdAt: int)
      returns (r: Result<Ref, CheckpointError>)
      requires Valid()
      modifies this`head, store`files, store`faults
      ensures var job := P.Commit(adapter, boundary, payloads, createdAt);
              if Made(site, attempt, old(head), job).None?
              then store.files == old(store.files)
                   && r == Err(if boundary != P.Expected(old(head)) || boundary > MAX_SAFE_INTEGER
                                 then WrongSequence
                                 else BadBundle)
              else CommitOutcome(site, old(store.files), store.files, attempt, old(head), job)
      ensures r.Err? ==> head == old(head)
      ensures r.Ok? ==> var job := P.Commit(adapter, boundary, payloads, createdAt);
                        && Made(site, attempt, old(head), job).Some?
                        && head == Some(MadeClaim(site, attempt, old(head), job)) && r.value == head.value.checkpoint
                        && Synced(site, store.files, head)
      ensures old(store.faults) == [] && r.Ok? ==>
                Get(store.files, PointerKey(site)) == Some(renderPointer(head.value))
      ensures var job := P.Commit(adapter, boundary, payloads, createdAt);
              old(store.faults) == [] && Synced(site, old(store.files), old(head)) ==>
                (r.Ok? <==> CanCommit(site, old(store.files), attempt, old(head), job))
    {
      hide SomeCommitWrites, CommitOutcome, History, InOrder, InStep, Create, Decode;
      ghost var job := P.Commit(adapter, boundary, payloads, createdAt);
      if boundary != P.Expected(head) || boundary > MAX_SAFE_INTEGER { return Err(WrongSequence); }
      var meta := Meta(site.env.run, attempt, adapter, site.env.plan, boundary, P.Previous(head), createdAt);
      var made := Create(site.env.codec, meta, payloads);
      if made.None? { return Err(BadBundle); }
      var claim := ClaimOn(site, attempt, head, made.value.0, createdAt);
      var done := CommitMade(made.value.0, claim);
      OutcomeOf(site, old(store.files), store.files, attempt, old(head), job);
      r := if done.Ok? then Ok(claim.checkpoint) else Err(done.error);
    }

    /** Commits the last checkpoint and records that the run ended there. */
    method Finish(adapter: AdapterSpec, boundary: nat, payloads: seq<Payload>, createdAt: int)
      returns (r: Result<Ref, CheckpointError>)
      requires Valid()
      modifies this`head, store`files, store`faults
      modifies if receipts == null then {} else {receipts}
      ensures r.Ok? ==> head.Some? && head.value.checkpoint == r.value && head.value.sequence == boundary
      ensures r.Ok? ==> Synced(site, store.files, head)
      ensures receipts != null && r.Ok? ==>
                receipts.receipts
                  == old(receipts.receipts) + [Receipt(TerminalReceipt, attempt, boundary, r.value, adapter)]
      ensures receipts != null && r.Err? ==> receipts.receipts == old(receipts.receipts)
      ensures r.Err? ==> head == old(head) || (receipts != null && receipts.failing && Synced(site, store.files, head))
      ensures var job := P.Commit(adapter, boundary, payloads, createdAt);
              old(store.faults) == [] && (receipts == null || !old(receipts.failing))
              && Synced(site, old(store.files), old(head)) ==>
                (r.Ok? <==> CanCommit(site, old(store.files), attempt, old(head), job))
    {
      var checkpoint :- Commit(adapter, boundary, payloads, createdAt);
      var _ :- PublishReceipt(Receipt(TerminalReceipt, attempt, head.value.sequence, head.value.checkpoint, adapter));
      r := Ok(checkpoint);
    }

    method PublishReceipt(receipt: Receipt) returns (r: Result<(), CheckpointError>)
      modifies if receipts == null then {} else {receipts}
      ensures receipts == null ==> r.Ok?
      ensures receipts != null ==>
                && receipts.failing == old(receipts.failing) && (r.Ok? <==> !receipts.failing)
                && receipts.receipts == old(receipts.receipts) + (if r.Ok? then [receipt] else [])
    {
      if receipts == null { return Ok(()); }
      r := receipts.Publish(receipt);
    }

    // -------------------------------------------------------------------------------------------
    // Restoring

    /** Reads the bundle that a claim names and checks it against the claim and the adapter. */
    method ReadHead(target: Claim, adapter: AdapterSpec) returns (r: Result<Verified, CheckpointError>)
      modifies store`faults
      ensures r.Ok? ==> TargetVerified(site, store.files, adapter, target) == Some(r.value)
      ensures r.Err? ==> r.error == Io || TargetVerified(site, store.files, adapter, target) == None
      ensures old(store.faults) == [] ==>
                store.faults == [] && (r.Ok? <==> TargetVerified(site, store.files, adapter, target).Some?)
    {
      var bytes :- FetchReference(target.checkpoint);
      var verified := VerifyBundle(site.env.codec, bytes);
      if verified.None? { return Err(BadBundle); }
      var meta := verified.value.manifest.meta;
      if meta.run != site.env.run || meta.plan != site.env.plan { return Err(HeadMismatch); }
      if meta.adapter != adapter { return Err(HeadMismatch); }
      if meta.boundary != target.sequence { return Err(HeadMismatch); }
      if meta.previous != target.previous { return Err(HeadMismatch); }
      r := Ok(verified.value);
    }

    /** The head claim of the run with its verified bundle, if the run has a checkpoint. */
    method LoadHead(adapter: AdapterSpec) returns (r: Result<Option<(Claim, Verified)>, CheckpointError>)
      modifies store`faults
      ensures r == Ok(None) ==> Recover(site, store.files, adapter) == Some(None)
      ensures r.Ok? && r.value.Some? ==>
                var (target, verified) := r.value.value;
                && Recover(site, store.files, adapter) == Some(Some(verified))
                && target in ClaimsOf(site, store.files) && EndsWith(History(site, store.files), target)
      ensures old(store.faults) == [] ==>
                store.faults == [] && (r.Ok? <==> Recover(site, store.files, adapter).Some?)
    {
      hide History, ClaimsOf, VerifiedAt, TargetVerified, Recover, EndsWith;
      NothingRecovers(site, store.files, adapter);
      var chain :- LoadHistory();
      if |chain| == 0 {
        assert Checkpoints(chain) == [];
        return Ok(None);
      }
      var target := chain[|chain| - 1];
      HeadRecovers(site, store.files, adapter, Checkpoints(chain), target);
      var verified :- ReadHead(target, adapter);
      r := Ok(Some((target, verified)));
    }

    /** Stands at the claim from now on, whatever becomes of the pointer and the receipt. */
    method TakeHead(target: Claim, adapter: AdapterSpec) returns (r: Result<(), CheckpointError>)
      modifies this`head, store`files, store`faults
      modifies if receipts == null then {} else {receipts}
      ensures old(store.faults) == [] ==> Get(store.files, PointerKey(site)) == Some(renderPointer(target))
      ensures head == Some(target)
      ensures forall k :: k != PointerKey(site) ==> Get(store.files, k) == Get(old(store.files), k)
      ensures receipts == null ==> r.Ok?
      ensures receipts != null ==>
                && receipts.failing == old(receipts.failing) && (r.Ok? <==> !receipts.failing)
                && receipts.receipts == old(receipts.receipts)
                     + (if r.Ok?
                          then [Receipt(RestoreReceipt, attempt, target.sequence, target.checkpoint, adapter)]
                          else [])
    {
      head := Some(target);
      RepairPointer(target);
      r := PublishReceipt(Receipt(RestoreReceipt, attempt, target.sequence, target.checkpoint, adapter));
    }

    /**
     Hands the payloads of the head bundle to the adapter.  What is restored is exactly what the files
     say; nothing but the pointer is written; afterwards the coordinator stands at the head.
     */
    method RestoreLatest(adapter: AdapterSpec, adapterFails: bool)
      returns (r: Result<Option<Verified>, CheckpointError>)
      requires Valid()
      modifies this`head, store`files, store`faults
      modifies if receipts == null then {} else {receipts}
      ensures forall k :: k != PointerKey(site) ==> Get(store.files, k) == Get(old(store.files), k)
      ensures adapter.resumeMode.Restart? || adapter.resumeMode.Unsupported? ==>
                r == Err(ModeRefused) && store.files == old(store.files) && head == old(head)
      ensures r.Ok? ==> Recover(site, old(store.files), adapter) == Some(r.value)
      ensures r == Ok(None) ==> head == old(head)
      ensures r.Ok? && r.value.Some? ==> RestoredTo(site, old(store.files), head)
      ensures head != old(head) ==> RestoredTo(site, old(store.files), head)
      ensures old(store.faults) == [] && r.Ok? && r.value.Some? ==>
                Get(store.files, PointerKey(site)) == Some(renderPointer(head.value))
      // A restore is on record exactly when it returned something.
      ensures receipts != null && r.Ok? && r.value.Some? ==>
                receipts.receipts == old(receipts.receipts)
                  + [Receipt(RestoreReceipt, attempt, head.value.sequence, head.value.checkpoint, adapter)]
      ensures receipts != null && (r.Err? || r == Ok(None)) ==> receipts.receipts == old(receipts.receipts)
      ensures old(store.faults) == [] && !adapterFails && (receipts == null || !old(receipts.failing)) ==>
                (r.Ok? <==> !adapter.resumeMode.Restart? && !adapter.resumeMode.Unsupported?
                            && Recover(site, old(store.files), adapter).Some?)
    {
      if adapter.resumeMode.Restart? || adapter.resumeMode.Unsupported? { return Err(ModeRefused); }
      var loaded :- LoadHead(adapter);
      if loaded.None? { return Ok(None); }
      var (target, verified) := loaded.value;
      if adapterFails { return Err(AdapterFailed); }
      var _ :- TakeHead(target, adapter);
      r := Ok(Some(verified));
    }
  }

  /** The coordinator stands at a claim of the head of the chain. */
  ghost predicate RestoredTo(site: Site, files: Files, head: Option<Claim>) {
    head.Some? && head.value in ClaimsOf(site, files) && EndsWith(History(site, files), head.value)
  }

  /** After a restore the coordinator is synchronized with the bucket. */
  lemma RestoredIsSynced(site: Site, files: Files, files': Files, head: Option<Claim>)
    requires RestoredTo(site, files, head)
    requires forall k :: k != PointerKey(site) ==> Get(files', k) == Get(files, k)
    ensures Synced(site, files', head)
  {
    hide History, ClaimsOf, Get, PointerKey;
    SameHistory(site, files, files');
  }

  /** A restore leaves a bucket in order, with the same to restore. */
  lemma RestoreKeepsOrder(site: Site, files: Files, files': Files, adapter: AdapterSpec)
    requires InOrder(site, files, adapter)
    requires forall k :: k != PointerKey(site) ==> Get(files', k) == Get(files, k)
    ensures InOrder(site, files', adapter) && Recover(site, files', adapter) == Recover(site, files, adapter)
  {
    SameHistory(site, files, files');
    forall k | k in files && k != PointerKey(site) ensures k in files' && files'[k] == files[k] {
      assert Get(files', k) == Get(files, k);
    }
    RecoverStays(site, files, files', adapter);
    hide History, ClaimsOf, Recover;
  }

  /** Files that differ only at the pointer have the same claims and the same history. */
  lemma SameHistory(site: Site, files: Files, files': Files)
    requires forall k :: k != PointerKey(site) ==> Get(files', k) == Get(files, k)
    ensures History(site, files') == History(site, files) && ClaimsOf(site, files') == ClaimsOf(site, files)
  {
    hide History, ClaimsOf;
    CheckpointListingSkipsOthers(site.env.prefix, site.env.run, "");
    forall k | ListPrefix(site) <= k ensures (k in files <==> k in files') && (k in files ==> files[k] == files'[k]) {
      assert Get(files', k) == Get(files, k);
    }
    HistoryDependsOnClaims(site, files, files');
  }

  /** A restore checks the head bundle against the head claim. */
  ghost function TargetVerified(site: Site, files: Files, adapter: AdapterSpec, target: Claim): Option<Verified> {
    VerifiedAt(site, files, adapter, target.checkpoint, target.sequence, target.previous)
  }

  /** Since the claim is linked into the chain, that is a check against the chain. */
  lemma TargetIsHead(site: Site, files: Files, adapter: AdapterSpec, all: set<Claim>, refs: seq<Ref>, target: Claim)
    requires Chained(all, refs) && target in all && target.sequence == |refs| >= 1
    ensures TargetVerified(site, files, adapter, target) == VerifiedHead(site, files, adapter, refs)
    ensures EndsWith(Some(refs), target)
  {
    assert FitsChain(target, refs);
  }

  lemma NothingRecovers(site: Site, files: Files, adapter: AdapterSpec)
    ensures History(site, files) == Some([]) ==> Recover(site, files, adapter) == Some(None)
    ensures History(site, files) == None ==> Recover(site, files, adapter) == None
  {
    hide History;
  }

  /** Recovering means verifying the bundle of any claim at the head. */
  lemma HeadRecovers(site: Site, files: Files, adapter: AdapterSpec, refs: seq<Ref>, target: Claim)
    requires History(site, files) == Some(refs) && target in ClaimsOf(site, files) && target.sequence == |refs| >= 1
    ensures Recover(site, files, adapter) == match TargetVerified(site, files, adapter, target)
                                             case None => None case Some(v) => Some(Some(v))
    ensures EndsWith(History(site, files), target)
  {
    HistoryIsChained(site, files);
    TargetIsHead(site, files, adapter, ClaimsOf(site, files), refs, target);
    hide History, ClaimsOf, VerifiedAt;
  }

  lemma LastConfirms(history: Option<seq<Ref>>, chain: seq<Claim>, claim: Claim)
    requires history == Some(Checkpoints(chain)) && claim.sequence >= 1
    requires forall i :: 0 <= i < |chain| ==> chain[i].sequence == i + 1
    ensures |chain| > 0 && chain[|chain| - 1].sequence == claim.sequence
            && chain[|chain| - 1].checkpoint == claim.checkpoint
            <==> EndsWith(history, claim)
  {
  }

  /** The bundle can be made and read back, and its key is free or already holds it. */
  ghost predicate CanCommit(site: Site, files: Files, attempt: string, head: Option<Claim>, job: P.Job)
    requires job.Commit?
  {
    && Made(site, attempt, head, job).Some?
    && var bytes := Made(site, attempt, head, job).value.0;
       Decode(site.env.codec, bytes).Some? && Get(files, P.RefOf(site.env, bytes).key) in {None, Some(bytes)}
  }

  /** A commit from a synchronized head either leaves the history or lands where it should. */
  lemma SyncedOutcome(site: Site, files: Files, files': Files, attempt: string, head: Option<Claim>, job: P.Job)
    requires SiteOk(site) && SafeId(attempt) && job.Commit? && Made(site, attempt, head, job).Some?
    requires SomeWritesOf(site, files, files', attempt, head, job) && Synced(site, files, head)
    ensures var c := MadeClaim(site, attempt, head, job);
            ClaimPath(site, c) !in files
            && (ClaimPath(site, c) in files' ==>
                  EndsWith(History(site, files'), c) && CanCommit(site, files, attempt, head, job))
  {
    var (c, bytes) := (MadeClaim(site, attempt, head, job), Made(site, attempt, head, job).value.0);
    SyncedClaimExtends(site, files, files', attempt, head, bytes, job.createdAt);
    PathsAreApart(site, c, bytes);
    hide History, Create, Decode;
  }

  lemma OutcomeOf(site: Site, files: Files, files': Files, attempt: string, head: Option<Claim>, job: P.Job)
    requires SiteOk(site) && SafeId(attempt) && job.Commit? && Made(site, attempt, head, job).Some?
    requires SomeWritesOf(site, files, files', attempt, head, job)
    ensures CommitOutcome(site, files, files', attempt, head, job)
    ensures Synced(site, files, head) ==>
              var c := MadeClaim(site, attempt, head, job);
              ClaimPath(site, c) !in files
              && (ClaimPath(site, c) in files' ==>
                    EndsWith(History(site, files'), c) && CanCommit(site, files, attempt, head, job))
  {
    hide SiteOk, SomeWritesOf, InOrder, InStep, Synced, Recover, History, CanCommit, EndsWith;
    if Synced(site, files, head) {
      SyncedOutcome(site, files, files', attempt, head, job);
    }
    if InOrder(site, files, job.adapter) && InStep(site, files, attempt, head) {
      CrashAtomicity(site, files, files', attempt, head, job);
    }
  }
}
