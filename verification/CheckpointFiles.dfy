/** What the files of a bucket say about a checkpointed run, and how single writes change that. */
module CheckpointFiles {
  import opened Prelude
  import opened ClaimKeys
  import opened Bundle
  import opened CheckpointChain
  import P = CheckpointProtocol

  type Files = map<string, Bytes>

  /** One run of one plan in one bucket, with the JSON text of its claims. */
  datatype Site = Site(env: P.Env, cfg: Config, render: Claim -> Bytes)

  ghost predicate SiteOk(site: Site) {
    && site.cfg.run == site.env.run && site.cfg.plan == site.env.plan && site.cfg.prefix == site.env.prefix
    && SafeId(site.env.run) && RoundTrips(site.env.codec)
    && (forall c :: WellFormed(c) ==> site.cfg.parse(site.render(c)) == Some(c))
    && (forall b :: site.cfg.parse(b).Some? ==> WellFormed(site.cfg.parse(b).value))
  }

  /** What the parser of claim documents insists on. */
  predicate WellFormed(c: Claim) {
    SafeId(c.run) && SafeId(c.attempt) && 1 <= c.sequence <= MAX_SAFE_INTEGER
  }

  function ListPrefix(site: Site): string {
    CheckpointClaimPrefix(site.env.prefix, site.env.run)
  }

  predicate Listed(site: Site, files: Files, key: string) {
    key in files && ListPrefix(site) <= key && LooksLikeClaim(key)
  }

  ghost predicate Readable(site: Site, files: Files) {
    forall k {:trigger Doc(site.cfg, files, k)} :: Listed(site, files, k) ==> Doc(site.cfg, files, k).Ok?
  }

  ghost function ClaimsOf(site: Site, files: Files): set<Claim> {
    set k {:trigger Doc(site.cfg, files, k)} | k in files && Listed(site, files, k) && Doc(site.cfg, files, k).Ok?
      :: Doc(site.cfg, files, k).value
  }

  /** The references of the run's chain, if its claims form one. */
  ghost function History(site: Site, files: Files): Option<seq<Ref>> {
    if Readable(site, files) then Chain(ClaimsOf(site, files)) else None
  }

  lemma HistoryIsChained(site: Site, files: Files)
    requires History(site, files).Some?
    ensures Chained(ClaimsOf(site, files), History(site, files).value)
  {
  }

  ghost predicate Listing(site: Site, files: Files, keys: seq<string>) {
    forall k :: k in keys <==> k in files && ListPrefix(site) <= k
  }

  lemma ListingShowsHistory(site: Site, files: Files, keys: seq<string>)
    requires Listing(site, files, keys)
    ensures ListedChain(site.cfg, files, keys) == History(site, files)
    ensures ClaimsIn(site.cfg, files, keys) == ClaimsOf(site, files)
  {
    assert AllReadable(site.cfg, files, keys) <==> Readable(site, files) by {
      if AllReadable(site.cfg, files, keys) {
        forall k | Listed(site, files, k) ensures Doc(site.cfg, files, k).Ok? { assert k in keys; }
      }
      if Readable(site, files) {
        forall k | k in keys && LooksLikeClaim(k) ensures Doc(site.cfg, files, k).Ok? { assert Listed(site, files, k); }
      }
    }
    assert ClaimsIn(site.cfg, files, keys) == ClaimsOf(site, files);
  }

  // ---------------------------------------------------------------------------------------------
  // What a new coordinator recovers

  /** The bundle behind a reference, once it has passed every check of a restore. */
  ghost function VerifiedAt(
      site: Site, files: Files, adapter: AdapterSpec, reference: Ref, sequence: nat,
      previous: Option<string>): Option<Verified>
  {
    match P.ReadReference(site.env, files, reference)
    case None => None
    case Some(raw) =>
      match Decode(site.env.codec, raw)
      case None => None
      case Some(v) =>
        var meta := v.manifest.meta;
        if meta.run == site.env.run && meta.plan == site.env.plan && meta.adapter == adapter
           && meta.boundary == sequence && meta.previous == previous
        then Some(v) else None
  }

  ghost function VerifiedHead(site: Site, files: Files, adapter: AdapterSpec, refs: seq<Ref>): Option<Verified>
    requires refs != []
  {
    VerifiedAt(site, files, adapter, refs[|refs| - 1], |refs|, Predecessor(refs, |refs|))
  }

  /** What any new coordinator with this adapter restores: nothing yet, a bundle, or an error. */
  ghost function Recover(site: Site, files: Files, adapter: AdapterSpec): Option<Option<Verified>> {
    match History(site, files)
    case None => None
    case Some(refs) =>
      if refs == [] then Some(None)
      else match VerifiedHead(site, files, adapter, refs)
        case None => None
        case Some(v) => Some(Some(v))
  }

  /** The coordinator's head is the head of the chain in the bucket. */
  ghost predicate Synced(site: Site, files: Files, head: Option<Claim>) {
    && History(site, files).Some?
    && var refs := History(site, files).value;
       && (refs == [] <==> head.None?)
       && (head.Some? ==> head.value.sequence == |refs| && head.value.checkpoint == refs[|refs| - 1])
  }

  function BundleKey(site: Site, digest: string): string {
    CheckpointBundleKey(site.env.prefix, site.env.run, digest)
  }

  function PointerKey(site: Site): string {
    CheckpointPointerKey(site.env.prefix, site.env.run)
  }

  function ClaimPath(site: Site, c: Claim): string {
    KeyOf(site.env.prefix, c)
  }

  // ---------------------------------------------------------------------------------------------
  // Single writes

  /** The two sets of files hold the same documents under the listing prefix. */
  ghost predicate SameClaims(site: Site, files: Files, files': Files) {
    forall k :: ListPrefix(site) <= k ==> (k in files <==> k in files') && (k in files ==> files[k] == files'[k])
  }

  lemma HistoryDependsOnClaims(site: Site, files: Files, files': Files)
    requires SameClaims(site, files, files')
    ensures History(site, files') == History(site, files) && ClaimsOf(site, files') == ClaimsOf(site, files)
  {
    forall k ensures Listed(site, files, k) <==> Listed(site, files', k) {}
    forall k | Listed(site, files, k) ensures Doc(site.cfg, files, k) == Doc(site.cfg, files', k) {}
    assert Readable(site, files) <==> Readable(site, files') by {
      forall k | Listed(site, files, k) ensures Doc(site.cfg, files, k).Ok? <==> Doc(site.cfg, files', k).Ok? {}
    }
    assert ClaimsOf(site, files') == ClaimsOf(site, files);
  }

  /** A claim that may be written: canonical, readable, and the next one after the chain. */
  ghost predicate NextClaim(site: Site, refs: seq<Ref>, c: Claim) {
    && c.run == site.env.run && c.plan == site.env.plan && WellFormed(c)
    && c.sequence == |refs| + 1 && c.previous == Predecessor(refs, c.sequence)
  }

  lemma ClaimPathIsListed(site: Site, files: Files, c: Claim)
    requires SiteOk(site) && c.run == site.env.run && c.plan == site.env.plan && WellFormed(c)
    requires ClaimPath(site, c) in files && files[ClaimPath(site, c)] == site.render(c)
    ensures Listed(site, files, ClaimPath(site, c)) && Doc(site.cfg, files, ClaimPath(site, c)) == Ok(c)
  {
    CanonicalKeysLookLikeClaims(site.env.prefix, c.run, c.sequence, c.attempt);
    CheckpointClaimKeyInjective(site.env.prefix, c.run, c.sequence, c.attempt, c.run, c.sequence, c.attempt);
  }

  /** Only the claims of a sequence live at its claim paths, so the next path is free. */
  lemma NextPathIsFree(site: Site, files: Files, refs: seq<Ref>, c: Claim)
    requires SiteOk(site) && History(site, files) == Some(refs) && NextClaim(site, refs, c)
    ensures ClaimPath(site, c) !in files
  {
    var path := ClaimPath(site, c);
    CanonicalKeysLookLikeClaims(site.env.prefix, c.run, c.sequence, c.attempt);
    CheckpointClaimKeyInjective(site.env.prefix, c.run, c.sequence, c.attempt, c.run, c.sequence, c.attempt);
    if path in files {
      assert Listed(site, files, path);
      var d := Doc(site.cfg, files, path).value;
      assert d in ClaimsOf(site, files);
      assert FitsChain(d, refs);
      CheckpointClaimKeyInjective(site.env.prefix, c.run, c.sequence, c.attempt, d.run, d.sequence, d.attempt);
    }
  }

  /** A new claim document adds exactly its claim to what is listed. */
  lemma OneMoreDoc(site: Site, files: Files, c: Claim)
    requires SiteOk(site) && c.run == site.env.run && c.plan == site.env.plan && WellFormed(c)
    requires ClaimPath(site, c) !in files
    ensures var mid := files[ClaimPath(site, c) := site.render(c)];
            (Readable(site, mid) <==> Readable(site, files)) && ClaimsOf(site, mid) == ClaimsOf(site, files) + {c}
  {
    var path := ClaimPath(site, c);
    var mid := files[path := site.render(c)];
    ClaimPathIsListed(site, mid, c);
    forall k | k != path ensures Listed(site, mid, k) <==> Listed(site, files, k) {}
    forall k | Listed(site, files, k) ensures Doc(site.cfg, mid, k) == Doc(site.cfg, files, k) {}
    StillReadable(site, files, mid, path);
    assert ClaimsOf(site, mid) == ClaimsOf(site, files) + {c} by {
      forall d | d in ClaimsOf(site, files) ensures d in ClaimsOf(site, mid) {
        var k :| Listed(site, files, k) && Doc(site.cfg, files, k) == Ok(d);
        assert Doc(site.cfg, mid, k) == Ok(d);
      }
      forall d | d in ClaimsOf(site, mid) ensures d in ClaimsOf(site, files) + {c} {
        var k :| Listed(site, mid, k) && Doc(site.cfg, mid, k) == Ok(d);
        if k != path { assert Doc(site.cfg, files, k) == Ok(d); }
      }
    }
  }

  lemma StillReadable(site: Site, files: Files, mid: Files, path: string)
    requires Listed(site, mid, path) && Doc(site.cfg, mid, path).Ok?
    requires forall k :: k != path ==> (Listed(site, mid, k) <==> Listed(site, files, k))
    requires forall k :: Listed(site, files, k) ==> k != path && Doc(site.cfg, mid, k) == Doc(site.cfg, files, k)
    ensures Readable(site, mid) <==> Readable(site, files)
  {
    if Readable(site, files) {
      forall k | Listed(site, mid, k) ensures Doc(site.cfg, mid, k).Ok? {
        if k != path { assert Doc(site.cfg, files, k).Ok?; }
      }
    }
    if Readable(site, mid) {
      forall k | Listed(site, files, k) ensures Doc(site.cfg, files, k).Ok? {
        assert Doc(site.cfg, mid, k).Ok?;
      }
    }
  }

  lemma ChainGrows(all: set<Claim>, refs: seq<Ref>, c: Claim)
    requires Chained(all, refs) && c.sequence == |refs| + 1 && c.previous == Predecessor(refs, c.sequence)
    ensures Chain(all + {c}) == Some(refs + [c.checkpoint])
  {
    var longer := refs + [c.checkpoint];
    forall d | d in all + {c} ensures FitsChain(d, longer) {
      if d in all { assert FitsChain(d, refs); }
    }
    forall n | 1 <= n <= |longer| ensures Occupied(all + {c}, n) {
      if n <= |refs| {
        assert Occupied(all, n);
        var d :| d in all && d.sequence == n;
        assert d in all + {c};
      } else {
        assert c in all + {c};
      }
    }
    ChainIs(all + {c}, longer);
  }

  // ---------------------------------------------------------------------------------------------
  // Crash atomicity

  /** The claim a coordinator writes for a bundle it has created on top of its head. */
  function ClaimOn(site: Site, attempt: string, head: Option<Claim>, bytes: Bytes, createdAt: int): Claim {
    Claim(site.env.run, attempt, P.Expected(head), site.env.plan, P.Previous(head), P.RefOf(site.env, bytes), createdAt)
  }

  /**
   The files after a commit that may have stopped anywhere: each of its writes is there or not, but the
   claim is there only if the verified bundle is.  The pointer may say anything.
   */
  ghost predicate SomeCommitWrites(site: Site, files: Files, files': Files, bytes: Bytes, c: Claim) {
    && (forall k :: k in files && k != PointerKey(site) ==> k in files' && files'[k] == files[k])
    && (forall k :: k in files' && k !in files && k != PointerKey(site) ==>
          || (k == c.checkpoint.key && files'[k] == bytes)
          || (k == ClaimPath(site, c) && files'[k] == site.render(c)))
    && (ClaimPath(site, c) in files' && ClaimPath(site, c) !in files ==>
          c.checkpoint.key in files' && files'[c.checkpoint.key] == bytes && Decode(site.env.codec, bytes).Some?)
  }

  lemma PathsAreApart(site: Site, c: Claim, bytes: Bytes)
    requires c.run == site.env.run && SafeId(c.run) && SafeId(c.attempt) && c.sequence <= MAX_SAFE_INTEGER
    ensures ListPrefix(site) <= ClaimPath(site, c)
    ensures !(ListPrefix(site) <= PointerKey(site)) && !(ListPrefix(site) <= P.RefOf(site.env, bytes).key)
    ensures P.RefOf(site.env, bytes).key != PointerKey(site)
  {
    CheckpointListingSkipsOthers(site.env.prefix, site.env.run, site.env.codec.sha(bytes));
    CheckpointClaimKeyInjective(site.env.prefix, c.run, c.sequence, c.attempt, c.run, c.sequence, c.attempt);
  }

  /** A commit's claim of this run, whatever the coordinator believes its head to be. */
  ghost predicate OwnClaim(site: Site, c: Claim, bytes: Bytes) {
    c.run == site.env.run && c.plan == site.env.plan && WellFormed(c) && c.checkpoint == P.RefOf(site.env, bytes)
  }

  /** The claim of the commit is in the bucket and was not there before. */
  predicate Landed(site: Site, files: Files, files': Files, c: Claim) {
    ClaimPath(site, c) !in files && ClaimPath(site, c) in files'
  }

  /**
   The claim write is the sole deciding step: a commit stopped anywhere adds exactly its claim to the
   claims of the run if the claim landed, and changes nothing about them otherwise.
   */
  lemma ClaimDecides(site: Site, files: Files, files': Files, bytes: Bytes, c: Claim)
    requires SiteOk(site) && OwnClaim(site, c, bytes) && SomeCommitWrites(site, files, files', bytes, c)
    ensures Landed(site, files, files', c) ==>
              && ClaimsOf(site, files') == ClaimsOf(site, files) + {c}
              && History(site, files') == if Readable(site, files) then Chain(ClaimsOf(site, files) + {c}) else None
    ensures !Landed(site, files, files', c) ==>
              ClaimsOf(site, files') == ClaimsOf(site, files) && History(site, files') == History(site, files)
  {
    PathsAreApart(site, c, bytes);
    if Landed(site, files, files', c) {
      var mid := files[ClaimPath(site, c) := site.render(c)];
      assert SameClaims(site, mid, files');
      HistoryDependsOnClaims(site, mid, files');
      OneMoreDoc(site, files, c);
      hide ClaimsOf, Readable;
    } else {
      assert SameClaims(site, files, files');
      HistoryDependsOnClaims(site, files, files');
    }
  }

  lemma SyncedIsNext(site: Site, files: Files, attempt: string, head: Option<Claim>, bytes: Bytes, createdAt: int)
    requires SiteOk(site) && SafeId(attempt) && Synced(site, files, head) && P.Expected(head) <= MAX_SAFE_INTEGER
    ensures NextClaim(site, History(site, files).value, ClaimOn(site, attempt, head, bytes, createdAt))
  {
  }

  /** From a synchronized head the claim finds its path free and extends the chain by its reference. */
  lemma SyncedClaimExtends(
      site: Site, files: Files, files': Files, attempt: string, head: Option<Claim>, bytes: Bytes, createdAt: int)
    requires SiteOk(site) && SafeId(attempt) && Synced(site, files, head) && P.Expected(head) <= MAX_SAFE_INTEGER
    requires SomeCommitWrites(site, files, files', bytes, ClaimOn(site, attempt, head, bytes, createdAt))
    ensures ClaimPath(site, ClaimOn(site, attempt, head, bytes, createdAt)) !in files
    ensures var c, refs := ClaimOn(site, attempt, head, bytes, createdAt), History(site, files).value;
            History(site, files') == Some(if Landed(site, files, files', c) then refs + [c.checkpoint] else refs)
  {
    var c, refs := ClaimOn(site, attempt, head, bytes, createdAt), History(site, files).value;
    SyncedIsNext(site, files, attempt, head, bytes, createdAt);
    NextPathIsFree(site, files, refs, c);
    ClaimDecides(site, files, files', bytes, c);
    HistoryIsChained(site, files);
    ChainGrows(ClaimsOf(site, files), refs, c);
    assert History(site, files).Some? ==> Readable(site, files);
    hide ClaimsOf, Readable;
  }

  /** Every claim of the run was written behind a bundle at the bundle's own key. */
  ghost predicate Canonical(site: Site, files: Files) {
    forall c :: c in ClaimsOf(site, files) ==> c.checkpoint.key == BundleKey(site, c.checkpoint.sha256)
  }

  /** The state coordinators leave a bucket in: canonical, and with something or nothing to restore. */
  ghost predicate InOrder(site: Site, files: Files, adapter: AdapterSpec) {
    Canonical(site, files) && Recover(site, files, adapter).Some?
  }

  /**
   A coordinator is in step with the bucket when its head is the head of the chain, or when the claim
   after its head is already there: an earlier commit of its own had stored it and then raised.
   */
  ghost predicate InStep(site: Site, files: Files, attempt: string, head: Option<Claim>) {
    Synced(site, files, head)
    || CheckpointClaimKey(site.env.prefix, site.env.run, P.Expected(head), attempt) in files
  }

  /** The last bundle of a canonical run does not lie where the pointer does. */
  lemma LastBundleIsApart(site: Site, files: Files, refs: seq<Ref>)
    requires Canonical(site, files) && History(site, files) == Some(refs) && refs != []
    ensures refs[|refs| - 1].key != PointerKey(site)
  {
    HistoryIsChained(site, files);
    var last := refs[|refs| - 1];
    CheckpointListingSkipsOthers(site.env.prefix, site.env.run, last.sha256);
    LastIsClaimed(ClaimsOf(site, files), refs);
  }

  lemma LastIsClaimed(all: set<Claim>, refs: seq<Ref>)
    requires Chained(all, refs) && refs != []
    ensures exists c :: c in all && c.checkpoint == refs[|refs| - 1]
  {
    assert Occupied(all, |refs|);
    var c :| c in all && c.sequence == |refs|;
    assert FitsChain(c, refs);
  }

  /** What could be recovered still can be while the history is the same and no bundle is lost. */
  lemma RecoverStays(site: Site, files: Files, files': Files, adapter: AdapterSpec)
    requires InOrder(site, files, adapter) && History(site, files') == History(site, files)
    requires forall k :: k in files && k != PointerKey(site) ==> k in files' && files'[k] == files[k]
    ensures Recover(site, files', adapter) == Recover(site, files, adapter)
  {
    var refs := History(site, files).value;
    if refs != [] {
      LastBundleIsApart(site, files, refs);
      hide History;
      OldHeadStays(site, files, files', adapter, refs);
    }
  }

  /** The old head is still there, whatever else was written. */
  lemma OldHeadStays(site: Site, files: Files, files': Files, adapter: AdapterSpec, refs: seq<Ref>)
    requires refs != [] && VerifiedHead(site, files, adapter, refs).Some?
    requires refs[|refs| - 1].key in files ==>
               refs[|refs| - 1].key in files' && files'[refs[|refs| - 1].key] == files[refs[|refs| - 1].key]
    ensures VerifiedHead(site, files', adapter, refs) == VerifiedHead(site, files, adapter, refs)
  {
  }

  /** What a commit creates before its first write, if the boundary is the next one. */
  function Made(site: Site, attempt: string, head: Option<Claim>, job: P.Job): Option<(Bytes, Manifest)>
    requires job.Commit?
  {
    if job.boundary != P.Expected(head) || job.boundary > MAX_SAFE_INTEGER then None
    else Create(site.env.codec, P.MetaFor(site.env, attempt, head, job), job.payloads)
  }

  function MadeClaim(site: Site, attempt: string, head: Option<Claim>, job: P.Job): Claim
    requires job.Commit? && Made(site, attempt, head, job).Some?
  {
    ClaimOn(site, attempt, head, Made(site, attempt, head, job).value.0, job.createdAt)
  }

  /** What the bucket makes recoverable after a commit: the new bundle if its claim landed, else what it did before. */
  ghost function RecoverAfter(
      site: Site, files: Files, files': Files, attempt: string, head: Option<Claim>,
      job: P.Job): Option<Option<Verified>>
    requires job.Commit? && Made(site, attempt, head, job).Some?
  {
    if Landed(site, files, files', MadeClaim(site, attempt, head, job))
    then Some(Some(Verified(Made(site, attempt, head, job).value.1, Saved(job.payloads))))
    else Recover(site, files, job.adapter)
  }

  ghost predicate SomeWritesOf(
      site: Site, files: Files, files': Files, attempt: string, head: Option<Claim>, job: P.Job)
    requires job.Commit? && Made(site, attempt, head, job).Some?
  {
    SomeCommitWrites(site, files, files', Made(site, attempt, head, job).value.0, MadeClaim(site, attempt, head, job))
  }

  lemma SyncedCommit(site: Site, files: Files, files': Files, attempt: string, head: Option<Claim>, job: P.Job)
    requires SiteOk(site) && SafeId(attempt) && job.Commit? && Made(site, attempt, head, job).Some?
    requires SomeWritesOf(site, files, files', attempt, head, job)
    requires InOrder(site, files, job.adapter) && Synced(site, files, head)
    ensures Recover(site, files', job.adapter) == RecoverAfter(site, files, files', attempt, head, job)
  {
    var meta := P.MetaFor(site.env, attempt, head, job);
    var (bytes, m) := Made(site, attempt, head, job).value;
    var c, refs := MadeClaim(site, attempt, head, job), History(site, files).value;
    SyncedClaimExtends(site, files, files', attempt, head, bytes, job.createdAt);
    if Landed(site, files, files', c) {
      CreatedDecodesOnlyIf(site.env.codec, meta, job.payloads);
      CreatedDecodes(site.env.codec, meta, job.payloads);
      NewHeadVerified(site, files', job.adapter, refs, c, bytes, Verified(m, Saved(job.payloads)));
    } else {
      RecoverStays(site, files, files', job.adapter);
    }
  }

  /** Commits keep a bucket canonical, wherever they stop and whatever the coordinator believes. */
  lemma CommitKeepsCanonical(site: Site, files: Files, files': Files, bytes: Bytes, c: Claim)
    requires SiteOk(site) && OwnClaim(site, c, bytes) && SomeCommitWrites(site, files, files', bytes, c)
    requires Canonical(site, files)
    ensures Canonical(site, files')
  {
    ClaimDecides(site, files, files', bytes, c);
    hide ClaimsOf, History;
  }

  /**
   Crash atomicity.  Wherever a commit stops, also one repeated after its claim had landed, a new
   coordinator restores exactly what the new bundle was made from if the claim landed now, and exactly
   what it would have restored before otherwise; and the next commit meets the same conditions.
   */
  lemma CrashAtomicity(site: Site, files: Files, files': Files, attempt: string, head: Option<Claim>, job: P.Job)
    requires SiteOk(site) && SafeId(attempt) && job.Commit? && Made(site, attempt, head, job).Some?
    requires SomeWritesOf(site, files, files', attempt, head, job)
    requires InOrder(site, files, job.adapter) && InStep(site, files, attempt, head)
    ensures Recover(site, files', job.adapter) == RecoverAfter(site, files, files', attempt, head, job)
    ensures InOrder(site, files', job.adapter) && InStep(site, files', attempt, head)
  {
    var bytes, c := Made(site, attempt, head, job).value.0, MadeClaim(site, attempt, head, job);
    CommitKeepsCanonical(site, files, files', bytes, c);
    ClaimDecides(site, files, files', bytes, c);
    PathsAreApart(site, c, bytes);
    hide ClaimsOf, History, Canonical;
    if ClaimPath(site, c) in files {
      RecoverStays(site, files, files', job.adapter);
    } else {
      SyncedCommit(site, files, files', attempt, head, job);
    }
  }

  ghost predicate EndsWith(refs: Option<seq<Ref>>, c: Claim) {
    refs.Some? && |refs.value| == c.sequence >= 1 && refs.value[c.sequence - 1] == c.checkpoint
  }

  /** Some of a commit's writes are in the bucket, and they decide what can be recovered. */
  ghost predicate CommitOutcome(
      site: Site, files: Files, files': Files, attempt: string, head: Option<Claim>, job: P.Job)
    requires job.Commit? && Made(site, attempt, head, job).Some?
  {
    && SomeWritesOf(site, files, files', attempt, head, job)
    && (InOrder(site, files, job.adapter) && InStep(site, files, attempt, head) ==>
          && Recover(site, files', job.adapter) == RecoverAfter(site, files, files', attempt, head, job)
          && InOrder(site, files', job.adapter) && InStep(site, files', attempt, head))
  }

  /** A pointer write on top of a commit changes nothing that matters. */
  lemma PointerIsOnlyAHint(site: Site, files: Files, committed: Files, files': Files, bytes: Bytes, c: Claim)
    requires SomeCommitWrites(site, files, committed, bytes, c) && c.checkpoint == P.RefOf(site.env, bytes)
    requires c.run == site.env.run && SafeId(c.run) && SafeId(c.attempt) && c.sequence <= MAX_SAFE_INTEGER
    requires forall k :: k != PointerKey(site) ==>
               (k in files' <==> k in committed) && (k in committed ==> files'[k] == committed[k])
    ensures SomeCommitWrites(site, files, files', bytes, c)
    ensures ClaimPath(site, c) in files' <==> ClaimPath(site, c) in committed
    ensures History(site, files') == History(site, committed)
  {
    PathsAreApart(site, c, bytes);
    assert SameClaims(site, committed, files');
    HistoryDependsOnClaims(site, committed, files');
  }

  lemma NewHeadVerified(
      site: Site, files: Files, adapter: AdapterSpec, refs: seq<Ref>, c: Claim, bytes: Bytes, v: Verified)
    requires c.checkpoint == P.RefOf(site.env, bytes) && c.checkpoint.key in files && files[c.checkpoint.key] == bytes
    requires Decode(site.env.codec, bytes) == Some(v) && c.sequence == |refs| + 1
             && c.previous == Predecessor(refs, c.sequence)
    requires var meta := v.manifest.meta;
             meta.run == site.env.run && meta.plan == site.env.plan && meta.adapter == adapter
             && meta.boundary == c.sequence && meta.previous == c.previous
    ensures VerifiedHead(site, files, adapter, refs + [c.checkpoint]) == Some(v)
  {
    assert Predecessor(refs + [c.checkpoint], |refs| + 1) == Predecessor(refs, |refs| + 1);
  }
}
