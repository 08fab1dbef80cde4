/**
 The stores and the launcher as one client runs them, while other clients commit to the same repository
 between any two of its requests.
 */
module Launcher {
  import opened Prelude
  import opened CheckpointChain
  import opened ControlModel
  import opened ControlRepo

  datatype StoreError =
    | Transport | WrongGeneration | NotTheNext | ImmutableDiffers | MissingControl | NotRunning(action: Action)
    | MissingSecret

  class Repository {
    var history: History
    /** What other clients commit before each of this client's requests. */
    var others: seq<History>
    /** The fate of this client's next commit requests; they are delivered once it is used up. */
    var deliveries: seq<Delivery>

    constructor (history: History, others: seq<History>, deliveries: seq<Delivery>)
      requires WellFormed(history)
      ensures Valid() && this.history == history && this.others == others && this.deliveries == deliveries
    {
      this.history := history;
      this.others := others;
      this.deliveries := deliveries;
    }

    ghost predicate Valid()
      reads this
    {
      WellFormed(history)
    }

    /** Nobody else writes, and every request of this client is delivered. */
    predicate Calm()
      reads this
    {
      others == [] && deliveries == []
    }

    /** The other clients obey the same stores, so the history stays well-formed. */
    method Interfere()
      requires Valid()
      modifies this`history, this`others
      ensures Valid() && old(history) <= history
      ensures old(others) == [] ==> history == old(history) && others == []
    {
      if others != [] {
        var batch := others[0];
        others := others[1..];
        if WellFormed(history + batch) { history := history + batch; }
      }
    }

    method Head() returns (revision: nat)
      requires Valid()
      modifies this`history, this`others
      ensures Valid() && old(history) <= history && revision == |history|
      ensures old(others) == [] ==> history == old(history) && others == []
    {
      Interfere();
      revision := |history|;
    }

    /** Commits on top of `parent`, if that is still the head. */
    method CreateCommit(c: Commit, parent: nat) returns (ok: bool)
      requires Valid() && parent <= |history| && Legal(history[..parent], c)
      modifies this
      ensures Valid() && old(history) <= history
      ensures ok ==> history == old(history)[..parent] + [c]
      ensures deliveries == if old(deliveries) == [] then [] else old(deliveries)[1..]
      ensures old(others) == [] && parent == |old(history)| ==>
                && others == []
                && (ok <==> old(deliveries) == [] || old(deliveries)[0].Delivered?)
                && history == (if old(deliveries) != [] && old(deliveries)[0].Lost? then old(history)
                               else old(history) + [c])
      ensures old(Calm()) && parent == |old(history)| ==> ok && Calm()
    {
      Interfere();
      var delivery := Delivered;
      if deliveries != [] {
        delivery := deliveries[0];
        deliveries := deliveries[1..];
      }
      ok := false;
      if !delivery.Lost? && parent == |history| {
        assert history[..parent] == history && old(history)[..parent] == history;
        history := history + [c];
        assert history[..|history| - 1] == old(history)[..parent];
        ok := delivery.Delivered?;
      }
    }
  }

  /** The control document at the head, with the revision it was read at. */
  method FetchOptional(repo: Repository, run: string) returns (revision: nat, control: Option<Control>)
    requires repo.Valid()
    modifies repo
    ensures repo.Valid() && old(repo.history) <= repo.history && revision == |repo.history|
    ensures control.Some? ==> Latest(repo.history, ControlPath(run)) == Some(ControlDoc(control.value))
    ensures control.None? ==> Latest(repo.history, ControlPath(run)) == None
    ensures old(repo.others) == [] ==> repo.history == old(repo.history)
    ensures old(repo.Calm()) ==> repo.Calm()
  {
    revision := repo.Head();
    LatestControl(repo.history, run);
    control :=
      match Latest(repo.history[..revision], ControlPath(run)) case Some(ControlDoc(c)) => Some(c) case _ => None;
    assert repo.history[..revision] == repo.history;
  }

  lemma {:induction false} LatestControl(history: History, run: string)
    requires WellFormed(history)
    ensures Latest(history, ControlPath(run)).Some? ==>
              Latest(history, ControlPath(run)).value.ControlDoc?
              && ControlOk(Latest(history, ControlPath(run)).value.control)
              && Latest(history, ControlPath(run)).value.control.run == run
  {
    if history != [] { LatestControl(history[..|history| - 1], run); }
  }

  /** Publishes the next generation; one attempt only, so a moved head or a lost request is an error. */
  method PublishControl(repo: Repository, control: Control, expected: nat) returns (r: Result<nat, StoreError>)
    requires repo.Valid() && ControlOk(control)
    modifies repo
    ensures repo.Valid() && old(repo.history) <= repo.history
    ensures r.Ok? ==>
              && r.value == |repo.history|
              && Latest(repo.history, ControlPath(control.run)) == Some(ControlDoc(control))
                      && Generations(repo.history, control.run) == UpTo(expected + 1)
    ensures r.Err? ==> r.error in {WrongGeneration, NotTheNext, Transport}
    ensures r == Err(WrongGeneration) ==> Generation(repo.history, control.run) != expected
    ensures r == Err(NotTheNext) ==>
              Generation(repo.history, control.run) == expected && control.generation != expected + 1
    ensures old(repo.Calm()) ==>
              (r.Ok? <==> Generation(old(repo.history), control.run) == expected && control.generation == expected + 1)
  {
    var head, current := FetchOptional(repo, control.run);
    var actual := if current.None? then 0 else current.value.generation;
    if actual != expected { return Err(WrongGeneration); }
    if control.generation != expected + 1 { return Err(NotTheNext); }
    assert repo.history[..head] == repo.history;
    var ok := repo.CreateCommit(Commit(ControlPath(control.run), ControlDoc(control)), head);
    if !ok { return Err(Transport); }
    GenerationsCount(repo.history, control.run);
    r := Ok(|repo.history|);
  }

  predicate OnlyLost(deliveries: seq<Delivery>) {
    forall i :: 0 <= i < |deliveries| ==> deliveries[i].Lost?
  }

  /**
   Stores a document with up to three tries, each starting from a fresh look at the head.  When it
   returns, an immutable document holds exactly the caller's bytes and was committed once.
   */
  method PutDocument(repo: Repository, path: Path, raw: Bytes) returns (r: Result<nat, StoreError>)
    requires repo.Valid() && !path.ControlPath?
    modifies repo
    ensures repo.Valid() && old(repo.history) <= repo.history
    ensures r.Ok? ==> r.value <= |repo.history| && Latest(repo.history[..r.value], path) == Some(Raw(raw))
    ensures r.Ok? && (path.SpecPath? || path.ReceiptPath?) ==>
              Latest(repo.history, path) == Some(Raw(raw)) && CountAt(repo.history, path) == 1
    // A receipt or specification that says something else stays; a status is replaced.
    ensures (path.SpecPath? || path.ReceiptPath?) && Latest(old(repo.history), path) !in {None, Some(Raw(raw))} ==>
              r.Err? && Latest(repo.history, path) == Latest(old(repo.history), path)
    ensures path.StatusPath? && old(repo.Calm()) ==>
              r.Ok? && Latest(repo.history, path) == Some(Raw(raw)) && |repo.history| == |old(repo.history)| + 1
    ensures r == Err(ImmutableDiffers) ==>
              (path.SpecPath? || path.ReceiptPath?) && Latest(repo.history, path) !in {None, Some(Raw(raw))}
    ensures r.Err? ==> r.error in {ImmutableDiffers, Transport}
    ensures old(repo.Calm()) ==>
              (r.Ok? <==> path.StatusPath? || Latest(old(repo.history), path) in {None, Some(Raw(raw))})
    ensures old(repo.Calm()) && r.Err? ==> r.error == ImmutableDiffers && repo.history == old(repo.history)
    // Lost requests are made up for by the remaining tries.
    ensures old(repo.others) == [] && OnlyLost(old(repo.deliveries))
            && (path.StatusPath? || Latest(old(repo.history), path) == None) ==>
              if |old(repo.deliveries)| < 3
              then r.Ok? && repo.history == old(repo.history) + [Commit(path, Raw(raw))]
              else r == Err(Transport) && repo.history == old(repo.history)
  {
    ghost var losses := repo.deliveries;
    for attempt := 0 to TRIES
      invariant repo.Valid() && old(repo.history) <= repo.history
      invariant old(repo.others) == [] && OnlyLost(losses)
                && (path.StatusPath? || Latest(old(repo.history), path) == None) ==>
                  && attempt <= |losses| && repo.deliveries == losses[attempt..]
                  && repo.others == [] && repo.history == old(repo.history)
      invariant old(repo.Calm()) ==> attempt == 0 && repo.Calm() && repo.history == old(repo.history)
    {
      var done := TryPut(repo, path, raw);
      if (path.SpecPath? || path.ReceiptPath?) && Latest(old(repo.history), path).Some? {
        NeverRewritten(old(repo.history), repo.history, path);
      }
      if done.Some? { return done.value; }
    }
    if (path.SpecPath? || path.ReceiptPath?) && Latest(old(repo.history), path).Some? {
      NeverRewritten(old(repo.history), repo.history, path);
    }
    r := Err(Transport);
  }

  /** One try: a fresh look at the head, and a commit on it unless an immutable document is there. */
  method TryPut(repo: Repository, path: Path, raw: Bytes) returns (done: Option<Result<nat, StoreError>>)
    requires repo.Valid() && !path.ControlPath?
    modifies repo
    ensures repo.Valid() && old(repo.history) <= repo.history
    ensures done.Some? && done.value.Ok? ==>
              && done.value.value <= |repo.history|
              && Latest(repo.history[..done.value.value], path) == Some(Raw(raw))
              && (path.SpecPath? || path.ReceiptPath? ==>
                    Latest(repo.history, path) == Some(Raw(raw)) && CountAt(repo.history, path) == 1)
    ensures done.Some? && done.value.Err? ==>
              && done.value.error == ImmutableDiffers && (path.SpecPath? || path.ReceiptPath?)
              && Latest(repo.history, path) !in {None, Some(Raw(raw))}
    ensures old(repo.others) == [] ==>
              && repo.others == []
              && if (path.SpecPath? || path.ReceiptPath?) && Latest(old(repo.history), path).Some?
                 then && repo.history == old(repo.history) && repo.deliveries == old(repo.deliveries) && done.Some?
                      && (done.value.Ok? <==> Latest(old(repo.history), path) == Some(Raw(raw)))
                 else && repo.deliveries == (if old(repo.deliveries) == [] then [] else old(repo.deliveries)[1..])
                      && (done.Some? <==> old(repo.deliveries) == [] || old(repo.deliveries)[0].Delivered?)
                      && (done.Some? ==> done.value.Ok?)
                      && repo.history == if old(repo.deliveries) != [] && old(repo.deliveries)[0].Lost?
                                           then old(repo.history)
                                           else old(repo.history) + [Commit(path, Raw(raw))]
  {
    var head := repo.Head();
    assert repo.history[..head] == repo.history;
    if Immutable(path) && Latest(repo.history, path).Some? {
      CommittedAtMostOnce(repo.history, path);
      return Some(if Latest(repo.history, path) != Some(Raw(raw)) then Err(ImmutableDiffers) else Ok(head));
    }
    var ok := repo.CreateCommit(Commit(path, Raw(raw)), head);
    if !ok { return None; }
    assert repo.history[..|repo.history|] == repo.history;
    if Immutable(path) { CommittedAtMostOnce(repo.history, path); }
    done := Some(Ok(|repo.history|));
  }

  // ---------------------------------------------------------------------------------------------
  // Launching

  /** A launch specification: its canonical JSON text and the secrets it asks for. */
  datatype Spec = Spec(raw: Bytes, secretNames: seq<string>)

  datatype Job = Job(run: string, attempt: string, plan: string, spec: Bytes, secrets: map<string, string>)

  class HubJobLauncher {
    const repo: Repository
    const sha: Bytes -> string
    /** The jobs submitted so far, with the specification each was launched from. */
    var jobs: seq<Job>

    constructor (repo: Repository, sha: Bytes -> string)
      requires repo.Valid()
      ensures Valid() && this.repo == repo && this.sha == sha && jobs == []
    {
      this.repo := repo;
      this.sha := sha;
      jobs := [];
    }

    ghost predicate Valid()
      reads this, repo
    {
      repo.Valid() && JobsRegistered(repo.history, sha, jobs)
    }

    /** Submits one attempt, if the run should be running and its specification is the registered one. */
    method Launch(run: string, spec: Spec, attempt: string, values: map<string, string>, environ: map<string, string>)
      returns (r: Result<Job, StoreError>)
      requires Valid()
      modifies this`jobs, repo
      ensures Valid() && old(repo.history) <= repo.history
      ensures r.Ok? ==> && jobs == old(jobs) + [r.value] && r.value.run == run && r.value.attempt == attempt
                        && r.value.plan == sha(spec.raw) && Latest(repo.history, SpecPath(run)) == Some(Raw(spec.raw))
      ensures r.Ok? ==> forall name :: name in spec.secretNames ==>
                && name in r.value.secrets
                && (if name in values then r.value.secrets[name] == values[name]
                    else name in environ && r.value.secrets[name] == environ[name])
      ensures r.Ok? ==> r.value.secrets.Keys == (set name | name in spec.secretNames)
      ensures r.Err? ==> jobs == old(jobs)
      ensures old(repo.Calm()) ==>
                match LaunchError(old(repo.history), run, spec, values, environ)
                case None => r.Ok?
                case Some(why) => r == Err(why) && repo.history == old(repo.history)
    {
      var _, control := FetchOptional(repo, run);
      RegisteredStays(old(repo.history), repo.history, sha, jobs);
      if control.None? { return Err(MissingControl); }
      if !control.value.action.Run? { return Err(NotRunning(control.value.action)); }
      var complete := CollectSecrets(spec.secretNames, values, environ);
      if complete.None? { return Err(MissingSecret); }
      ghost var fetched := repo.history;
      var registered := PutDocument(repo, SpecPath(run), spec.raw);
      RegisteredStays(fetched, repo.history, sha, jobs);
      if registered.Err? { return Err(registered.error); }
      var job := Job(run, attempt, sha(spec.raw), spec.raw, complete.value);
      jobs := jobs + [job];
      r := Ok(job);
    }
  }

  predicate HasSecrets(spec: Spec, values: map<string, string>, environ: map<string, string>) {
    forall name :: name in spec.secretNames ==> name in values || name in environ
  }

  /** What stands in the way of a launch, in the order it is found. */
  function LaunchError(
      history: History, run: string, spec: Spec, values: map<string, string>, environ: map<string, string>)
    : Option<StoreError>
  {
    match Latest(history, ControlPath(run))
    case Some(ControlDoc(c)) =>
      if !c.action.Run? then Some(NotRunning(c.action))
      else if !HasSecrets(spec, values, environ) then Some(MissingSecret)
      else if Latest(history, SpecPath(run)) !in {None, Some(Raw(spec.raw))} then Some(ImmutableDiffers)
      else None
    case _ => Some(MissingControl)
  }

  /** Explicit values win over the environment; a secret found in neither is an error. */
  method CollectSecrets(names: seq<string>, values: map<string, string>, environ: map<string, string>)
    returns (r: Option<map<string, string>>)
    ensures r.Some? <==> forall name :: name in names ==> name in values || name in environ
    ensures r.Some? ==> (forall name :: name in r.value <==> name in names)
    ensures r.Some? ==> forall name :: name in names ==>
              r.value[name] == if name in values then values[name] else environ[name]
  {
    var secrets: map<string, string> := map[];
    for i := 0 to |names|
      invariant forall name :: name in secrets <==> name in names[..i]
      invariant forall name :: name in secrets ==>
                  if name in values
                    then secrets[name] == values[name]
                    else name in environ && secrets[name] == environ[name]
    {
      var name := names[i];
      assert names[..i + 1] == names[..i] + [name];
      if name in values {
        secrets := secrets[name := values[name]];
      } else if name in environ {
        secrets := secrets[name := environ[name]];
      } else {
        return None;
      }
    }
    assert names[..|names|] == names;
    r := Some(secrets);
  }

  ghost predicate JobsRegistered(history: History, sha: Bytes -> string, jobs: seq<Job>) {
    forall i :: 0 <= i < |jobs| ==>
      jobs[i].plan == sha(jobs[i].spec) && Latest(history, SpecPath(jobs[i].run)) == Some(Raw(jobs[i].spec))
  }

  lemma RegisteredStays(history: History, later: History, sha: Bytes -> string, jobs: seq<Job>)
    requires WellFormed(later) && history <= later && JobsRegistered(history, sha, jobs)
    ensures JobsRegistered(later, sha, jobs)
  {
    forall i | 0 <= i < |jobs| ensures Latest(later, SpecPath(jobs[i].run)) == Some(Raw(jobs[i].spec)) {
      NeverRewritten(history, later, SpecPath(jobs[i].run));
    }
  }

  /** All attempts of a run carry one plan digest, even when different launchers started them. */
  lemma OnePlanPerRun(
      history: History, later: History, sha: Bytes -> string, mine: seq<Job>, theirs: seq<Job>, i: nat, j: nat)
    requires WellFormed(later) && history <= later
    requires JobsRegistered(history, sha, mine) && JobsRegistered(later, sha, theirs)
    requires i < |mine| && j < |theirs| && mine[i].run == theirs[j].run
    ensures mine[i].plan == theirs[j].plan
  {
    RegisteredStays(history, later, sha, mine);
  }
}
