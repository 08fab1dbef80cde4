/** The invariant of a controlled run, kept by every step of operators and workers. */
module RunSafety {
  import opened Prelude
  import opened Bundle
  import opened BundleStream
  import opened ControlModel
  import opened ControllerModel
  import opened RunSystem

  /** Generations start at 1 and every checkpoint to resume from ends a lineage. */
  ghost predicate ControlsOk(sys: System, b: Base) {
    && (forall i :: 0 <= i < |b.controls| ==> b.controls[i].generation == i + 1)
    && (forall i {:trigger b.controls[i].resumeFrom} :: 0 <= i < |b.controls| ==>
          Anchored(sys, b.shared.artifacts, b.controls[i].resumeFrom))
  }

  ghost predicate PreparedOk(sys: System, b: Base) {
    forall o {:trigger b.prepared[o]} :: o in b.prepared ==> Anchored(sys, b.shared.artifacts, b.prepared[o])
  }

  /** A generation and action that some receipt of the log carries; generation 0 needs none. */
  ghost predicate Receipted(log: seq<Receipt>, generation: nat, action: Action) {
    generation == 0 || exists i :: 0 <= i < |log| && log[i].generation == generation && log[i].action == action
  }

  /** Each receipt carries the action published for its generation and is stored under its key. */
  ghost predicate ReceiptOk(b: Base, r: Receipt) {
    && 1 <= r.generation <= |b.controls| && r.action == b.controls[r.generation - 1].action
    && r.attempt in b.used && KeyFor(r) in b.shared.receipts && b.shared.receipts[KeyFor(r)] == r
  }

  /** Receipts never go back, and within an attempt they strictly advance. */
  predicate Ordered(log: seq<Receipt>) {
    forall i, j :: 0 <= i < j < |log| ==>
      log[i].generation <= log[j].generation
      && (log[i].attempt == log[j].attempt ==> log[i].generation < log[j].generation)
  }

  ghost predicate LogOk(b: Base) {
    && Ordered(b.log)
    && (forall i {:trigger b.log[i]} :: 0 <= i < |b.log| ==> ReceiptOk(b, b.log[i]))
    && (forall k :: k in b.shared.receipts ==> k == KeyFor(b.shared.receipts[k]) && b.shared.receipts[k] in b.log)
  }

  ghost predicate StatusInv(sys: System, b: Base) {
    b.shared.status.Some? ==>
      var s := b.shared.status.value;
      StatusOk(s) && s.attempt in b.used && s.generation <= |b.controls|
      && Receipted(b.log, s.generation, s.action) && Placed(sys, b.shared.artifacts, s.checkpoint, s.boundary)
  }

  /** The attempt is this run's, and it has not applied more than its receipts say. */
  ghost predicate MemoryOk(sys: System, b: Base, id: Ident, mem: Memory) {
    && id == Id(sys, id.attempt, id.job) && id.attempt in b.used && mem.generation <= |b.controls|
    && (forall i :: 0 <= i < |b.log| && b.log[i].attempt == id.attempt ==> b.log[i].generation <= mem.generation)
  }

  /** The application is where an uninterrupted run would be, and the checkpoint says so. */
  ghost predicate Position(sys: System, b: Base, mem: Memory, app: AppState, n: nat) {
    && app == Iter(sys.app, n) && Placed(sys, b.shared.artifacts, mem.checkpoint, mem.boundary)
    && (if mem.boundary.None? then n == 0 else mem.boundary == Some(n))
  }

  predicate OwnProgress(id: Ident, mem: Memory) {
    StatusOk(StatusOf(id, mem, Running))
  }

  /** The status shows what the attempt remembers. */
  predicate StatusShows(b: Base, id: Ident, mem: Memory) {
    b.shared.status.Some? && exists state :: b.shared.status.value == StatusOf(id, mem, state)
  }

  ghost predicate Settled(sys: System, b: Base, id: Ident, mem: Memory, app: AppState, n: nat) {
    && MemoryOk(sys, b, id, mem) && Receipted(b.log, mem.generation, mem.action)
    && Position(sys, b, mem, app, n) && OwnProgress(id, mem) && StatusShows(b, id, mem)
  }

  /** The receipt about to be stored advances the log. */
  ghost predicate Pending(b: Base, id: Ident, mem: Memory, r: Receipt) {
    && r.attempt == id.attempt && r.generation == mem.generation && r.action == mem.action
    && 1 <= r.generation <= |b.controls| && r.action == b.controls[r.generation - 1].action
    && (forall i :: 0 <= i < |b.log| ==>
          b.log[i].generation <= r.generation && (b.log[i].attempt == r.attempt ==> b.log[i].generation < r.generation))
  }

  predicate StatusWrite(id: Ident, mem: Memory, w: Write) {
    w.WriteStatus? && exists state :: w.status == StatusOf(id, mem, state)
  }

  /** What is left to write: a receipt and then the status that shows it, or only a status, or nothing. */
  ghost predicate TodoOk(b: Base, id: Ident, mem: Memory, todo: seq<Write>) {
    if |todo| == 2 then todo[0].WriteReceipt? && Pending(b, id, mem, todo[0].receipt) && StatusWrite(id, mem, todo[1])
    else
      && Receipted(b.log, mem.generation, mem.action)
      && (|todo| == 0 || (|todo| == 1 && StatusWrite(id, mem, todo[0])))
      && (|todo| == 0 ==> StatusShows(b, id, mem) && OwnProgress(id, mem))
  }

  ghost predicate SavingOk(sys: System, b: Base, id: Ident, mem: Memory, app: AppState, n: nat, bytes: Bytes) {
    && MemoryOk(sys, b, id, mem) && Receipted(b.log, mem.generation, mem.action) && OwnProgress(id, mem)
    && n >= 1 && app == Iter(sys.app, n)
    && Placed(sys, b.shared.artifacts, mem.checkpoint, mem.boundary)
    && (if mem.boundary.None? then n == 1 else mem.boundary == Some(n - 1))
    && IsBundle(sys, bytes, n, if mem.checkpoint.None? then None else Some(mem.checkpoint.value.sha256))
  }

  ghost predicate WorkerOk(sys: System, b: Base, worker: Worker) {
    match worker
    case Down => true
    case Loaded(id, mem) =>
      && id == Id(sys, id.attempt, id.job) && id.attempt in b.used && mem == Inherit(b.shared.status)
      && (forall i :: 0 <= i < |b.log| ==> b.log[i].attempt != id.attempt)
    case Working(id, mem, app, n) => Settled(sys, b, id, mem, app, n)
    case Saving(id, mem, app, n, bytes) => SavingOk(sys, b, id, mem, app, n, bytes)
    case Writing(id, mem, app, n, todo, afterwards) =>
      && MemoryOk(sys, b, id, mem) && Position(sys, b, mem, app, n) && TodoOk(b, id, mem, todo)
      && (!afterwards.GoWork? ==> mem.checkpoint.Some?)
    case Asking(id, mem, app, n) => Settled(sys, b, id, mem, app, n) && mem.checkpoint.Some?
    case Exiting(id, mem, app, n, decision) => Settled(sys, b, id, mem, app, n) && mem.checkpoint.Some?
  }

  ghost predicate StoresOk(sys: System, b: Base) {
    ControlsOk(sys, b) && PreparedOk(sys, b) && LogOk(b) && StatusInv(sys, b)
  }

  ghost predicate Inv(sys: System, st: State) {
    StoresOk(sys, st.base) && WorkerOk(sys, st.base, st.worker)
  }

  // ---------------------------------------------------------------------------------------------
  // Operators

  lemma WorkerSurvivesPublication(sys: System, b: Base, b': Base, worker: Worker)
    requires WorkerOk(sys, b, worker) && b.controls <= b'.controls
    requires b'.shared == b.shared && b'.used == b.used && b'.log == b.log
    ensures WorkerOk(sys, b', worker)
  {
  }

  lemma PublicationKeepsInv(sys: System, st: State, action: Action, resumeFrom: Option<Ref>)
    requires Inv(sys, st) && Anchored(sys, st.base.shared.artifacts, resumeFrom)
    ensures Inv(sys, State(Published(st.base, action, resumeFrom, sys.run), st.worker))
  {
    var b := st.base;
    var b' := Published(b, action, resumeFrom, sys.run);
    WorkerSurvivesPublication(sys, b, b', st.worker);
    forall i | 0 <= i < |b'.log| ensures ReceiptOk(b', b'.log[i]) {
      assert ReceiptOk(b, b.log[i]);
    }
    forall i | 0 <= i < |b'.controls| ensures Anchored(sys, b'.shared.artifacts, b'.controls[i].resumeFrom) {
      if i < |b.controls| { assert Anchored(sys, b.shared.artifacts, b.controls[i].resumeFrom); }
    }
  }

  lemma PreparedChanges(sys: System, st: State, prepared: map<string, Option<Ref>>)
    requires Inv(sys, st) && PreparedOk(sys, st.base.(prepared := prepared))
    ensures Inv(sys, State(st.base.(prepared := prepared), st.worker))
  {
    var b, b' := st.base, st.base.(prepared := prepared);
    WorkerSurvivesPublication(sys, b, b', st.worker);
    forall i | 0 <= i < |b'.log| ensures ReceiptOk(b', b'.log[i]) {
      assert ReceiptOk(b, b.log[i]);
    }
    forall i | 0 <= i < |b'.controls| ensures Anchored(sys, b'.shared.artifacts, b'.controls[i].resumeFrom) {
      assert Anchored(sys, b.shared.artifacts, b.controls[i].resumeFrom);
    }
  }

  lemma ResumeReadKeepsInv(sys: System, st: State, operator: string)
    requires Inv(sys, st)
    ensures Inv(sys, Next(sys, st, ResumeRead(operator)))
  {
    var b := st.base;
    var from := ResumeFrom(Operator(sys), b.shared);
    if from.Ok? {
      var prepared := b.prepared[operator := from.value];
      forall o | o in prepared ensures Anchored(sys, b.shared.artifacts, prepared[o]) {
        if o != operator { assert Anchored(sys, b.shared.artifacts, b.prepared[o]); }
      }
      PreparedChanges(sys, st, prepared);
    }
  }

  lemma ResumePublishKeepsInv(sys: System, st: State, operator: string)
    requires Inv(sys, st)
    ensures Inv(sys, Next(sys, st, ResumePublish(operator)))
  {
    var b := st.base;
    if operator in b.prepared {
      var prepared := b.prepared - {operator};
      forall o | o in prepared ensures Anchored(sys, b.shared.artifacts, prepared[o]) {
        assert prepared[o] == b.prepared[o];
      }
      PreparedChanges(sys, st, prepared);
      assert Anchored(sys, b.shared.artifacts, b.prepared[operator]);
      PublicationKeepsInv(sys, State(b.(prepared := prepared), st.worker), Run, b.prepared[operator]);
    }
  }

  // ---------------------------------------------------------------------------------------------
  // Steps of the worker that write nothing

  lemma LaunchKeepsInv(sys: System, st: State, attempt: string, job: Option<string>)
    requires Inv(sys, st)
    ensures Inv(sys, Next(sys, st, Launch(attempt, job)))
  {
    var b, b' := st.base, Next(sys, st, Launch(attempt, job)).base;
    if b' != b {
      forall i | 0 <= i < |b.log| ensures ReceiptOk(b', b.log[i]) && b.log[i].attempt != attempt {
        assert ReceiptOk(b, b.log[i]);
      }
      forall i | 0 <= i < |b'.controls| ensures Anchored(sys, b'.shared.artifacts, b'.controls[i].resumeFrom) {
        assert Anchored(sys, b.shared.artifacts, b.controls[i].resumeFrom);
      }
      assert StoresOk(sys, b');
    }
  }

  /** A freshly fetched control is at least as new as every receipt. */
  lemma FetchedIsPending(sys: System, b: Base, id: Ident, mem: Memory, r: Receipt)
    requires LogOk(b) && ControlsOk(sys, b) && b.controls != []
    requires r.attempt == id.attempt && r.generation == mem.generation == |b.controls| && r.action == mem.action
    requires r.action == b.controls[|b.controls| - 1].action
    requires forall i :: 0 <= i < |b.log| && b.log[i].attempt == id.attempt ==> b.log[i].generation < r.generation
    ensures Pending(b, id, mem, r)
  {
    forall i | 0 <= i < |b.log| ensures b.log[i].generation <= r.generation {
      assert ReceiptOk(b, b.log[i]);
    }
  }

  lemma StartedOk(
      sys: System, b: Base, id: Ident, mem: Memory, control: Control, restored: Option<nat>, app: AppState, n: nat)
    requires StoresOk(sys, b) && b.controls != [] && control == b.controls[|b.controls| - 1]
    requires id == Id(sys, id.attempt, id.job) && id.attempt in b.used
    requires forall i :: 0 <= i < |b.log| ==> b.log[i].attempt != id.attempt
    requires Position(sys, b, StartMemory(mem, control, restored), app, n)
    ensures WorkerOk(sys, b, Writing(id, StartMemory(mem, control, restored), app, n,
                                     StartWrites(id, mem, control, restored), GoWork))
  {
    var mem' := StartMemory(mem, control, restored);
    var writes := StartWrites(id, mem, control, restored);
    FetchedIsPending(sys, b, id, mem', writes[0].receipt);
    assert writes[1].status == StatusOf(id, mem', Running);
  }

  lemma FetchStartKeepsInv(sys: System, st: State, available: bool, adapterFails: bool)
    requires SystemOk(sys) && Inv(sys, st)
    ensures Inv(sys, Next(sys, st, FetchStart(available, adapterFails)))
  {
    var b := st.base;
    if st.worker.Loaded? {
      var id, mem := st.worker.id, st.worker.mem;
      var w := AfterFetch(sys, b, id, mem, Reply(b, available), adapterFails);
      if w.Writing? {
        var control := b.controls[|b.controls| - 1];
        if control.resumeFrom.None? {
          StartedOk(sys, b, id, mem, control, None, sys.app.init, 0);
        } else {
          var r := control.resumeFrom.value;
          assert Anchored(sys, b.shared.artifacts, control.resumeFrom);
          var n :| Ends(sys, b.shared.artifacts, r, n);
          RestoresState(sys, b.shared.artifacts, id, r, n);
          StartedOk(sys, b, id, mem, control, Some(n), w.app, n);
        }
      }
    }
  }

  lemma ReachedOk(
      sys: System, b: Base, id: Ident, mem: Memory, app: AppState, n: nat, update: Option<Progress>, createdAt: int)
    requires Settled(sys, b, id, mem, app, n)
    ensures WorkerOk(sys, b, Reached(sys, id, mem, app, n, update, createdAt))
  {
    var next := Reached(sys, id, mem, app, n, update, createdAt);
    hide Ends, IsBundle;
    if next.Saving? {
      assert next.app == Iter(sys.app, n + 1);
      MadeIsBundle(sys, next.bytes, n + 1, BundleMeta(id, next.mem, sys.adapter, n + 1, createdAt).previous, id.attempt,
                   createdAt);
    }
  }

  lemma MadeIsBundle(sys: System, bytes: Bytes, n: nat, previous: Option<string>, attempt: string, createdAt: int)
    requires MadeBy(sys, bytes, n, previous, attempt, createdAt)
    ensures IsBundle(sys, bytes, n, previous)
  {
  }

  lemma JudgedOk(sys: System, b: Base, id: Ident, mem: Memory, app: AppState, n: nat, reply: Option<Control>)
    requires ControlsOk(sys, b) && LogOk(b) && Settled(sys, b, id, mem, app, n) && mem.checkpoint.Some?
    requires reply.Some? ==> b.controls != [] && reply.value == b.controls[|b.controls| - 1]
    ensures var v := Judge(id, mem, reply, sys.adapter.resumeMode);
            WorkerOk(sys, b, Writing(id, v.memory, app, n, v.writes, GoDecide(v.decision)))
  {
    var v := Judge(id, mem, reply, sys.adapter.resumeMode);
    if |v.writes| == 2 {
      FetchedIsPending(sys, b, id, v.memory, v.writes[0].receipt);
    }
    if |v.writes| >= 1 {
      var last := v.writes[|v.writes| - 1];
      assert last.status == StatusOf(id, v.memory, last.status.state);
    }
  }

  lemma FinishOk(sys: System, b: Base, id: Ident, mem: Memory, app: AppState, n: nat, target: RunState)
    requires Settled(sys, b, id, mem, app, n) && mem.checkpoint.Some?
    ensures WorkerOk(sys, b, Writing(id, mem, app, n, [WriteStatus(StatusOf(id, mem, target))], GoDown))
  {
    assert StatusWrite(id, mem, WriteStatus(StatusOf(id, mem, target)));
  }

  // ---------------------------------------------------------------------------------------------
  // Steps of the worker that write

  /** A bundle is only ever added, and then it is stored under its own digest. */
  lemma BundleSaved(sys: System, shared: Shared, id: Ident, bytes: Bytes, shared': Shared)
    requires SystemOk(sys) && id == Id(sys, id.attempt, id.job)
    requires Apply(id, shared, SaveBundle(bytes)) == Some(shared')
    ensures Kept(shared.artifacts, shared'.artifacts) && shared' == shared.(artifacts := shared'.artifacts)
    ensures RefOf(id, bytes).key in shared'.artifacts && shared'.artifacts[RefOf(id, bytes).key] == bytes
  {
  }

  lemma StoresSurviveBundle(sys: System, b: Base, more: map<string, Bytes>)
    requires StoresOk(sys, b) && Kept(b.shared.artifacts, more)
    ensures StoresOk(sys, b.(shared := b.shared.(artifacts := more)))
  {
    var b' := b.(shared := b.shared.(artifacts := more));
    var before := b.shared.artifacts;
    forall i | 0 <= i < |b'.controls| ensures Anchored(sys, more, b'.controls[i].resumeFrom) {
      assert Anchored(sys, before, b.controls[i].resumeFrom);
      AnchoredStays(sys, before, more, b.controls[i].resumeFrom);
    }
    forall o | o in b'.prepared ensures Anchored(sys, more, b'.prepared[o]) {
      assert Anchored(sys, before, b.prepared[o]);
      AnchoredStays(sys, before, more, b.prepared[o]);
    }
    forall i | 0 <= i < |b'.log| ensures ReceiptOk(b', b'.log[i]) {
      assert ReceiptOk(b, b.log[i]);
    }
    if b.shared.status.Some? {
      PlacedStays(sys, before, more, b.shared.status.value.checkpoint, b.shared.status.value.boundary);
    }
  }

  lemma SavedPosition(sys: System, b: Base, id: Ident, mem: Memory, app: AppState, n: nat, bytes: Bytes, b': Base)
    requires SavingOk(sys, b, id, mem, app, n, bytes)
    requires Kept(b.shared.artifacts, b'.shared.artifacts)
    requires RefOf(id, bytes).key in b'.shared.artifacts && b'.shared.artifacts[RefOf(id, bytes).key] == bytes
    ensures Position(sys, b', BoundaryMemory(id, mem, n, bytes), app, n)
  {
    PlacedStays(sys, b.shared.artifacts, b'.shared.artifacts, mem.checkpoint, mem.boundary);
    BundleExtends(sys, b'.shared.artifacts, id, mem.checkpoint, n - 1, bytes);
  }

  lemma SavedOk(sys: System, b: Base, id: Ident, mem: Memory, app: AppState, n: nat, bytes: Bytes, shared': Shared)
    requires SystemOk(sys) && StoresOk(sys, b) && SavingOk(sys, b, id, mem, app, n, bytes)
    requires Apply(id, b.shared, SaveBundle(bytes)) == Some(shared')
    ensures Inv(sys, State(b.(shared := shared'),
                           Writing(id, BoundaryMemory(id, mem, n, bytes), app, n,
                                   CheckpointWrites(id, mem, n, bytes)[1..], GoAsk)))
  {
    var b' := b.(shared := shared');
    BundleSaved(sys, b.shared, id, bytes, shared');
    StoresSurviveBundle(sys, b, shared'.artifacts);
    SavedPosition(sys, b, id, mem, app, n, bytes, b');
    var mem' := BoundaryMemory(id, mem, n, bytes);
    var rest := CheckpointWrites(id, mem, n, bytes)[1..];
    assert rest[0].status == StatusOf(id, mem', Running);
    assert StatusWrite(id, mem', rest[0]);
  }

  lemma SavingStepKeepsInv(sys: System, st: State)
    requires SystemOk(sys) && Inv(sys, st) && st.worker.Saving?
    ensures Inv(sys, Step(st.base, st.worker))
  {
    var w := st.worker;
    var shared' := Apply(w.id, st.base.shared, SaveBundle(w.bytes));
    if shared'.Some? {
      SavedOk(sys, st.base, w.id, w.mem, w.app, w.n, w.bytes, shared'.value);
      hide StoresOk, WorkerOk, Apply, SystemOk;
    } else {
      hide StoresOk, SystemOk;
    }
  }

  /** The receipt is new: its generation was never applied by this attempt, so no stored receipt can differ. */
  lemma ReceiptIsNew(b: Base, id: Ident, mem: Memory, r: Receipt)
    requires LogOk(b) && Pending(b, id, mem, r)
    ensures KeyFor(r) !in b.shared.receipts
  {
  }

  lemma LogExtends(b: Base, b': Base, id: Ident, mem: Memory, r: Receipt)
    requires LogOk(b) && Pending(b, id, mem, r) && id.attempt in b.used
    requires b' == b.(shared := b.shared.(receipts := b.shared.receipts[KeyFor(r) := r]), log := b.log + [r])
    ensures LogOk(b')
  {
    ReceiptIsNew(b, id, mem, r);
    forall i | 0 <= i < |b'.log| ensures ReceiptOk(b', b'.log[i]) {
      if i < |b.log| { assert ReceiptOk(b, b.log[i]); }
    }
    forall k | k in b'.shared.receipts ensures k == KeyFor(b'.shared.receipts[k]) && b'.shared.receipts[k] in b'.log {
      if k != KeyFor(r) { assert b.shared.receipts[k] in b.log; }
    }
  }

  lemma ReceiptStored(sys: System, b: Base, id: Ident, mem: Memory, r: Receipt)
    requires StoresOk(sys, b) && Pending(b, id, mem, r) && id.attempt in b.used
    ensures StoresOk(sys, b.(shared := b.shared.(receipts := b.shared.receipts[KeyFor(r) := r]), log := b.log + [r]))
  {
    var b' := b.(shared := b.shared.(receipts := b.shared.receipts[KeyFor(r) := r]), log := b.log + [r]);
    LogExtends(b, b', id, mem, r);
    SameAnchors(sys, b, b');
    if b.shared.status.Some? {
      ReceiptedGrows(b.log, r, b.shared.status.value.generation, b.shared.status.value.action);
    }
    hide LogOk, ControlsOk, PreparedOk, Pending, Receipted, Ends;
  }

  lemma SameAnchors(sys: System, b: Base, b': Base)
    requires ControlsOk(sys, b) && PreparedOk(sys, b)
    requires b'.controls == b.controls && b'.prepared == b.prepared && b'.shared.artifacts == b.shared.artifacts
    ensures ControlsOk(sys, b') && PreparedOk(sys, b')
  {
    forall i | 0 <= i < |b'.controls| ensures Anchored(sys, b'.shared.artifacts, b'.controls[i].resumeFrom) {
      assert Anchored(sys, b.shared.artifacts, b.controls[i].resumeFrom);
    }
    forall o | o in b'.prepared ensures Anchored(sys, b'.shared.artifacts, b'.prepared[o]) {
      assert Anchored(sys, b.shared.artifacts, b.prepared[o]);
    }
  }

  lemma ReceiptedGrows(log: seq<Receipt>, r: Receipt, generation: nat, action: Action)
    requires Receipted(log, generation, action)
    ensures Receipted(log + [r], generation, action)
  {
    if generation != 0 {
      var i :| 0 <= i < |log| && log[i].generation == generation && log[i].action == action;
      assert (log + [r])[i] == log[i];
    }
  }

  lemma ReceiptStepKeepsInv(sys: System, st: State)
    requires Inv(sys, st) && st.worker.Writing? && |st.worker.todo| == 2
    ensures Inv(sys, Step(st.base, st.worker)) && Step(st.base, st.worker).worker.Writing?
  {
    var b, w := st.base, st.worker;
    var r := w.todo[0].receipt;
    ReceiptIsNew(b, w.id, w.mem, r);
    ReceiptStored(sys, b, w.id, w.mem, r);
    var b' := b.(shared := b.shared.(receipts := b.shared.receipts[KeyFor(r) := r]), log := b.log + [r]);
    assert b'.log[|b.log|] == r;
    assert Receipted(b'.log, w.mem.generation, w.mem.action);
    assert w.todo[1..] == [w.todo[1]];
    assert Step(b, w) == State(b', Writing(w.id, w.mem, w.app, w.n, w.todo[1..], w.afterwards));
  }

  lemma StatusStored(sys: System, b: Base, id: Ident, mem: Memory, app: AppState, n: nat, s: Status)
    requires StoresOk(sys, b) && MemoryOk(sys, b, id, mem) && Position(sys, b, mem, app, n)
    requires Receipted(b.log, mem.generation, mem.action) && StatusWrite(id, mem, WriteStatus(s)) && StatusOk(s)
    ensures var b' := b.(shared := b.shared.(status := Some(s)));
            StoresOk(sys, b') && Settled(sys, b', id, mem, app, n)
  {
    var b' := b.(shared := b.shared.(status := Some(s)));
    forall i | 0 <= i < |b'.log| ensures ReceiptOk(b', b'.log[i]) {
      assert ReceiptOk(b, b.log[i]);
    }
    SameAnchors(sys, b, b');
  }

  lemma StatusStepKeepsInv(sys: System, st: State)
    requires Inv(sys, st) && st.worker.Writing? && |st.worker.todo| == 1
    ensures Inv(sys, Step(st.base, st.worker))
  {
    var b, w := st.base, st.worker;
    var s := w.todo[0].status;
    if StatusOk(s) {
      StatusStored(sys, b, w.id, w.mem, w.app, w.n, s);
      assert w.todo[1..] == [];
      assert Step(b, w)
               == State(b.(shared := b.shared.(status := Some(s))), Writing(w.id, w.mem, w.app, w.n, [], w.afterwards));
    }
  }

  lemma ContinueKeepsInv(sys: System, st: State)
    requires Inv(sys, st) && st.worker.Writing? && |st.worker.todo| == 0
    ensures Inv(sys, Step(st.base, st.worker))
  {
    var w := st.worker;
    assert Settled(sys, st.base, w.id, w.mem, w.app, w.n);
  }

  lemma ProceedKeepsInv(sys: System, st: State)
    requires SystemOk(sys) && Inv(sys, st)
    ensures Inv(sys, Step(st.base, st.worker))
  {
    if st.worker.Saving? {
      SavingStepKeepsInv(sys, st);
    } else if st.worker.Writing? {
      if |st.worker.todo| == 2 { ReceiptStepKeepsInv(sys, st); }
      else if |st.worker.todo| == 1 { StatusStepKeepsInv(sys, st); }
      else { ContinueKeepsInv(sys, st); }
    }
  }

  lemma UnitKeepsInv(sys: System, st: State, update: Option<Progress>, createdAt: int)
    requires Inv(sys, st)
    ensures Inv(sys, Next(sys, st, Unit(update, createdAt)))
  {
    var w := st.worker;
    if w.Working? { ReachedOk(sys, st.base, w.id, w.mem, w.app, w.n, update, createdAt); }
  }

  lemma AskKeepsInv(sys: System, st: State, available: bool)
    requires Inv(sys, st)
    ensures Inv(sys, Next(sys, st, Ask(available)))
  {
    var w := st.worker;
    if w.Asking? { JudgedOk(sys, st.base, w.id, w.mem, w.app, w.n, Reply(st.base, available)); }
  }

  lemma FinishKeepsInv(sys: System, st: State)
    requires Inv(sys, st)
    ensures Inv(sys, Next(sys, st, Finish))
  {
    var w := st.worker;
    if w.Exiting? { FinishOk(sys, st.base, w.id, w.mem, w.app, w.n, w.decision.target); }
  }

  lemma StepKeepsInv(sys: System, st: State, e: Event)
    requires SystemOk(sys) && Inv(sys, st)
    ensures Inv(sys, Next(sys, st, e))
  {
    match e
    case Command(action) => PublicationKeepsInv(sys, st, action, None);
    case ResumeRead(operator) => ResumeReadKeepsInv(sys, st, operator);
    case ResumePublish(operator) => ResumePublishKeepsInv(sys, st, operator);
    case Launch(attempt, job) => LaunchKeepsInv(sys, st, attempt, job);
    case FetchStart(available, adapterFails) => FetchStartKeepsInv(sys, st, available, adapterFails);
    case Proceed => ProceedKeepsInv(sys, st);
    case Unit(update, createdAt) => UnitKeepsInv(sys, st, update, createdAt);
    case Ask(available) => AskKeepsInv(sys, st, available);
    case Finish => FinishKeepsInv(sys, st);
    case Die =>
  }

  lemma {:induction false} InvAfter(sys: System, events: seq<Event>)
    requires SystemOk(sys)
    ensures Inv(sys, After(sys, events))
  {
    if events != [] {
      InvAfter(sys, events[..|events| - 1]);
      StepKeepsInv(sys, After(sys, events[..|events| - 1]), events[|events| - 1]);
    }
  }
}
