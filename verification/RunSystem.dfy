/**
 A controlled run as a whole: operators publish control between any two steps of the worker, attempts
 follow one another, and an attempt may die between any two of its writes.
 */
module RunSystem {
  import opened Prelude
  import opened Bundle
  import opened BundleStream
  import opened ControlModel
  import opened ControllerModel

  /** The state of the application between units of work. */
  type AppState(==, !new)

  /** The application: deterministic work, and an adapter that turns its state into files and back. */
  datatype App = App(
    init: AppState, step: AppState -> AppState, save: AppState -> seq<Payload>, restore: map<string, Bytes> -> AppState)

  /** One run: its application and adapter, and what every attempt of it shares. */
  datatype System = System(app: App, adapter: AdapterSpec, codec: Codec, bucket: string, run: string, plan: string)

  function Id(sys: System, attempt: string, job: Option<string>): Ident {
    Ident(sys.codec, sys.bucket, sys.run, sys.plan, attempt, job)
  }

  /** An operator needs no identity of its own. */
  function Operator(sys: System): Ident {
    Id(sys, "", None)
  }

  /** The state of an uninterrupted run after n units of work. */
  function Iter(app: App, n: nat): AppState {
    if n == 0 then app.init else app.step(Iter(app, n - 1))
  }

  datatype Then = GoWork | GoAsk | GoDecide(decision: Decision) | GoDown

  /** Where the live attempt stands; `app` is the application's state after `n` units of work. */
  datatype Worker =
    | Down
    | Loaded(id: Ident, mem: Memory)
    | Working(id: Ident, mem: Memory, app: AppState, n: nat)
    | Saving(id: Ident, mem: Memory, app: AppState, n: nat, bytes: Bytes)
    | Writing(id: Ident, mem: Memory, app: AppState, n: nat, todo: seq<Write>, afterwards: Then)
    | Asking(id: Ident, mem: Memory, app: AppState, n: nat)
    | Exiting(id: Ident, mem: Memory, app: AppState, n: nat, decision: Decision)

  /** What outlives an attempt; `log` lists the receipts in the order they were stored. */
  datatype Base = Base(
    controls: seq<Control>, prepared: map<string, Option<Ref>>, shared: Shared, used: set<string>, log: seq<Receipt>)

  datatype State = State(base: Base, worker: Worker)

  const INITIAL := State(Base([], map[], Shared(map[], None, map[]), {}, []), Down)

  datatype Event =
      // operators
    | Command(action: Action)
    | ResumeRead(operator: string)
    | ResumePublish(operator: string)
      // the worker
    | Launch(attempt: string, job: Option<string>)
    | FetchStart(available: bool, adapterFails: bool)
    | Unit(update: Option<Progress>, createdAt: int)
    | Proceed
    | Ask(available: bool)
    | Finish
    | Die

  function Published(b: Base, action: Action, resumeFrom: Option<Ref>, run: string): Base {
    b.(controls := b.controls + [Control(run, |b.controls| + 1, action, resumeFrom)])
  }

  /** The answer to a request for control, if the control store answers at all. */
  function Reply(b: Base, available: bool): Option<Control> {
    if available && b.controls != [] then Some(b.controls[|b.controls| - 1]) else None
  }

  ghost function AfterFetch(
      sys: System, b: Base, id: Ident, mem: Memory, reply: Option<Control>, adapterFails: bool): Worker
  {
    if reply.None? || StartError(mem, reply.value, sys.adapter.resumeMode).Some? then Down
    else if reply.value.resumeFrom.None? then
      Writing(id, StartMemory(mem, reply.value, None), sys.app.init, 0, StartWrites(id, mem, reply.value, None), GoWork)
    else
      match Restorable(id, b.shared.artifacts, sys.adapter, reply.value.resumeFrom.value)
      case None => Down
      case Some(v) =>
        if adapterFails then Down
        else
          var n := v.manifest.meta.boundary;
          Writing(id, StartMemory(mem, reply.value, Some(n)), sys.app.restore(v.payloads), n,
                  StartWrites(id, mem, reply.value, Some(n)), GoWork)
  }

  /** One more unit of work brings the application to its next boundary. */
  function Reached(
      sys: System, id: Ident, mem: Memory, app: AppState, n: nat, update: Option<Progress>, createdAt: int): Worker
  {
    var mem' := if update.Some? then mem.(progress := update) else mem;
    if update.Some? && !StatusOk(StatusOf(id, mem', Running)) then Down
    else
      match Create(sys.codec, BundleMeta(id, mem', sys.adapter, n + 1, createdAt), sys.app.save(sys.app.step(app)))
      case None => Down
      case Some((bytes, _)) => Saving(id, mem', sys.app.step(app), n + 1, bytes)
  }

  function Continue(id: Ident, mem: Memory, app: AppState, n: nat, afterwards: Then): Worker {
    match afterwards
    case GoWork => Working(id, mem, app, n)
    case GoAsk => Asking(id, mem, app, n)
    case GoDecide(decision) =>
      if decision.shouldExit then Exiting(id, mem, app, n, decision) else Working(id, mem, app, n)
    case GoDown => Down
  }

  /** The next write of the live attempt; a refused one raises, and the attempt is over. */
  function Write(b: Base, id: Ident, w: Write, next: Worker): State {
    match Apply(id, b.shared, w)
    case None => State(b, Down)
    case Some(shared) =>
      State(b.(shared := shared, log := if w.WriteReceipt? then b.log + [w.receipt] else b.log), next)
  }

  function Step(b: Base, worker: Worker): State {
    match worker
    case Saving(id, mem, app, n, bytes) =>
      var writes := CheckpointWrites(id, mem, n, bytes);
      Write(b, id, writes[0], Writing(id, BoundaryMemory(id, mem, n, bytes), app, n, writes[1..], GoAsk))
    case Writing(id, mem, app, n, todo, afterwards) =>
      if todo == [] then State(b, Continue(id, mem, app, n, afterwards))
      else Write(b, id, todo[0], Writing(id, mem, app, n, todo[1..], afterwards))
    case _ => State(b, worker)
  }

  ghost function Next(sys: System, st: State, e: Event): State {
    var State(b, worker) := st;
    match e
    case Command(action) => State(Published(b, action, None, sys.run), worker)
    case ResumeRead(operator) =>
      (match ResumeFrom(Operator(sys), b.shared)
       case Err(_) => st
       case Ok(from) => State(b.(prepared := b.prepared[operator := from]), worker))
    case ResumePublish(operator) =>
      if operator in b.prepared
      then State(Published(b.(prepared := b.prepared - {operator}), Run, b.prepared[operator], sys.run), worker)
      else st
    case Launch(attempt, job) =>
      if worker.Down? && attempt !in b.used
      then State(b.(used := b.used + {attempt}), Loaded(Id(sys, attempt, job), Inherit(b.shared.status)))
      else st
    case FetchStart(available, adapterFails) =>
      if worker.Loaded?
      then State(b, AfterFetch(sys, b, worker.id, worker.mem, Reply(b, available), adapterFails))
      else st
    case Unit(update, createdAt) =>
      if worker.Working?
      then State(b, Reached(sys, worker.id, worker.mem, worker.app, worker.n, update, createdAt))
      else st
    case Proceed => Step(b, worker)
    case Ask(available) =>
      if worker.Asking? then
        var v := Judge(worker.id, worker.mem, Reply(b, available), sys.adapter.resumeMode);
        State(b, Writing(worker.id, v.memory, worker.app, worker.n, v.writes, GoDecide(v.decision)))
      else st
    case Finish =>
      if worker.Exiting? then
        State(b, Writing(worker.id, worker.mem, worker.app, worker.n,
                         [WriteStatus(StatusOf(worker.id, worker.mem, worker.decision.target))], GoDown))
      else st
    case Die => State(b, Down)
  }

  ghost function After(sys: System, events: seq<Event>): State {
    if events == [] then INITIAL else Next(sys, After(sys, events[..|events| - 1]), events[|events| - 1])
  }

  /** What is assumed of the application and of SHA-256. */
  ghost predicate SystemOk(sys: System) {
    && RoundTrips(sys.codec)
    && (forall a, b :: sys.codec.sha(a) == sys.codec.sha(b) ==> a == b)
    && (forall s :: sys.app.restore(Saved(sys.app.save(s))) == s)
    && (forall s :: !Nested(Refs(sys.codec, sys.app.save(s))))
  }

  // ---------------------------------------------------------------------------------------------
  // Checkpoints

  /** The bytes are the bundle that some attempt made of the n-th state of an uninterrupted run. */
  ghost predicate IsBundle(sys: System, bytes: Bytes, n: nat, previous: Option<string>) {
    exists attempt, createdAt :: MadeBy(sys, bytes, n, previous, attempt, createdAt)
  }

  ghost predicate MadeBy(sys: System, bytes: Bytes, n: nat, previous: Option<string>, attempt: string, createdAt: int) {
    var made := Create(sys.codec, Meta(sys.run, attempt, sys.adapter, sys.plan, n, previous, createdAt),
                       sys.app.save(Iter(sys.app, n)));
    made.Some? && made.value.0 == bytes
  }

  ghost predicate Link(sys: System, artifacts: map<string, Bytes>, chain: seq<Ref>, i: nat)
    requires i < |chain|
  {
    var bytes := GetCheckpoint(Operator(sys), artifacts, chain[i]);
    bytes.Some? && IsBundle(sys, bytes.value, i + 1, if i == 0 then None else Some(chain[i - 1].sha256))
  }

  /** The checkpoints of boundaries 1, 2, ..., each naming the one before it. */
  ghost predicate Lineage(sys: System, artifacts: map<string, Bytes>, chain: seq<Ref>) {
    forall i {:trigger Link(sys, artifacts, chain, i)} :: 0 <= i < |chain| ==> Link(sys, artifacts, chain, i)
  }

  /** The reference ends a lineage of length n. */
  ghost predicate Ends(sys: System, artifacts: map<string, Bytes>, r: Ref, n: nat) {
    exists chain :: Lineage(sys, artifacts, chain) && |chain| == n >= 1 && chain[n - 1] == r
  }

  ghost predicate Anchored(sys: System, artifacts: map<string, Bytes>, r: Option<Ref>) {
    r.Some? ==> exists n :: Ends(sys, artifacts, r.value, n)
  }

  /** A boundary and its checkpoint belong together. */
  ghost predicate Placed(sys: System, artifacts: map<string, Bytes>, checkpoint: Option<Ref>, boundary: Option<nat>) {
    && (checkpoint.Some? <==> boundary.Some?)
    && (checkpoint.Some? ==> Ends(sys, artifacts, checkpoint.value, boundary.value))
  }

  lemma EndsStays(sys: System, artifacts: map<string, Bytes>, more: map<string, Bytes>, r: Ref, n: nat)
    requires Kept(artifacts, more) && Ends(sys, artifacts, r, n)
    ensures Ends(sys, more, r, n)
  {
    var chain :| Lineage(sys, artifacts, chain) && |chain| == n >= 1 && chain[n - 1] == r;
    forall i | 0 <= i < |chain| ensures Link(sys, more, chain, i) {
      assert Link(sys, artifacts, chain, i);
    }
  }

  lemma AnchoredStays(sys: System, artifacts: map<string, Bytes>, more: map<string, Bytes>, r: Option<Ref>)
    requires Kept(artifacts, more) && Anchored(sys, artifacts, r)
    ensures Anchored(sys, more, r)
  {
    if r.Some? {
      var n :| Ends(sys, artifacts, r.value, n);
      EndsStays(sys, artifacts, more, r.value, n);
    }
  }

  lemma PlacedStays(
      sys: System, artifacts: map<string, Bytes>, more: map<string, Bytes>, checkpoint: Option<Ref>,
      boundary: Option<nat>)
    requires Kept(artifacts, more) && Placed(sys, artifacts, checkpoint, boundary)
    ensures Placed(sys, more, checkpoint, boundary)
  {
    if checkpoint.Some? { EndsStays(sys, artifacts, more, checkpoint.value, boundary.value); }
  }

  lemma LinkCarries(sys: System, artifacts: map<string, Bytes>, chain: seq<Ref>, next: Ref, i: nat)
    requires i < |chain| && Link(sys, artifacts, chain, i)
    ensures Link(sys, artifacts, chain + [next], i)
  {
    hide IsBundle, GetCheckpoint;
  }

  lemma LinkAtEnd(sys: System, artifacts: map<string, Bytes>, id: Ident, chain: seq<Ref>, bytes: Bytes)
    requires id == Id(sys, id.attempt, id.job)
    requires IsBundle(sys, bytes, |chain| + 1, if chain == [] then None else Some(chain[|chain| - 1].sha256))
    requires RefOf(id, bytes).key in artifacts && artifacts[RefOf(id, bytes).key] == bytes
    ensures Link(sys, artifacts, chain + [RefOf(id, bytes)], |chain|)
  {
    hide IsBundle;
  }

  /** Storing the next bundle extends the lineage of the checkpoint before it. */
  lemma BundleExtends(
      sys: System, artifacts: map<string, Bytes>, id: Ident, previous: Option<Ref>, n: nat, bytes: Bytes)
    requires id == Id(sys, id.attempt, id.job)
    requires if previous.None? then n == 0 else Ends(sys, artifacts, previous.value, n)
    requires IsBundle(sys, bytes, n + 1, if previous.None? then None else Some(previous.value.sha256))
    requires RefOf(id, bytes).key in artifacts && artifacts[RefOf(id, bytes).key] == bytes
    ensures Ends(sys, artifacts, RefOf(id, bytes), n + 1)
  {
    hide IsBundle, Link;
    var chain: seq<Ref> := [];
    if previous.Some? {
      chain :| Lineage(sys, artifacts, chain) && |chain| == n >= 1 && chain[n - 1] == previous.value;
    }
    LinkAtEnd(sys, artifacts, id, chain, bytes);
    var longer := chain + [RefOf(id, bytes)];
    forall i | 0 <= i < |longer| ensures Link(sys, artifacts, longer, i) {
      if i < |chain| { LinkCarries(sys, artifacts, chain, RefOf(id, bytes), i); }
    }
  }

  /** What is restored from a checkpoint that ends a lineage is the application's state at that boundary. */
  lemma RestoresState(sys: System, artifacts: map<string, Bytes>, id: Ident, r: Ref, n: nat)
    requires SystemOk(sys) && id == Id(sys, id.attempt, id.job) && Ends(sys, artifacts, r, n)
    requires Restorable(id, artifacts, sys.adapter, r).Some?
    ensures Restorable(id, artifacts, sys.adapter, r).value.manifest.meta.boundary == n
    ensures sys.app.restore(Restorable(id, artifacts, sys.adapter, r).value.payloads) == Iter(sys.app, n)
  {
    var chain: seq<Ref> :| Lineage(sys, artifacts, chain) && |chain| == n >= 1 && chain[n - 1] == r;
    assert Link(sys, artifacts, chain, n - 1);
    var bytes := GetCheckpoint(Operator(sys), artifacts, r).value;
    var previous: Option<string> := if n == 1 then None else Some(chain[n - 2].sha256);
    BundleRestores(sys, bytes, n, previous);
  }

  lemma BundleRestores(sys: System, bytes: Bytes, n: nat, previous: Option<string>)
    requires SystemOk(sys) && IsBundle(sys, bytes, n, previous) && Decode(sys.codec, bytes).Some?
    ensures var v := Decode(sys.codec, bytes).value;
            && v.manifest.meta.run == sys.run && v.manifest.meta.plan == sys.plan
            && v.manifest.meta.adapter == sys.adapter
            && v.manifest.meta.boundary == n && v.manifest.meta.previous == previous
            && sys.app.restore(v.payloads) == Iter(sys.app, n) && !Nested(v.manifest.payloads)
  {
    var attempt, createdAt :| MadeBy(sys, bytes, n, previous, attempt, createdAt);
    var meta := Meta(sys.run, attempt, sys.adapter, sys.plan, n, previous, createdAt);
    CreatedDecodesOnlyIf(sys.codec, meta, sys.app.save(Iter(sys.app, n)));
    CreatedDecodes(sys.codec, meta, sys.app.save(Iter(sys.app, n)));
  }
}
