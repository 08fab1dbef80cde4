/**
 What one attempt's controller decides and writes, as values: the class in Controller executes these
 plans and the system model in RunSystem interleaves them with operators and crashes.
 */
module ControllerModel {
  import opened Prelude
  import opened ClaimKeys
  import opened Bundle
  import opened BundleStream
  import opened ControlModel
  import C = CheckpointChain

  type Ref = C.Ref

  datatype RunState = Created | Running | Pausing | Paused | Stopping | Completed | Aborting | Aborted | Failed

  /** The part of a progress snapshot that a status checks. */
  datatype Progress = Progress(attempt: string, job: Option<string>)

  datatype Status = Status(
    attempt: string, job: Option<string>, state: RunState, generation: nat, action: Action,
    boundary: Option<nat>, checkpoint: Option<Ref>, progress: Option<Progress>)

  datatype Outcome = Started | Resumed | Accepted | RejectedUnsupported

  datatype Receipt = Receipt(
    attempt: string, generation: nat, action: Action, outcome: Outcome, boundary: Option<nat>, checkpoint: Option<Ref>)

  /** A status may only carry the progress of its own attempt; building any other raises. */
  predicate StatusOk(s: Status) {
    s.progress.Some? ==>
      s.progress.value.attempt == s.attempt && (s.progress.value.job.Some? ==> s.progress.value.job == s.job)
  }

  /** One physical attempt: its identity, its bucket and the codec of its bundles. */
  datatype Ident = Ident(codec: Codec, bucket: string, run: string, plan: string, attempt: string, job: Option<string>)

  /** What a controller remembers between boundaries. */
  datatype Memory = Memory(
    generation: nat, action: Action, boundary: Option<nat>, checkpoint: Option<Ref>, progress: Option<Progress>)

  datatype Decision = Decision(action: Action, generation: nat, shouldExit: bool, exitCode: nat, target: RunState)

  // ---------------------------------------------------------------------------------------------
  // The stores of a run

  datatype Write = SaveBundle(bytes: Bytes) | WriteReceipt(receipt: Receipt) | WriteStatus(status: Status)

  datatype ReceiptKey = ReceiptKey(attempt: string, generation: nat)

  datatype Shared = Shared(artifacts: map<string, Bytes>, status: Option<Status>, receipts: map<ReceiptKey, Receipt>)

  function RefOf(id: Ident, bytes: Bytes): Ref {
    C.Ref(id.bucket, CheckpointBundleKey("", id.run, id.codec.sha(bytes)), id.codec.sha(bytes), |bytes|)
  }

  function KeyFor(r: Receipt): ReceiptKey {
    ReceiptKey(r.attempt, r.generation)
  }

  /** The effect of one write; nothing when the store or a record refuses it. */
  function Apply(id: Ident, shared: Shared, w: Write): Option<Shared> {
    match w
    case SaveBundle(bytes) =>
      var key := RefOf(id, bytes).key;
      if key !in shared.artifacts then Some(shared.(artifacts := shared.artifacts[key := bytes]))
      else if id.codec.sha(shared.artifacts[key]) == id.codec.sha(bytes) && |shared.artifacts[key]| == |bytes|
        then Some(shared)
      else None
    case WriteReceipt(r) =>
      if KeyFor(r) in shared.receipts && shared.receipts[KeyFor(r)] != r then None
      else Some(shared.(receipts := shared.receipts[KeyFor(r) := r]))
    case WriteStatus(s) => if StatusOk(s) then Some(shared.(status := Some(s))) else None
  }

  // ---------------------------------------------------------------------------------------------
  // Starting

  /** A new controller continues from the last status of the run. */
  function Inherit(previous: Option<Status>): Memory {
    match previous
    case None => Memory(0, Run, None, None, None)
    case Some(s) => Memory(s.generation, s.action, s.boundary, s.checkpoint, s.progress)
  }

  datatype StartRefusal = StaleGeneration | NotRun | CannotResume

  function StartError(mem: Memory, control: Control, mode: ResumeMode): Option<StartRefusal> {
    if control.generation <= mem.generation then Some(StaleGeneration)
    else if !control.action.Run? then Some(NotRun)
    else if control.resumeFrom.Some? && (mode.Restart? || mode.Unsupported?) then Some(CannotResume)
    else None
  }

  /** Downloads a checkpoint, checking it against its reference. */
  function GetCheckpoint(id: Ident, artifacts: map<string, Bytes>, reference: Ref): Option<Bytes> {
    if reference.bucket != id.bucket || reference.key !in artifacts then None
    else
      var bytes := artifacts[reference.key];
      if |bytes| != reference.bytes || id.codec.sha(bytes) != reference.sha256 then None else Some(bytes)
  }

  /** What a start restores from a checkpoint, if it may. */
  ghost function Restorable(
      id: Ident, artifacts: map<string, Bytes>, adapter: AdapterSpec, reference: Ref): Option<Verified>
  {
    match GetCheckpoint(id, artifacts, reference)
    case None => None
    case Some(bytes) =>
      match Decode(id.codec, bytes)
      case None => None
      case Some(v) =>
        if ManifestIdentity(v.manifest.meta, id.run, id.plan, adapter).None? && !Nested(v.manifest.payloads)
          then Some(v)
          else None
  }

  /** What can be read back, and restored, by a reference. */
  lemma GetCheckpointMeans(id: Ident, artifacts: map<string, Bytes>, reference: Ref, bytes: Bytes)
    ensures GetCheckpoint(id, artifacts, reference) == Some(bytes) <==>
              && reference.bucket == id.bucket && reference.key in artifacts && artifacts[reference.key] == bytes
              && |bytes| == reference.bytes && id.codec.sha(bytes) == reference.sha256
  {
  }

  lemma RestorableMeans(id: Ident, artifacts: map<string, Bytes>, adapter: AdapterSpec, reference: Ref, v: Verified)
    ensures Restorable(id, artifacts, adapter, reference) == Some(v) <==>
              && GetCheckpoint(id, artifacts, reference).Some?
              && Decode(id.codec, GetCheckpoint(id, artifacts, reference).value) == Some(v)
              && v.manifest.meta.run == id.run && v.manifest.meta.plan == id.plan
              && v.manifest.meta.adapter == adapter && !Nested(v.manifest.payloads)
  {
    hide Decode, GetCheckpoint, Nested;
  }

  function StatusOf(id: Ident, mem: Memory, state: RunState): Status {
    Status(id.attempt, id.job, state, mem.generation, mem.action, mem.boundary, mem.checkpoint, mem.progress)
  }

  function Adopt(mem: Memory, control: Control): Memory {
    mem.(generation := control.generation, action := control.action)
  }

  function ReceiptFor(
      id: Ident, control: Control, outcome: Outcome, boundary: Option<nat>, checkpoint: Option<Ref>): Receipt
  {
    Receipt(id.attempt, control.generation, control.action, outcome, boundary, checkpoint)
  }

  /** The memory of a started controller: at the restored boundary, or at none. */
  function StartMemory(mem: Memory, control: Control, restored: Option<nat>): Memory {
    Adopt(mem.(boundary := restored, checkpoint := control.resumeFrom), control)
  }

  /** A receipt for the control that was applied, and only then the status that shows it. */
  function StartWrites(id: Ident, mem: Memory, control: Control, restored: Option<nat>): seq<Write> {
    [ WriteReceipt(ReceiptFor(id, control, if control.resumeFrom.Some? then Resumed else Started, restored,
                              control.resumeFrom)),
      WriteStatus(StatusOf(id, StartMemory(mem, control, restored), Running)) ]
  }

  // ---------------------------------------------------------------------------------------------
  // Boundaries

  function BundleMeta(id: Ident, mem: Memory, adapter: AdapterSpec, n: nat, createdAt: int): Meta {
    Meta(id.run, id.attempt, adapter, id.plan, n,
         if mem.checkpoint.None? then None else Some(mem.checkpoint.value.sha256), createdAt)
  }

  /** The controller stands at the boundary whose bundle it saved. */
  function BoundaryMemory(id: Ident, mem: Memory, n: nat, bytes: Bytes): Memory {
    mem.(boundary := Some(n), checkpoint := Some(RefOf(id, bytes)))
  }

  /** Before control is read, the checkpoint is stored and the status names it. */
  function CheckpointWrites(id: Ident, mem: Memory, n: nat, bytes: Bytes): seq<Write> {
    [SaveBundle(bytes), WriteStatus(StatusOf(id, BoundaryMemory(id, mem, n, bytes), Running))]
  }

  function DecisionFor(action: Action, generation: nat, pauseSupported: bool): Decision {
    match action
    case Run => Decision(action, generation, false, 0, Running)
    case Pause =>
      if pauseSupported
        then Decision(action, generation, true, 0, Paused)
        else Decision(action, generation, true, 1, Failed)
    case Stop => Decision(action, generation, true, 0, Completed)
    case Abort => Decision(action, generation, true, 1, Aborted)
  }

  function TransitionState(action: Action): RunState {
    match action
    case Run => Running
    case Pause => Pausing
    case Stop => Stopping
    case Abort => Aborting
  }

  /** What a controller makes of the control it has read, or failed to read, at a boundary. */
  datatype Verdict = Verdict(decision: Decision, memory: Memory, writes: seq<Write>)

  /** Without trustworthy control the attempt pauses. */
  function PauseVerdict(id: Ident, mem: Memory): Verdict {
    Verdict(DecisionFor(Pause, mem.generation, true), mem, [WriteStatus(StatusOf(id, mem, Pausing))])
  }

  function Judge(id: Ident, mem: Memory, reply: Option<Control>, mode: ResumeMode): Verdict {
    match reply
    case None => PauseVerdict(id, mem)
    case Some(control) =>
      if control.generation < mem.generation then PauseVerdict(id, mem)
      else if control.generation == mem.generation then
        if control.action != mem.action then PauseVerdict(id, mem)
        else Verdict(DecisionFor(control.action, control.generation, true), mem, [])
      else
        var rejected := control.action.Pause? && mode.Unsupported?;
        var mem' := Adopt(mem, control);
        Verdict(
          DecisionFor(control.action, control.generation, !rejected), mem',
          [ WriteReceipt(ReceiptFor(id, control, if rejected then RejectedUnsupported else Accepted, mem.boundary,
                                    mem.checkpoint)),
            WriteStatus(StatusOf(id, mem', if rejected then Aborting else TransitionState(control.action))) ])
  }

  // ---------------------------------------------------------------------------------------------
  // What operators may rely on

  /** How an attempt that was given the command ends: whether it exits, with what code, and in what state. */
  ghost predicate Leads(action: Action, supported: bool, d: Decision) {
    && (action == Run ==> !d.shouldExit && d.exitCode == 0 && d.target == Running)
    && (action == Pause && supported ==> d.shouldExit && d.exitCode == 0 && d.target == Paused)
    && (action == Pause && !supported ==> d.shouldExit && d.exitCode == 1 && d.target == Failed)
    && (action == Stop ==> d.shouldExit && d.exitCode == 0 && d.target == Completed)
    && (action == Abort ==> d.shouldExit && d.exitCode == 1 && d.target == Aborted)
  }

  /** What the attempt reports about the command: the outcome on its receipt and the state of its status. */
  ghost predicate Reported(action: Action, supported: bool, outcome: Outcome, state: RunState) {
    && (action == Run ==> outcome == Accepted && state == Running)
    && (action == Pause && supported ==> outcome == Accepted && state == Pausing)
    && (action == Pause && !supported ==> outcome == RejectedUnsupported && state == Aborting)
    && (action == Stop ==> outcome == Accepted && state == Stopping)
    && (action == Abort ==> outcome == Accepted && state == Aborting)
  }

  /** The status of the attempt at a boundary, whatever its state. */
  predicate AtBoundary(
      id: Ident, s: Option<Status>, generation: nat, action: Action, n: nat, bytes: Bytes, progress: Option<Progress>)
  {
    && s.Some?
    && s == Some(Status(
              id.attempt, id.job, s.value.state, generation, action, Some(n), Some(RefOf(id, bytes)), progress))
  }

  /** The command is newer than anything the attempt has applied. */
  predicate Newer(mem: Memory, reply: Option<Control>) {
    reply.Some? && reply.value.generation > mem.generation
  }

  /** The command is the one the attempt has already applied. */
  predicate Known(mem: Memory, reply: Option<Control>) {
    reply.Some? && reply.value.generation == mem.generation && reply.value.action == mem.action
  }

  /**
   A boundary reached with `mem` in force and answered with `reply`: what is decided, what the attempt
   remembers, and what the stores hold afterwards.  Without a trustworthy answer the attempt pauses.
   */
  ghost predicate Obeyed(
      id: Ident, mode: ResumeMode, mem: Memory, n: nat, bytes: Bytes, reply: Option<Control>,
      was: Shared, now: Shared, d: Decision, after: Memory)
  {
    && GetCheckpoint(id, now.artifacts, RefOf(id, bytes)).Some?
    && (now.artifacts == was.artifacts
        || (RefOf(id, bytes).key !in was.artifacts
            && now.artifacts == was.artifacts[RefOf(id, bytes).key := bytes]))
    && after.boundary == Some(n) && after.checkpoint == Some(RefOf(id, bytes)) && after.progress == mem.progress
    && d.generation == after.generation
    && AtBoundary(id, now.status, after.generation, after.action, n, bytes, mem.progress)
    && if Newer(mem, reply) then
         var (g, a) := (reply.value.generation, reply.value.action);
         && after.generation == g && after.action == a && d.action == a
         && ReceiptKey(id.attempt, g) in now.receipts
         && var outcome := now.receipts[ReceiptKey(id.attempt, g)].outcome;
            && now.receipts == was.receipts[ReceiptKey(id.attempt, g) :=
                 Receipt(id.attempt, g, a, outcome, Some(n), Some(RefOf(id, bytes)))]
            && Reported(a, !mode.Unsupported?, outcome, now.status.value.state)
            && Leads(a, !mode.Unsupported?, d)
       else
         && after.generation == mem.generation && after.action == mem.action && now.receipts == was.receipts
         && if Known(mem, reply) then
              d.action == mem.action && Leads(mem.action, true, d) && now.status.value.state == Running
            else
              d == Decision(Pause, mem.generation, true, 0, Paused) && now.status.value.state == Pausing
  }

  /** Control, adapter and bucket let a start go ahead. */
  ghost predicate MayStart(
      id: Ident, adapter: AdapterSpec, artifacts: map<string, Bytes>, mem: Memory, reply: Option<Control>)
  {
    && reply.Some? && reply.value.generation > mem.generation && reply.value.action == Run
    && (reply.value.resumeFrom.Some? ==>
          && (adapter.resumeMode == Exact || adapter.resumeMode == Boundary)
          && Restorable(id, artifacts, adapter, reply.value.resumeFrom.value).Some?)
  }

  /** What the stores hold after a start from the boundary `restored`. */
  ghost predicate StartedWith(
      id: Ident, mem: Memory, control: Control, restored: Option<nat>, was: Shared, now: Shared)
  {
    && now.artifacts == was.artifacts
    && now.receipts == was.receipts[ReceiptKey(id.attempt, control.generation) :=
         Receipt(id.attempt, control.generation, control.action,
                 if control.resumeFrom.Some? then Resumed else Started, restored, control.resumeFrom)]
    && now.status == Some(Status(id.attempt, id.job, Running, control.generation, control.action,
                                 restored, control.resumeFrom, mem.progress))
  }

  predicate Kept(artifacts: map<string, Bytes>, more: map<string, Bytes>) {
    forall k :: k in artifacts ==> k in more && more[k] == artifacts[k]
  }

  // ---------------------------------------------------------------------------------------------
  // The operator's side of a resume

  datatype ResumeRefusal = NoStatus | NotPaused | NoCheckpoint | BadCheckpoint | AdapterUnsupported

  /** What `resume` publishes a run command with, judging from the status and the checkpoint it names. */
  ghost function ResumeFrom(id: Ident, shared: Shared): Result<Option<Ref>, ResumeRefusal> {
    match shared.status
    case None => Err(NoStatus)
    case Some(s) =>
      if !s.state.Paused? then Err(NotPaused)
      else if s.checkpoint.None? then Err(NoCheckpoint)
      else
        match GetCheckpoint(id, shared.artifacts, s.checkpoint.value)
        case None => Err(BadCheckpoint)
        case Some(bytes) =>
          match Decode(id.codec, bytes)
          case None => Err(BadCheckpoint)
          case Some(v) =>
            if v.manifest.meta.run != id.run then Err(BadCheckpoint)
            else if v.manifest.meta.adapter.resumeMode.Unsupported? then Err(AdapterUnsupported)
            else Ok(if v.manifest.meta.adapter.resumeMode.Restart? then None else s.checkpoint)
  }
}
