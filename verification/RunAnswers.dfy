/** What commands do to a run: at its next boundary an attempt obeys the newest one, and ends as it says. */
module RunAnswers {
  import opened Prelude
  import opened ClaimKeys
  import opened Bundle
  import opened ControlModel
  import opened ControllerModel
  import opened Controller
  import opened RunSystem
  import opened RunSafety
  import R = RunRefinement
  import T = RunTheorems

  // ---------------------------------------------------------------------------------------------
  // No write of a boundary is refused

  /** Every bundle of the bucket lies under the key of its own digest. */
  ghost predicate Addressed(sys: System, artifacts: map<string, Bytes>) {
    forall k :: k in artifacts ==> k == CheckpointBundleKey("", sys.run, sys.codec.sha(artifacts[k]))
  }

  lemma StepKeepsAddressed(sys: System, st: State)
    requires Inv(sys, st) && Addressed(sys, st.base.shared.artifacts)
    ensures Addressed(sys, Step(st.base, st.worker).base.shared.artifacts)
  {
    hide Position, IsBundle, LogOk, ControlsOk, PreparedOk, StatusInv, Placed;
    var w := st.worker;
    if w.Writing? && w.todo != [] {
      assert w.todo[0].WriteReceipt? || w.todo[0].WriteStatus?;
    }
  }

  /** Only a step of the worker may change the bucket. */
  lemma OthersKeepArtifacts(sys: System, st: State, e: Event)
    requires !e.Proceed?
    ensures Next(sys, st, e).base.shared.artifacts == st.base.shared.artifacts
  {
    hide Step, Judge, AfterFetch, Reached, ResumeFrom;
  }

  lemma NextKeepsAddressed(sys: System, st: State, e: Event)
    requires Inv(sys, st) && Addressed(sys, st.base.shared.artifacts)
    ensures Addressed(sys, Next(sys, st, e).base.shared.artifacts)
  {
    hide Inv, Addressed, Next;
    if e.Proceed? {
      StepKeepsAddressed(sys, st);
      T.ProceedIsStep(sys, st);
    } else {
      OthersKeepArtifacts(sys, st, e);
    }
  }

  lemma {:induction false} ArtifactsAreAddressed(sys: System, events: seq<Event>)
    requires SystemOk(sys)
    ensures Addressed(sys, After(sys, events).base.shared.artifacts)
  {
    if events != [] {
      var before, e := events[..|events| - 1], events[|events| - 1];
      ArtifactsAreAddressed(sys, before);
      InvAfter(sys, before);
      hide Inv, Next, Addressed;
      NextKeepsAddressed(sys, After(sys, before), e);
    }
  }

  lemma BundleIsTaken(sys: System, b: Base, id: Ident, bytes: Bytes)
    requires SystemOk(sys) && Addressed(sys, b.shared.artifacts) && id == Id(sys, id.attempt, id.job)
    ensures Apply(id, b.shared, SaveBundle(bytes)).Some?
  {
    var key := RefOf(id, bytes).key;
    if key in b.shared.artifacts {
      CheckpointBundleKeyInjective("", sys.run, sys.codec.sha(bytes), sys.codec.sha(b.shared.artifacts[key]));
    }
  }

  lemma NewReceiptIsTaken(sys: System, b: Base, id: Ident, mem: Memory, r: Receipt)
    requires LogOk(b) && MemoryOk(sys, b, id, mem) && r.attempt == id.attempt && r.generation > mem.generation
    ensures KeyFor(r) !in b.shared.receipts
  {
  }

  lemma CheckpointIsTaken(sys: System, b: Base, id: Ident, mem: Memory, n: nat, bytes: Bytes)
    requires SystemOk(sys) && Addressed(sys, b.shared.artifacts) && id == Id(sys, id.attempt, id.job)
    requires OwnProgress(id, mem)
    ensures Effects(id, b.shared, Entries(CheckpointWrites(id, mem, n, bytes))).Some?
    ensures Effects(id, b.shared, Entries(CheckpointWrites(id, mem, n, bytes))).value.receipts == b.shared.receipts
  {
    BundleIsTaken(sys, b, id, bytes);
    EffectsOfWrites(id, b.shared, CheckpointWrites(id, mem, n, bytes));
    hide Effects, Addressed, SystemOk;
  }

  lemma VerdictIsTaken(id: Ident, mem: Memory, reply: Option<Control>, mode: ResumeMode, mid: Shared)
    requires OwnProgress(id, mem)
    requires Newer(mem, reply) ==> ReceiptKey(id.attempt, reply.value.generation) !in mid.receipts
    ensures Effects(id, mid, Entries(Judge(id, mem, reply, mode).writes)).Some?
  {
    EffectsOfWrites(id, mid, Judge(id, mem, reply, mode).writes);
    hide Effects;
  }

  lemma NothingIsRefused(
      sys: System, b: Base, id: Ident, mem: Memory, app: AppState, n: nat, bytes: Bytes, available: bool)
    requires SystemOk(sys) && Addressed(sys, b.shared.artifacts) && LogOk(b)
    requires SavingOk(sys, b, id, mem, app, n, bytes)
    ensures Effects(id, b.shared, BoundaryPlan(id, sys.adapter.resumeMode, mem, n, bytes, Reply(b, available))).Some?
  {
    var reply, mode := Reply(b, available), sys.adapter.resumeMode;
    var mem' := BoundaryMemory(id, mem, n, bytes);
    CheckpointIsTaken(sys, b, id, mem, n, bytes);
    var first, asked := Entries(CheckpointWrites(id, mem, n, bytes)), [Asked(reply)];
    var mid := Effects(id, b.shared, first).value;
    if Newer(mem', reply) {
      var r := ReceiptFor(id, reply.value, Accepted, None, None);
      NewReceiptIsTaken(sys, b, id, mem, r);
    }
    VerdictIsTaken(id, mem', reply, mode, mid);
    EffectsCompose(id, b.shared, first, asked);
    AskedChangesNothing(id, mid, reply);
    EffectsCompose(id, b.shared, first + asked, Entries(Judge(id, mem', reply, mode).writes));
  }

  // ---------------------------------------------------------------------------------------------
  // One undisturbed boundary

  function Repeat(n: nat): seq<Event> {
    seq(n, i => Proceed)
  }

  /** A unit of work, its checkpoint and status, the question, and the writes of the verdict. */
  function BoundaryEvents(update: Option<Progress>, createdAt: int, available: bool, j: nat): seq<Event> {
    [Unit(update, createdAt)] + Repeat(3) + [Ask(available)] + Repeat(j)
  }

  lemma OneEvent(sys: System, events: seq<Event>, e: Event)
    ensures After(sys, events + [e]) == Next(sys, After(sys, events), e)
  {
    assert (events + [e])[..|events|] == events;
  }

  lemma {:induction false} AfterProceeds(sys: System, events: seq<Event>, n: nat)
    ensures After(sys, events + Repeat(n)) == R.Proceeds(After(sys, events), n)
  {
    hide After, Next, Step;
    if n == 0 {
      assert events + Repeat(0) == events;
    } else {
      AfterProceeds(sys, events, n - 1);
      assert events + Repeat(n) == events + Repeat(n - 1) + [Proceed];
      OneEvent(sys, events + Repeat(n - 1), Proceed);
      R.ProceedsAdd(After(sys, events), n - 1, 1);
      var mid := R.Proceeds(After(sys, events), n - 1);
      R.ProceedsOnce(mid);
      T.ProceedIsStep(sys, mid);
    }
  }

  lemma AfterBoundary(
      sys: System, events: seq<Event>, update: Option<Progress>, createdAt: int, available: bool, j: nat)
    ensures var reached := Next(sys, After(sys, events), Unit(update, createdAt));
            After(sys, events + BoundaryEvents(update, createdAt, available, j))
            == R.Proceeds(Next(sys, R.Proceeds(reached, 3), Ask(available)), j)
  {
    hide After, Next, R.Proceeds;
    var unit, ask := Unit(update, createdAt), Ask(available);
    OneEvent(sys, events, unit);
    AfterProceeds(sys, events + [unit], 3);
    OneEvent(sys, events + [unit] + Repeat(3), ask);
    AfterProceeds(sys, events + [unit] + Repeat(3) + [ask], j);
    assert events + BoundaryEvents(update, createdAt, available, j)
        == events + [unit] + Repeat(3) + [ask] + Repeat(j);
  }

  /** The memory and the bundle of the next boundary. */
  function Told(w: Worker, update: Option<Progress>): Memory
    requires w.Working?
  {
    if update.Some? then w.mem.(progress := update) else w.mem
  }

  function NextBundle(sys: System, w: Worker, update: Option<Progress>, createdAt: int): Option<Bytes>
    requires w.Working?
  {
    BoundaryBundle(w.id, sys.adapter, Told(w, update), w.n + 1, sys.app.save(sys.app.step(w.app)), createdAt)
  }

  /** The next boundary can be reached: the progress is the attempt's own and the files can be bundled. */
  predicate CanReach(sys: System, w: Worker, update: Option<Progress>, createdAt: int) {
    w.Working? && ProgressFits(w.id, update) && NextBundle(sys, w, update, createdAt).Some?
  }

  /** The worker that has reached it. */
  function AtNext(sys: System, w: Worker, update: Option<Progress>, createdAt: int): Worker
    requires CanReach(sys, w, update, createdAt)
  {
    Saving(w.id, Told(w, update), sys.app.step(w.app), w.n + 1, NextBundle(sys, w, update, createdAt).value)
  }

  lemma UnitReaches(sys: System, w: Worker, update: Option<Progress>, createdAt: int)
    requires CanReach(sys, w, update, createdAt) && w.id == Id(sys, w.id.attempt, w.id.job)
    ensures Reached(sys, w.id, w.mem, w.app, w.n, update, createdAt) == AtNext(sys, w, update, createdAt)
  {
    R.UnitRefines(sys, w.id, w.mem, w.app, w.n, update, createdAt);
    hide Create, Reached;
  }

  lemma WorkingIsSettled(sys: System, st: State)
    requires Inv(sys, st) && st.worker.Working?
    ensures var w := st.worker;
            Settled(sys, st.base, w.id, w.mem, w.app, w.n) && w.id == Id(sys, w.id.attempt, w.id.job)
    ensures LogOk(st.base)
  {
    hide StoresOk, Position, StatusShows, Receipted;
    assert StoresOk(sys, st.base) ==> LogOk(st.base) by { StoresHaveLog(sys, st.base); }
  }

  lemma StoresHaveLog(sys: System, b: Base)
    ensures StoresOk(sys, b) ==> LogOk(b)
  {
    hide LogOk, ControlsOk, PreparedOk, StatusInv;
  }

  lemma SavingIsOk(sys: System, b: Base, w: Worker)
    requires w.Saving? && WorkerOk(sys, b, w)
    ensures SavingOk(sys, b, w.id, w.mem, w.app, w.n, w.bytes)
  {
    hide SavingOk;
  }

  /** From a working attempt to the bundle of its next boundary. */
  lemma UnitIsSafe(sys: System, st: State, update: Option<Progress>, createdAt: int)
    requires Inv(sys, st) && CanReach(sys, st.worker, update, createdAt)
    ensures var next := AtNext(sys, st.worker, update, createdAt);
            && Next(sys, st, Unit(update, createdAt)) == State(st.base, next)
            && SavingOk(sys, st.base, next.id, next.mem, next.app, next.n, next.bytes) && LogOk(st.base)
  {
    hide SavingOk, Inv, Settled, WorkerOk, LogOk, Reached, NextBundle;
    var w := st.worker;
    WorkingIsSettled(sys, st);
    UnitReaches(sys, w, update, createdAt);
    ReachedOk(sys, st.base, w.id, w.mem, w.app, w.n, update, createdAt);
    SavingIsOk(sys, st.base, AtNext(sys, w, update, createdAt));
  }

  /**
   After any history a working attempt that reaches its next boundary obeys the answer to its question,
   and works on or exits accordingly.
   */
  lemma CommandsAreObeyed(
      sys: System, events: seq<Event>, update: Option<Progress>, createdAt: int, available: bool)
    returns (j: nat, d: Decision, after: Memory)
    requires SystemOk(sys) && CanReach(sys, After(sys, events).worker, update, createdAt)
    ensures var st := After(sys, events);
            var end := After(sys, events + BoundaryEvents(update, createdAt, available, j));
            var w, bytes := st.worker, NextBundle(sys, st.worker, update, createdAt).value;
            && Obeyed(w.id, sys.adapter.resumeMode, Told(w, update), w.n + 1, bytes, Reply(st.base, available),
                      st.base.shared, end.base.shared, d, after)
            && end.worker == if d.shouldExit
                               then Exiting(w.id, after, sys.app.step(w.app), w.n + 1, d)
                               else Working(w.id, after, sys.app.step(w.app), w.n + 1)
  {
    hide After, Inv, NextBundle, Obeyed, SavingOk, Addressed, Next, SystemOk, R.Proceeds, Reply, BoundaryEvents, LogOk;
    var st := After(sys, events);
    assert st.worker.Working?;
    hide CanReach;
    var next := AtNext(sys, st.worker, update, createdAt);
    InvAfter(sys, events);
    ArtifactsAreAddressed(sys, events);
    UnitIsSafe(sys, st, update, createdAt);
    j, d, after := SavedIsObeyed(sys, st.base, next, available);
    AfterBoundary(sys, events, update, createdAt, available, j);
  }

  /** The worker carries a boundary plan that nothing refuses to its end. */
  lemma PlanIsCarriedOut(
      sys: System, b: Base, w: Worker, available: bool, plan: seq<Entry>, v: Verdict, now: Shared)
    requires w.Saving? && Effects(w.id, b.shared, plan) == Some(now)
    requires plan == BoundaryPlan(w.id, sys.adapter.resumeMode, w.mem, w.n, w.bytes, Reply(b, available))
    requires v == Judge(w.id, BoundaryMemory(w.id, w.mem, w.n, w.bytes), Reply(b, available), sys.adapter.resumeMode)
    ensures |plan| >= 3
    ensures R.Proceeds(Next(sys, R.Proceeds(State(b, w), 3), Ask(available)), |plan| - 2).base.shared == now
    ensures R.Proceeds(Next(sys, R.Proceeds(State(b, w), 3), Ask(available)), |plan| - 2).worker
         == Continue(w.id, v.memory, w.app, w.n, GoDecide(v.decision))
  {
    hide Next, Judge, Effects, R.Proceeds, Reply, CheckpointWrites, BoundaryMemory;
    PlanIsLong(w.id, sys.adapter.resumeMode, w.mem, w.n, w.bytes, Reply(b, available));
    hide BoundaryPlan;
    assert plan[..|plan|] == plan;
    R.BoundaryRefines(sys, b, w.id, w.mem, w.app, w.n, w.bytes, available, |plan|, now);
    var asked := Next(sys, R.Proceeds(State(b, w), 3), Ask(available));
    R.ProceedsAdd(asked, |plan| - 3, 1);
    R.ProceedsOnce(R.Proceeds(asked, |plan| - 3));
  }

  lemma PlanIsLong(id: Ident, mode: ResumeMode, mem: Memory, n: nat, bytes: Bytes, reply: Option<Control>)
    ensures |BoundaryPlan(id, mode, mem, n, bytes, reply)| >= 3
  {
    hide Judge, BoundaryMemory;
  }

  /** The rest of the boundary, once its bundle has been made. */
  lemma SavedIsObeyed(sys: System, b: Base, w: Worker, available: bool) returns (j: nat, d: Decision, after: Memory)
    requires SystemOk(sys) && w.Saving? && SavingOk(sys, b, w.id, w.mem, w.app, w.n, w.bytes)
    requires Addressed(sys, b.shared.artifacts) && LogOk(b)
    ensures var end := R.Proceeds(Next(sys, R.Proceeds(State(b, w), 3), Ask(available)), j);
            && Obeyed(w.id, sys.adapter.resumeMode, w.mem, w.n, w.bytes, Reply(b, available),
                      b.shared, end.base.shared, d, after)
            && end.worker == if d.shouldExit
                               then Exiting(w.id, after, w.app, w.n, d)
                               else Working(w.id, after, w.app, w.n)
  {
    hide SystemOk, Next, Judge, Obeyed, Effects, SavingOk, Addressed, LogOk, R.Proceeds, Reply, BoundaryPlan,
         BoundaryMemory;
    var reply, mode := Reply(b, available), sys.adapter.resumeMode;
    var plan := BoundaryPlan(w.id, mode, w.mem, w.n, w.bytes, reply);
    NothingIsRefused(sys, b, w.id, w.mem, w.app, w.n, w.bytes, available);
    var now := Effects(w.id, b.shared, plan).value;
    var v := Judge(w.id, BoundaryMemory(w.id, w.mem, w.n, w.bytes), reply, mode);
    PlanIsCarriedOut(sys, b, w, available, plan, v, now);
    BoundaryPlanObeys(w.id, mode, w.mem, w.n, w.bytes, reply, b.shared, now);
    j, d, after := |plan| - 2, v.decision, v.memory;
  }

  // ---------------------------------------------------------------------------------------------
  // How runs end

  const ENDING: seq<Event> := [Finish, Proceed, Proceed]

  lemma AfterEnding(sys: System, events: seq<Event>)
    ensures After(sys, events + ENDING) == Next(sys, Next(sys, Next(sys, After(sys, events), Finish), Proceed), Proceed)
  {
    hide Next, After;
    OneEvent(sys, events, Finish);
    OneEvent(sys, events + [Finish], Proceed);
    OneEvent(sys, events + [Finish] + [Proceed], Proceed);
    assert events + ENDING == events + [Finish] + [Proceed] + [Proceed];
  }

  /** An attempt that was told to exit ends in its target state; another one is not affected. */
  lemma EndingEnds(sys: System, st: State)
    requires Inv(sys, st) && (st.worker.Exiting? || st.worker.Working?)
    ensures var end := Next(sys, Next(sys, Next(sys, st, Finish), Proceed), Proceed);
            if st.worker.Working? then end == st
            else
              var w := st.worker;
              && end.worker.Down? && end.base.shared.receipts == st.base.shared.receipts
              && end.base.shared.status == Some(StatusOf(w.id, w.mem, w.decision.target))
  {
    var w := st.worker;
    if w.Exiting? {
      assert OwnProgress(w.id, w.mem) by { hide StoresOk, Position, StatusShows, Receipted, MemoryOk; }
      hide Inv;
      T.FinishWritten(sys, st);
      hide Next;
    } else {
      hide Inv;
    }
  }

  /** The newest command is the one in force if the attempt has applied its generation. */
  lemma AppliedIsKnown(sys: System, st: State, available: bool)
    requires Inv(sys, st) && st.worker.Working? && Reply(st.base, available).Some?
    ensures Newer(st.worker.mem, Reply(st.base, available)) || Known(st.worker.mem, Reply(st.base, available))
  {
    var b, w := st.base, st.worker;
    var g := w.mem.generation;
    assert MemoryOk(sys, b, w.id, w.mem) && Receipted(b.log, g, w.mem.action);
    if g == |b.controls| {
      var i :| 0 <= i < |b.log| && b.log[i].generation == g && b.log[i].action == w.mem.action;
      assert ReceiptOk(b, b.log[i]);
    }
  }

  /** The receipt of the attempt for the command. */
  function ReceiptOf(shared: Shared, id: Ident, control: Control): Option<Receipt> {
    var key := ReceiptKey(id.attempt, control.generation);
    if key in shared.receipts then Some(shared.receipts[key]) else None
  }

  /** What is on record once an attempt that was at boundary `n` has finished, or has gone on. */
  ghost predicate Recorded(
      st: State, id: Ident, n: nat, reply: Option<Control>, state: RunState, outcome: Option<Outcome>)
  {
    && st.base.shared.status.Some?
    && var s := st.base.shared.status.value;
       && s.attempt == id.attempt && s.job == id.job && s.boundary == Some(n) && s.checkpoint.Some?
       && s.state == state
       && (outcome.Some? ==>
             && reply.Some? && s.generation == reply.value.generation && s.action == reply.value.action
             && ReceiptOf(st.base.shared, id, reply.value)
                == Some(Receipt(id.attempt, reply.value.generation, reply.value.action, outcome.value,
                                s.boundary, s.checkpoint)))
  }

  /** The end of a boundary `n` that was reached with `mem` and answered with `reply`. */
  ghost predicate EndsAsTold(
      end: State, id: Ident, mem: Memory, n: nat, supported: bool, reply: Option<Control>, was: Shared)
  {
    && (reply.None? ==>
          && end.worker.Down? && Recorded(end, id, n, reply, Paused, None)
          && end.base.shared.receipts == was.receipts)
    && (reply.Some? && reply.value.generation <= mem.generation && mem.action == Run ==>
          && end.worker.Working? && end.worker.n == n && Recorded(end, id, n, reply, Running, None)
          && end.base.shared.receipts == was.receipts)
    && (reply.Some? && reply.value.generation > mem.generation ==>
          match reply.value.action
          case Run =>
            end.worker.Working? && end.worker.n == n && Recorded(end, id, n, reply, Running, Some(Accepted))
          case Pause =>
            && end.worker.Down?
            && if supported
               then Recorded(end, id, n, reply, Paused, Some(Accepted))
               else Recorded(end, id, n, reply, Failed, Some(RejectedUnsupported))
          case Stop => end.worker.Down? && Recorded(end, id, n, reply, Completed, Some(Accepted))
          case Abort => end.worker.Down? && Recorded(end, id, n, reply, Aborted, Some(Accepted)))
  }

  /** From what was decided at the boundary to what is on record at the end. */
  lemma DecidedIsRecorded(
      mid: State, end: State, mode: ResumeMode, id: Ident, app: AppState, mem: Memory, n: nat, bytes: Bytes,
      reply: Option<Control>, was: Shared, d: Decision, after: Memory)
    requires Obeyed(id, mode, mem, n, bytes, reply, was, mid.base.shared, d, after)
    requires mid.worker == if d.shouldExit then Exiting(id, after, app, n, d) else Working(id, after, app, n)
    requires if mid.worker.Working? then end == mid
             else && end.worker.Down? && end.base.shared.receipts == mid.base.shared.receipts
                  && end.base.shared.status == Some(StatusOf(id, after, d.target))
    requires reply.Some? ==> Newer(mem, reply) || Known(mem, reply)
    ensures EndsAsTold(end, id, mem, n, !mode.Unsupported?, reply, was)
  {
    hide GetCheckpoint, RefOf;
  }

  /**
   Every run ends as it was told.  After any history, a working attempt that reaches its next boundary and
   finishes if it is told to exit has recorded exactly what the newest command asks for; without an answer
   it has paused.
   */
  lemma CommandsEnd(sys: System, events: seq<Event>, update: Option<Progress>, createdAt: int, available: bool)
    returns (j: nat)
    requires SystemOk(sys) && CanReach(sys, After(sys, events).worker, update, createdAt)
    ensures var st := After(sys, events);
            EndsAsTold(After(sys, events + BoundaryEvents(update, createdAt, available, j) + ENDING),
                       st.worker.id, st.worker.mem, st.worker.n + 1, !sys.adapter.resumeMode.Unsupported?,
                       Reply(st.base, available), st.base.shared)
  {
    hide After, Inv, Next, NextBundle, BoundaryEvents, Reply, SystemOk, Obeyed, EndsAsTold, ENDING, LogOk;
    var st := After(sys, events);
    var d, after;
    assert st.worker.Working?;
    var w, mem, reply := st.worker, Told(st.worker, update), Reply(st.base, available);
    var bytes := NextBundle(sys, w, update, createdAt).value;
    j, d, after := CommandsAreObeyed(sys, events, update, createdAt, available);
    hide CanReach;
    var longer := events + BoundaryEvents(update, createdAt, available, j);
    InvAfter(sys, events);
    InvAfter(sys, longer);
    AfterEnding(sys, longer);
    EndingEnds(sys, After(sys, longer));
    if reply.Some? { AppliedIsKnown(sys, st, available); }
    DecidedIsRecorded(After(sys, longer), After(sys, longer + ENDING), sys.adapter.resumeMode, w.id,
                      sys.app.step(w.app),
                      mem, w.n + 1, bytes, reply, st.base.shared, d, after);
    SameEnding(After(sys, longer + ENDING), w.id, mem, w.mem, w.n + 1, !sys.adapter.resumeMode.Unsupported?, reply,
               st.base.shared);
  }

  lemma SameEnding(
      end: State, id: Ident, mem: Memory, other: Memory, n: nat, supported: bool, reply: Option<Control>, was: Shared)
    requires mem.generation == other.generation && mem.action == other.action
    requires EndsAsTold(end, id, mem, n, supported, reply, was)
    ensures EndsAsTold(end, id, other, n, supported, reply, was)
  {
  }
}
