/**
 The worker of the system model does to the stores what the controller class does: wherever a start or a
 boundary of the one is raised, the other reaches the same stores, and dies there.
 */
module RunRefinement {
  import opened Prelude
  import opened Bundle
  import opened ControlModel
  import opened ControllerModel
  import opened Controller
  import opened RunSystem

  /** The worker makes k steps and nothing else happens. */
  function Proceeds(st: State, k: nat): State
    decreases k
  {
    if k == 0 then st else Proceeds(Step(st.base, st.worker), k - 1)
  }

  lemma OneWrite(id: Ident, shared: Shared, w: Write)
    ensures Effects(id, shared, [Wrote(w)]) == Apply(id, shared, w)
  {
    assert [Wrote(w)][..0] == [];
  }

  /** One step of the worker. */
  function Once(st: State): State {
    Step(st.base, st.worker)
  }

  /** Writing the first k writes of a list one step at a time has the effects of these writes. */
  lemma {:induction false} WritesRun(
      b: Base, id: Ident, mem: Memory, app: AppState, n: nat, todo: seq<Write>, afterwards: Then, k: nat, mid: Shared)
    requires k <= |todo| && Effects(id, b.shared, Entries(todo)[..k]) == Some(mid)
    ensures var at := Proceeds(State(b, Writing(id, mem, app, n, todo, afterwards)), k);
            && at.worker == Writing(id, mem, app, n, todo[k..], afterwards) && at.base.shared == mid
            && at.base.controls == b.controls
    decreases k
  {
    if k > 0 {
      var first, rest := [Wrote(todo[0])], Entries(todo[1..])[..k - 1];
      assert Entries(todo)[..k] == first + rest;
      EffectsStart(id, b.shared, first, rest);
      EffectsCompose(id, b.shared, first, rest);
      OneWrite(id, b.shared, todo[0]);
      var next := Step(b, Writing(id, mem, app, n, todo, afterwards));
      WritesRun(next.base, id, mem, app, n, todo[1..], afterwards, k - 1, mid);
      assert todo[1..][k - 1..] == todo[k..];
    }
  }

  lemma {:induction false} ProceedsAdd(st: State, k: nat, more: nat)
    ensures Proceeds(st, k + more) == Proceeds(Proceeds(st, k), more)
    decreases k
  {
    if k > 0 { ProceedsAdd(Once(st), k - 1, more); }
  }

  lemma ProceedsOnce(st: State)
    ensures Proceeds(st, 1) == Once(st)
  {
    assert Proceeds(st, 1) == Proceeds(Once(st), 0);
  }

  /**
   Where the worker stands after a beginning of its plan: the stores are as the plan leaves them; at the
   end of the plan it goes on, and if the next write is refused it is down with the stores as they are.
   */
  ghost predicate StandsAt(id: Ident, at: State, plan: seq<Entry>, k: nat, mid: Shared, onward: Worker)
    requires k <= |plan|
  {
    && at.base.shared == mid
    && (k == |plan| ==> Once(at) == State(at.base, onward))
    && (k < |plan| && plan[k].Wrote? && Apply(id, mid, plan[k].write) == None ==> Once(at) == State(at.base, Down))
  }

  // ---------------------------------------------------------------------------------------------
  // Starting

  /** A start is refused by the one exactly when it is by the other, and otherwise begins where it restored. */
  lemma FetchRefines(sys: System, b: Base, id: Ident, mem: Memory, available: bool, adapterFails: bool)
    ensures var reply := Reply(b, available);
            var from := StartBoundary(id, sys.adapter, b.shared, mem, reply, adapterFails);
            var w := AfterFetch(sys, b, id, mem, reply, adapterFails);
            && (from.None? <==> w.Down?)
            && (from.Some? ==>
                  && w.Writing? && w.id == id && w.mem == StartMemory(mem, reply.value, from.value)
                  && w.todo == StartWrites(id, mem, reply.value, from.value) && w.afterwards == GoWork
                  && w.n == (if from.value.None? then 0 else from.value.value)
                  && (if reply.value.resumeFrom.None? then w.app == sys.app.init
                      else Some(w.app)
                             == AdapterState(sys, Restorable(id, b.shared.artifacts, sys.adapter,
                                                             reply.value.resumeFrom.value))))
  {
  }

  ghost function AdapterState(sys: System, v: Option<Verified>): Option<AppState> {
    if v.None? then None else Some(sys.app.restore(v.value.payloads))
  }

  /** The worker after the first k requests of a start; the first is the question it asked before. */
  function StartAt(
      b: Base, id: Ident, mem: Memory, control: Control, restored: Option<nat>, app: AppState, n: nat, k: nat): State
  {
    Proceeds(State(b, Writing(id, StartMemory(mem, control, restored), app, n, StartWrites(id, mem, control, restored),
                              GoWork)),
             if k == 0 then 0 else k - 1)
  }

  /** Wherever the controller's start stops, the worker comes to the same stores. */
  lemma StartRefines(
      b: Base, id: Ident, mem: Memory, control: Control, restored: Option<nat>, app: AppState, n: nat, k: nat,
      mid: Shared)
    requires k <= |StartPlan(id, mem, control, restored)|
    requires Effects(id, b.shared, StartPlan(id, mem, control, restored)[..k]) == Some(mid)
    ensures StandsAt(id, StartAt(b, id, mem, control, restored, app, n, k), StartPlan(id, mem, control, restored), k,
                     mid,
                     Working(id, StartMemory(mem, control, restored), app, n))
  {
    var asked, writes := [Asked(Some(control))], StartWrites(id, mem, control, restored);
    var plan := StartPlan(id, mem, control, restored);
    if k > 0 {
      assert plan[..k] == asked + Entries(writes)[..k - 1];
      AskedChangesNothing(id, b.shared, Some(control));
      EffectsCompose(id, b.shared, asked, Entries(writes)[..k - 1]);
      WritesRun(b, id, StartMemory(mem, control, restored), app, n, writes, GoWork, k - 1, mid);
    } else {
      assert plan[..0] == [];
    }
  }

  // ---------------------------------------------------------------------------------------------
  // Boundaries

  /** A boundary that does not fit or cannot be bundled is refused by both; otherwise both save the same bundle. */
  lemma UnitRefines(
      sys: System, id: Ident, mem: Memory, app: AppState, n: nat, update: Option<Progress>, createdAt: int)
    requires id == Id(sys, id.attempt, id.job)
    ensures var mem' := if update.Some? then mem.(progress := update) else mem;
            var made := BoundaryBundle(id, sys.adapter, mem', n + 1, sys.app.save(sys.app.step(app)), createdAt);
            Reached(sys, id, mem, app, n, update, createdAt)
            == if !ProgressFits(id, update) || made.None?
                 then Down
                 else Saving(id, mem', sys.app.step(app), n + 1, made.value)
  {
  }

  /** The worker after the first k requests of a boundary, the third of which is the question. */
  ghost function BoundaryAt(
      sys: System, b: Base, id: Ident, mem: Memory, app: AppState, n: nat, bytes: Bytes, available: bool, k: nat): State
  {
    var saving := State(b, Saving(id, mem, app, n, bytes));
    if k <= 2 then Proceeds(saving, k) else Proceeds(Next(sys, Proceeds(saving, 3), Ask(available)), k - 3)
  }

  /**
   Wherever the controller's boundary stops, the worker comes to the same stores; at its end it continues
   or exits as the verdict decides.
   */
  lemma BoundaryRefines(
      sys: System, b: Base, id: Ident, mem: Memory, app: AppState, n: nat, bytes: Bytes, available: bool, k: nat,
      mid: Shared)
    requires var plan := BoundaryPlan(id, sys.adapter.resumeMode, mem, n, bytes, Reply(b, available));
             k <= |plan| && Effects(id, b.shared, plan[..k]) == Some(mid)
    ensures var v := Judge(id, BoundaryMemory(id, mem, n, bytes), Reply(b, available), sys.adapter.resumeMode);
            StandsAt(id, BoundaryAt(sys, b, id, mem, app, n, bytes, available, k),
                     BoundaryPlan(id, sys.adapter.resumeMode, mem, n, bytes, Reply(b, available)), k, mid,
                     Continue(id, v.memory, app, n, GoDecide(v.decision)))
  {
    var reply := Reply(b, available);
    var plan := BoundaryPlan(id, sys.adapter.resumeMode, mem, n, bytes, reply);
    if k <= 2 {
      assert plan[..k] == Entries(CheckpointWrites(id, mem, n, bytes))[..k];
      CheckpointRuns(b, id, mem, app, n, bytes, k, mid);
    } else {
      AnswerRuns(sys, b, id, mem, app, n, bytes, available, k, mid);
      hide Judge, Effects, Proceeds, BoundaryAt;
    }
  }

  /** The part of a boundary after the question. */
  lemma AnswerRuns(
      sys: System, b: Base, id: Ident, mem: Memory, app: AppState, n: nat, bytes: Bytes, available: bool, k: nat,
      mid: Shared)
    requires var plan := BoundaryPlan(id, sys.adapter.resumeMode, mem, n, bytes, Reply(b, available));
             3 <= k <= |plan| && Effects(id, b.shared, plan[..k]) == Some(mid)
    ensures var v := Judge(id, BoundaryMemory(id, mem, n, bytes), Reply(b, available), sys.adapter.resumeMode);
            var at := BoundaryAt(sys, b, id, mem, app, n, bytes, available, k);
            && at.base.shared == mid
            && at.worker == Writing(id, v.memory, app, n, v.writes[k - 3..], GoDecide(v.decision))
  {
    hide Judge, Effects;
    var reply := Reply(b, available);
    var v := Judge(id, BoundaryMemory(id, mem, n, bytes), reply, sys.adapter.resumeMode);
    var plan := BoundaryPlan(id, sys.adapter.resumeMode, mem, n, bytes, reply);
    var first, asked := Entries(CheckpointWrites(id, mem, n, bytes)), [Asked(reply)];
    var rest := Entries(v.writes)[..k - 3];
    assert plan[..k] == first + asked + rest;
    assert first[..2] == first;
    EffectsStart(id, b.shared, first + asked, rest);
    EffectsStart(id, b.shared, first, asked);
    EffectsCompose(id, b.shared, first, asked);
    EffectsCompose(id, b.shared, first + asked, rest);
    var saved := Effects(id, b.shared, first).value;
    AskedChangesNothing(id, saved, reply);
    CheckpointRuns(b, id, mem, app, n, bytes, 2, saved);
    var asking := Proceeds(State(b, Saving(id, mem, app, n, bytes)), 3);
    ProceedsAdd(State(b, Saving(id, mem, app, n, bytes)), 2, 1);
    WritesRun(asking.base, id, v.memory, app, n, v.writes, GoDecide(v.decision), k - 3, mid);
  }

  lemma CheckpointRuns(b: Base, id: Ident, mem: Memory, app: AppState, n: nat, bytes: Bytes, k: nat, mid: Shared)
    requires k <= 2 && Effects(id, b.shared, Entries(CheckpointWrites(id, mem, n, bytes))[..k]) == Some(mid)
    ensures var at := Proceeds(State(b, Saving(id, mem, app, n, bytes)), k);
            && at.base.shared == mid && at.base.controls == b.controls
            && (k < 2 && Apply(id, mid, CheckpointWrites(id, mem, n, bytes)[k]) == None ==>
                  Once(at) == State(at.base, Down))
            && (k == 2 ==>
                  Once(at).worker == Asking(id, BoundaryMemory(id, mem, n, bytes), app, n) && Once(at).base == at.base)
  {
    var writes := CheckpointWrites(id, mem, n, bytes);
    if k > 0 {
      var first, rest := [Wrote(writes[0])], Entries(writes[1..])[..k - 1];
      assert Entries(writes)[..k] == first + rest;
      EffectsStart(id, b.shared, first, rest);
      EffectsCompose(id, b.shared, first, rest);
      OneWrite(id, b.shared, writes[0]);
      var next := Step(b, Saving(id, mem, app, n, bytes));
      WritesRun(next.base, id, BoundaryMemory(id, mem, n, bytes), app, n, writes[1..], GoAsk, k - 1, mid);
    }
  }

  /** Whatever a boundary of the controller class leaves in the stores, raised or not, the system model reaches. */
  lemma BoundaryRunRefines(
      sys: System, b: Base, id: Ident, mem: Memory, app: AppState, n: nat, bytes: Bytes, available: bool,
      before: Point, after: Point, completed: bool) returns (k: nat)
    requires before.shared == b.shared
    requires Ran(id, BoundaryPlan(id, sys.adapter.resumeMode, mem, n, bytes, Reply(b, available)), before, after,
                 completed)
    ensures var plan := BoundaryPlan(id, sys.adapter.resumeMode, mem, n, bytes, Reply(b, available));
            && k <= |plan| && (completed ==> k == |plan|)
            && after.journal == before.journal + plan[..k]
            && BoundaryAt(sys, b, id, mem, app, n, bytes, available, k).base.shared == after.shared
  {
    var plan := BoundaryPlan(id, sys.adapter.resumeMode, mem, n, bytes, Reply(b, available));
    k :| k <= |plan| && RanTo(id, plan, before, after, k) && (completed ==> k == |plan|);
    BoundaryRefines(sys, b, id, mem, app, n, bytes, available, k, after.shared);
  }
}
