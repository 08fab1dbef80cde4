/**
 The worker's controller.  Every request it makes of a store is journalled, so its contracts say not
 only what it writes but in which order it writes it around the reading of control.
 */
module Controller {
  import opened Prelude
  import opened Bundle
  import opened BundleStream
  import opened ControlModel
  import opened ControllerModel

  /** The requests of an attempt, in the order the stores saw them. */
  datatype Entry = Wrote(write: Write) | Asked(reply: Option<Control>)

  function Entries(writes: seq<Write>): seq<Entry> {
    seq(|writes|, i requires 0 <= i < |writes| => Wrote(writes[i]))
  }

  datatype WorkerError =
    | StoreFailed | Rejected | StartRefused(why: StartRefusal) | ControlUnavailable | CannotRestore
    | CannotBundle | NotStarted | NotExiting

  /** The control, status and artifact stores of a run, as one attempt meets them. */
  class Stores {
    const id: Ident
    var shared: Shared
    /** What the next requests for control will return; nothing once the script is used up. */
    var replies: seq<Option<Control>>
    var faults: seq<Fault>
    ghost var journal: seq<Entry>

    constructor (id: Ident, shared: Shared, replies: seq<Option<Control>>, faults: seq<Fault>)
      ensures this.id == id && this.shared == shared && this.replies == replies && this.faults == faults
              && journal == []
    {
      this.id := id;
      this.shared := shared;
      this.replies := replies;
      this.faults := faults;
      journal := [];
    }

    method Write(w: Write) returns (r: Result<(), WorkerError>)
      modifies this`shared, this`faults, this`journal
      ensures r.Ok? ==> Apply(id, old(shared), w) == Some(shared) && journal == old(journal) + [Wrote(w)]
      ensures r.Err? ==> || (shared == old(shared) && journal == old(journal))
                         || (Apply(id, old(shared), w) == Some(shared) && journal == old(journal) + [Wrote(w)])
      ensures faults == if old(faults) == [] then [] else old(faults)[1..]
      ensures old(faults) == [] ==> (r.Ok? <==> Apply(id, old(shared), w).Some?)
      ensures r.Err? ==> r.error == StoreFailed || (r.error == Rejected && Apply(id, old(shared), w).None?)
    {
      var f := Clean;
      if faults != [] {
        f := faults[0];
        faults := faults[1..];
      }
      if f.Refused? { return Err(StoreFailed); }
      var next := Apply(id, shared, w);
      if next.None? { return Err(Rejected); }
      shared := next.value;
      journal := journal + [Wrote(w)];
      r := if f.Applied? then Err(StoreFailed) else Ok(());
    }

    method Fetch() returns (reply: Option<Control>)
      modifies this`replies
      ensures reply == (if old(replies) == [] then None else old(replies)[0])
      ensures replies == if old(replies) == [] then [] else old(replies)[1..]
    {
      reply := None;
      if replies != [] {
        reply := replies[0];
        replies := replies[1..];
      }
    }
  }

  /** The first answer among the next `attempts` requests. */
  function FirstReply(replies: seq<Option<Control>>, attempts: nat): Option<Control> {
    if attempts == 0 || replies == [] then None
    else if replies[0].Some? then replies[0]
    else FirstReply(replies[1..], attempts - 1)
  }

  /** The request that is answered first, or none of the allowed ones. */
  ghost predicate AnsweredFirst(replies: seq<Option<Control>>, attempts: nat, reply: Option<Control>) {
    match reply
    case Some(control) =>
      exists i ::
        && 0 <= i < |replies| && i < attempts && replies[i] == reply
        && (forall j :: 0 <= j < i ==> replies[j].None?)
    case None => forall i :: 0 <= i < |replies| && i < attempts ==> replies[i].None?
  }

  lemma {:induction false} FirstReplyExact(replies: seq<Option<Control>>, attempts: nat)
    ensures AnsweredFirst(replies, attempts, FirstReply(replies, attempts))
  {
    if attempts != 0 && replies != [] && replies[0].None? {
      FirstReplyExact(replies[1..], attempts - 1);
      var reply := FirstReply(replies[1..], attempts - 1);
      if reply.Some? {
        var i :| 0 <= i < |replies[1..]| && i < attempts - 1 && replies[1..][i] == reply
                 && forall j :: 0 <= j < i ==> replies[1..][j].None?;
        assert replies[i + 1] == reply;
        forall j | 0 <= j < i + 1 ensures replies[j].None? {
          if j > 0 { assert replies[j] == replies[1..][j - 1]; }
        }
      } else {
        forall i | 0 <= i < |replies| && i < attempts ensures replies[i].None? {
          if i > 0 { assert replies[i] == replies[1..][i - 1]; }
        }
      }
    }
  }

  /** The stores after a stretch of requests, if none of them was refused. */
  function Effects(id: Ident, shared: Shared, entries: seq<Entry>): Option<Shared> {
    if entries == [] then Some(shared)
    else match Effects(id, shared, entries[..|entries| - 1])
      case None => None
      case Some(s) =>
        var last := entries[|entries| - 1];
        if last.Asked? then Some(s) else Apply(id, s, last.write)
  }

  /** A point in the life of the stores: what they hold and what they have seen. */
  datatype Point = Point(shared: Shared, journal: seq<Entry>)

  /** The plan was carried out up to some request, and to the end if nothing was raised. */
  ghost predicate Ran(id: Ident, plan: seq<Entry>, before: Point, after: Point, completed: bool) {
    exists k :: 0 <= k <= |plan| && RanTo(id, plan, before, after, k) && (completed ==> k == |plan|)
  }

  ghost predicate RanTo(id: Ident, plan: seq<Entry>, before: Point, after: Point, k: nat)
    requires k <= |plan|
  {
    after.journal == before.journal + plan[..k] && Effects(id, before.shared, plan[..k]) == Some(after.shared)
  }

  /** A refused write stops whatever plan it belongs to. */
  lemma {:induction false} RefusalStops(
      id: Ident, shared: Shared, done: seq<Entry>, mid: Shared, next: Entry, rest: seq<Entry>)
    requires Effects(id, shared, done) == Some(mid) && next.Wrote? && Apply(id, mid, next.write) == None
    ensures Effects(id, shared, done + [next] + rest) == None
  {
    var plan := done + [next] + rest;
    if rest == [] {
      assert plan[..|plan| - 1] == done;
    } else {
      RefusalStops(id, shared, done, mid, next, rest[..|rest| - 1]);
      assert plan[..|plan| - 1] == done + [next] + rest[..|rest| - 1];
    }
  }

  lemma CompletedRun(id: Ident, plan: seq<Entry>, before: Point, after: Point)
    requires Ran(id, plan, before, after, true)
    ensures Effects(id, before.shared, plan) == Some(after.shared) && after.journal == before.journal + plan
  {
    assert plan[..|plan|] == plan;
  }

  lemma NothingRan(id: Ident, plan: seq<Entry>, at: Point)
    ensures Ran(id, plan, at, at, plan == [])
  {
    assert RanTo(id, plan, at, at, 0);
  }

  /** One more request after a completed stretch, whether or not it took effect. */
  lemma RanOn(
      id: Ident, done: seq<Entry>, next: Entry, rest: seq<Entry>, before: Point, mid: Point, after: Point,
      completed: bool)
    requires Ran(id, done, before, mid, true)
    requires after == mid || (after.journal == mid.journal + [next]
                              && Some(after.shared) == if next.Asked?
                                                         then Some(mid.shared)
                                                         else Apply(id, mid.shared, next.write))
    requires completed ==> after.journal == mid.journal + [next]
    ensures Ran(id, done + [next] + rest, before, after, completed && rest == [])
    ensures completed ==> Ran(id, done + [next], before, after, true)
  {
    var plan := done + [next] + rest;
    assert RanTo(id, done, before, mid, |done|);
    assert done[..|done|] == done;
    if after == mid {
      assert plan[..|done|] == done;
      assert RanTo(id, plan, before, after, |done|);
      assert !completed;
    } else {
      assert plan[..|done| + 1] == done + [next] && (done + [next])[..|done|] == done;
      assert RanTo(id, plan, before, after, |done| + 1);
      assert (done + [next])[..|done| + 1] == done + [next];
      assert RanTo(id, done + [next], before, after, |done| + 1);
      assert rest == [] ==> plan == done + [next];
    }
  }

  // ---------------------------------------------------------------------------------------------
  // What an attempt sends to the stores

  /** The boundary a start continues from, if it may start at all. */
  ghost function StartBoundary(
      id: Ident, adapter: AdapterSpec, shared: Shared, mem: ControllerModel.Memory, reply: Option<Control>,
      adapterFails: bool)
    : Option<Option<nat>>
  {
    if reply.None? || StartError(mem, reply.value, adapter.resumeMode).Some? then None
    else if reply.value.resumeFrom.None? then Some(None)
    else
      var v := Restorable(id, shared.artifacts, adapter, reply.value.resumeFrom.value);
      if v.None? || adapterFails then None else Some(Some(v.value.manifest.meta.boundary))
  }

  /** Everything a start sends to the stores when it is not refused. */
  ghost function StartPlan(
      id: Ident, mem: ControllerModel.Memory, control: Control, restored: Option<nat>): seq<Entry>
  {
    [Asked(Some(control))] + Entries(StartWrites(id, mem, control, restored))
  }

  /** The bundle of a boundary, made from the adapter's files. */
  function BoundaryBundle(
      id: Ident, adapter: AdapterSpec, mem: ControllerModel.Memory, n: nat, payloads: seq<Payload>,
      createdAt: int): Option<Bytes>
  {
    match Create(id.codec, BundleMeta(id, mem, adapter, n, createdAt), payloads)
    case None => None
    case Some((bytes, _)) => Some(bytes)
  }

  /** Everything a boundary sends to the stores: checkpoint and status first, then the question, then the verdict. */
  ghost function BoundaryPlan(
      id: Ident, mode: ResumeMode, mem: ControllerModel.Memory, n: nat, bytes: Bytes,
      reply: Option<Control>): seq<Entry>
  {
    Entries(CheckpointWrites(id, mem, n, bytes)) + [Asked(reply)]
    + Entries(Judge(id, BoundaryMemory(id, mem, n, bytes), reply, mode).writes)
  }

  lemma EffectsOfOneMore(id: Ident, shared: Shared, done: seq<Entry>, e: Entry)
    ensures Effects(id, shared, done + [e])
         == match Effects(id, shared, done)
            case None => None
            case Some(s) => if e.Asked? then Some(s) else Apply(id, s, e.write)
  {
    assert (done + [e])[..|done|] == done;
  }

  /** Progress that the attempt may show. */
  predicate ProgressFits(id: Ident, progress: Option<Progress>) {
    progress.Some? ==>
      progress.value.attempt == id.attempt && (progress.value.job.Some? ==> progress.value.job == id.job)
  }

  /** No other receipt stands under the key of this one. */
  predicate Free(receipts: map<ReceiptKey, Receipt>, r: Receipt) {
    var key := ReceiptKey(r.attempt, r.generation);
    key in receipts ==> receipts[key] == r
  }

  /** What a start plan carried to its end leaves behind, and when it can be. */
  lemma StartPlanStarts(
      id: Ident, mem: ControllerModel.Memory, control: Control, restored: Option<nat>, was: Shared, now: Shared)
    ensures Effects(id, was, StartPlan(id, mem, control, restored)) == Some(now) ==>
              StartedWith(id, mem, control, restored, was, now)
    ensures Effects(id, was, StartPlan(id, mem, control, restored)).Some? <==>
              && ProgressFits(id, mem.progress)
              && Free(was.receipts, Receipt(id.attempt, control.generation, control.action,
                                            if control.resumeFrom.Some? then Resumed else Started,
                                            restored, control.resumeFrom))
  {
    var plan := StartPlan(id, mem, control, restored);
    assert plan == [] + [plan[0]] + [plan[1]] + [plan[2]];
    EffectsOfOneMore(id, was, [], plan[0]);
    EffectsOfOneMore(id, was, [] + [plan[0]], plan[1]);
    EffectsOfOneMore(id, was, [] + [plan[0]] + [plan[1]], plan[2]);
  }

  /** The effects of at most two writes. */
  lemma EffectsOfWrites(id: Ident, shared: Shared, writes: seq<Write>)
    requires |writes| <= 2
    ensures |writes| == 0 ==> Effects(id, shared, Entries(writes)) == Some(shared)
    ensures |writes| == 1 ==> Effects(id, shared, Entries(writes)) == Apply(id, shared, writes[0])
    ensures |writes| == 2 ==>
              Effects(id, shared, Entries(writes)) == match Apply(id, shared, writes[0])
                                                      case None => None
                                                      case Some(mid) => Apply(id, mid, writes[1])
  {
    hide Apply;
    var plan := Entries(writes);
    if |writes| == 1 {
      assert plan == [] + [plan[0]];
      EffectsOfOneMore(id, shared, [], plan[0]);
    } else if |writes| == 2 {
      assert plan == [] + [plan[0]] + [plan[1]];
      EffectsOfOneMore(id, shared, [], plan[0]);
      EffectsOfOneMore(id, shared, [] + [plan[0]], plan[1]);
    }
  }

  lemma CheckpointStored(id: Ident, mem: ControllerModel.Memory, n: nat, bytes: Bytes, was: Shared, now: Shared)
    requires Effects(id, was, Entries(CheckpointWrites(id, mem, n, bytes))) == Some(now)
    ensures GetCheckpoint(id, now.artifacts, RefOf(id, bytes)).Some? && now.receipts == was.receipts
    ensures now.artifacts == was.artifacts
            || (RefOf(id, bytes).key !in was.artifacts
                && now.artifacts == was.artifacts[RefOf(id, bytes).key := bytes])
    ensures AtBoundary(id, now.status, mem.generation, mem.action, n, bytes, mem.progress)
    ensures now.status.value.state == Running
  {
    EffectsOfWrites(id, was, CheckpointWrites(id, mem, n, bytes));
    hide Effects;
  }

  lemma {:induction false} EffectsCompose(id: Ident, shared: Shared, first: seq<Entry>, second: seq<Entry>)
    requires Effects(id, shared, first).Some?
    ensures Effects(id, shared, first + second) == Effects(id, Effects(id, shared, first).value, second)
  {
    if second == [] {
      assert first + second == first;
    } else {
      var n := |second| - 1;
      EffectsCompose(id, shared, first, second[..n]);
      assert (first + second)[..|first| + n] == first + second[..n];
    }
  }

  lemma {:induction false} EffectsStart(id: Ident, shared: Shared, first: seq<Entry>, second: seq<Entry>)
    requires Effects(id, shared, first + second).Some?
    ensures Effects(id, shared, first).Some?
  {
    if second == [] {
      assert first + second == first;
    } else {
      var n := |second| - 1;
      assert (first + second)[..|first| + n] == first + second[..n];
      EffectsStart(id, shared, first, second[..n]);
    }
  }

  lemma AskedChangesNothing(id: Ident, shared: Shared, reply: Option<Control>)
    ensures Effects(id, shared, [Asked(reply)]) == Some(shared)
  {
    assert [Asked(reply)][..0] == [];
  }

  /** A boundary plan carried to its end does what operators may rely on. */
  lemma BoundaryPlanObeys(
      id: Ident, mode: ResumeMode, mem: ControllerModel.Memory, n: nat, bytes: Bytes, reply: Option<Control>,
      was: Shared, now: Shared)
    requires Effects(id, was, BoundaryPlan(id, mode, mem, n, bytes, reply)) == Some(now)
    ensures var v := Judge(id, BoundaryMemory(id, mem, n, bytes), reply, mode);
            Obeyed(id, mode, mem, n, bytes, reply, was, now, v.decision, v.memory)
  {
    var v := Judge(id, BoundaryMemory(id, mem, n, bytes), reply, mode);
    var first, asked, last := Entries(CheckpointWrites(id, mem, n, bytes)), [Asked(reply)], Entries(v.writes);
    EffectsStart(id, was, first + asked, last);
    EffectsStart(id, was, first, asked);
    EffectsCompose(id, was, first, asked);
    EffectsCompose(id, was, first + asked, last);
    var mid := Effects(id, was, first).value;
    AskedChangesNothing(id, mid, reply);
    CheckpointStored(id, mem, n, bytes, was, mid);
    EffectsOfWrites(id, mid, v.writes);
    hide Effects, GetCheckpoint, BoundaryPlan, RefOf, StatusOk;
    VerdictObeys(id, mode, mem, n, bytes, reply, was, mid, now);
  }

  lemma VerdictObeys(
      id: Ident, mode: ResumeMode, mem: ControllerModel.Memory, n: nat, bytes: Bytes, reply: Option<Control>,
      was: Shared, mid: Shared, now: Shared)
    requires GetCheckpoint(id, mid.artifacts, RefOf(id, bytes)).Some? && mid.receipts == was.receipts
    requires mid.artifacts == was.artifacts
             || (RefOf(id, bytes).key !in was.artifacts
                 && mid.artifacts == was.artifacts[RefOf(id, bytes).key := bytes])
    requires AtBoundary(id, mid.status, mem.generation, mem.action, n, bytes, mem.progress)
    requires mid.status.value.state == Running
    requires var writes := Judge(id, BoundaryMemory(id, mem, n, bytes), reply, mode).writes;
             && (|writes| == 0 ==> now == mid)
             && (|writes| == 1 ==> Apply(id, mid, writes[0]) == Some(now))
             && (|writes| == 2 ==>
                   && Apply(id, mid, writes[0]).Some?
                   && Apply(id, Apply(id, mid, writes[0]).value, writes[1]) == Some(now))
    ensures var v := Judge(id, BoundaryMemory(id, mem, n, bytes), reply, mode);
            Obeyed(id, mode, mem, n, bytes, reply, was, now, v.decision, v.memory)
  {
    hide GetCheckpoint;
  }

  datatype StartResult = StartResult(resumed: bool, generation: nat, checkpoint: Option<Ref>, boundary: Option<nat>,
                                     payloads: map<string, Bytes>)

  class Controller {
    const stores: Stores
    const adapter: AdapterSpec
    const controlAttempts: nat
    const chunkSize: nat
    var generation: nat
    var lastAction: Action
    var boundary: Option<nat>
    var checkpoint: Option<Ref>
    var progress: Option<Progress>
    var started: bool

    constructor (stores: Stores, adapter: AdapterSpec, controlAttempts: nat, chunkSize: nat)
      requires controlAttempts >= 1 && chunkSize >= 1
      ensures Valid() && this.stores == stores && this.adapter == adapter && this.controlAttempts == controlAttempts
      ensures Memory() == Inherit(stores.shared.status) && !started
    {
      this.stores := stores;
      this.adapter := adapter;
      this.controlAttempts := controlAttempts;
      this.chunkSize := chunkSize;
      var previous := stores.shared.status;
      generation := if previous.None? then 0 else previous.value.generation;
      lastAction := if previous.None? then Run else previous.value.action;
      boundary := if previous.None? then None else previous.value.boundary;
      checkpoint := if previous.None? then None else previous.value.checkpoint;
      progress := if previous.None? then None else previous.value.progress;
      started := false;
    }

    ghost predicate Valid() {
      controlAttempts >= 1 && chunkSize >= 1
    }

    function Memory(): Memory
      reads this
    {
      ControllerModel.Memory(generation, lastAction, boundary, checkpoint, progress)
    }

    /** Asks for control until an answer comes or the attempts are used up. */
    method FetchControl() returns (reply: Option<Control>)
      modifies stores`replies, stores`journal
      ensures reply == FirstReply(old(stores.replies), controlAttempts)
      ensures AnsweredFirst(old(stores.replies), controlAttempts, reply)
      ensures stores.journal == old(stores.journal) + [Asked(reply)]
    {
      FirstReplyExact(stores.replies, controlAttempts);
      reply := None;
      var attempt := 0;
      while attempt < controlAttempts && reply.None?
        invariant attempt <= controlAttempts && stores.journal == old(stores.journal)
        invariant FirstReply(old(stores.replies), controlAttempts)
               == if reply.Some? then reply else FirstReply(stores.replies, controlAttempts - attempt)
        decreases controlAttempts - attempt, reply.None?
      {
        reply := stores.Fetch();
        attempt := attempt + 1;
      }
      stores.journal := stores.journal + [Asked(reply)];
    }

    /** One request to a store as the next step of a plan. */
    method Step(w: Write, ghost done: seq<Entry>, ghost rest: seq<Entry>, ghost before: Point)
      returns (r: Result<(), WorkerError>)
      requires Ran(stores.id, done, before, Point(stores.shared, stores.journal), true)
      modifies stores`shared, stores`faults, stores`journal
      ensures Ran(stores.id, done + [Wrote(w)] + rest, before, Point(stores.shared, stores.journal),
                  r.Ok? && rest == [])
      ensures r.Ok? ==> Ran(stores.id, done + [Wrote(w)], before, Point(stores.shared, stores.journal), true)
      ensures old(stores.faults) == [] ==>
                stores.faults == [] && (r.Err? ==> Effects(stores.id, before.shared, done + [Wrote(w)] + rest) == None)
    {
      ghost var mid := Point(stores.shared, stores.journal);
      r := stores.Write(w);
      assert done[..|done|] == done;
      if Apply(stores.id, mid.shared, w) == None {
        RefusalStops(stores.id, before.shared, done, mid.shared, Wrote(w), rest);
      }
      RanOn(stores.id, done, Wrote(w), rest, before, mid, Point(stores.shared, stores.journal), r.Ok?);
    }

    /** The downloaded and verified checkpoint, restored through a matching adapter. */
    method RestoreFrom(reference: Ref, adapterFails: bool) returns (r: Result<Verified, WorkerError>)
      requires Valid()
      ensures r.Ok? ==> Restorable(stores.id, stores.shared.artifacts, adapter, reference) == Some(r.value)
      ensures r.Ok? <==> Restorable(stores.id, stores.shared.artifacts, adapter, reference).Some? && !adapterFails
      ensures r.Err? ==> r.error == CannotRestore
    {
      var bundle := GetCheckpoint(stores.id, stores.shared.artifacts, reference);
      if bundle.None? { return Err(CannotRestore); }
      var root := new Directory();
      var manifest := RestoreBundle(stores.id.codec, bundle.value, stores.id.run, stores.id.plan, adapter, root,
                                    chunkSize);
      if manifest.Err? || adapterFails { return Err(CannotRestore); }
      r := Ok(Verified(manifest.value, root.files));
    }

    /** The receipt is stored before the controller counts the control as applied. */
    method ApplySnapshot(
        control: Control, outcome: Outcome, ghost done: seq<Entry>, ghost rest: seq<Entry>, ghost before: Point)
      returns (r: Result<(), WorkerError>)
      requires Ran(stores.id, done, before, Point(stores.shared, stores.journal), true)
      modifies this`generation, this`lastAction, stores`shared, stores`faults, stores`journal
      ensures var w := WriteReceipt(ReceiptFor(stores.id, control, outcome, boundary, checkpoint));
              && Ran(stores.id, done + [Wrote(w)] + rest, before, Point(stores.shared, stores.journal),
                     r.Ok? && rest == [])
              && (r.Ok? ==> Ran(stores.id, done + [Wrote(w)], before, Point(stores.shared, stores.journal), true))
              && (old(stores.faults) == [] ==>
                    stores.faults == []
                    && (r.Err? ==> Effects(stores.id, before.shared, done + [Wrote(w)] + rest) == None))
      ensures Memory() == if r.Ok? then Adopt(old(Memory()), control) else old(Memory())
    {
      var receipt := Receipt(stores.id.attempt, control.generation, control.action, outcome, boundary, checkpoint);
      r := Step(WriteReceipt(receipt), done, rest, before);
      if r.Ok? {
        generation := control.generation;
        lastAction := control.action;
      }
    }

    method PublishStatus(state: RunState, ghost done: seq<Entry>, ghost rest: seq<Entry>, ghost before: Point)
      returns (r: Result<(), WorkerError>)
      requires Ran(stores.id, done, before, Point(stores.shared, stores.journal), true)
      modifies stores`shared, stores`faults, stores`journal
      ensures var w := WriteStatus(StatusOf(stores.id, Memory(), state));
              && Ran(stores.id, done + [Wrote(w)] + rest, before, Point(stores.shared, stores.journal),
                     r.Ok? && rest == [])
              && (r.Ok? ==> Ran(stores.id, done + [Wrote(w)], before, Point(stores.shared, stores.journal), true))
              && (old(stores.faults) == [] ==>
                    stores.faults == []
                    && (r.Err? ==> Effects(stores.id, before.shared, done + [Wrote(w)] + rest) == None))
    {
      var status := Status(stores.id.attempt, stores.id.job, state, generation, lastAction, boundary, checkpoint,
                           progress);
      r := Step(WriteStatus(status), done, rest, before);
    }

    // -------------------------------------------------------------------------------------------
    // Starting

    /** Why a start may not proceed. */
    function StartFailure(mem: ControllerModel.Memory, reply: Option<Control>): WorkerError {
      if reply.None? then ControlUnavailable
      else match StartError(mem, reply.value, adapter.resumeMode)
        case Some(why) => StartRefused(why)
        case None => CannotRestore
    }

    /**
     Reads control, restores what it asks for, and reports.  A start that may not proceed writes nothing;
     otherwise the receipt is stored before the running status.
     */
    method Start(adapterFails: bool) returns (r: Result<StartResult, WorkerError>)
      requires Valid()
      modifies this, stores
      ensures var reply := FirstReply(old(stores.replies), controlAttempts);
              var from := StartBoundary(stores.id, adapter, old(stores.shared), old(Memory()), reply, adapterFails);
              if from.None? then r == Err(StartFailure(old(Memory()), reply)) && stores.shared == old(stores.shared)
                                 && stores.journal == old(stores.journal) + [Asked(reply)]
              else && Ran(stores.id, StartPlan(stores.id, old(Memory()), reply.value, from.value),
                          Point(old(stores.shared), old(stores.journal)), Point(stores.shared, stores.journal), r.Ok?)
                   && (r.Ok? ==> Memory() == StartMemory(old(Memory()), reply.value, from.value) && started
                                 && r.value.boundary == from.value && r.value.checkpoint == reply.value.resumeFrom)
                   && (r.Ok? && reply.value.resumeFrom.Some? ==>
                         Some(r.value.payloads)
                           == PayloadsOf(Restorable(stores.id, old(stores.shared).artifacts, adapter,
                                                    reply.value.resumeFrom.value)))
                   && (old(stores.faults) == [] ==>
                         (r.Ok? <==> Effects(stores.id, old(stores.shared),
                                             StartPlan(stores.id, old(Memory()), reply.value, from.value)).Some?))
                   && (r.Ok? ==>
                         && StartedWith(
                              stores.id, old(Memory()), reply.value, from.value, old(stores.shared), stores.shared)
                         && generation == reply.value.generation && lastAction == reply.value.action
                         && boundary == from.value && checkpoint == reply.value.resumeFrom
                         && progress == old(progress))
      // Whether it may start does not depend on anything but control, adapter and bucket.
      ensures var reply := FirstReply(old(stores.replies), controlAttempts);
              var may := MayStart(stores.id, adapter, old(stores.shared).artifacts, old(Memory()), reply)
                         && !(reply.value.resumeFrom.Some? && adapterFails);
              && (r.Ok? ==>
                    && may
                    && (if reply.value.resumeFrom.None? then boundary == None
                        else boundary == Some(Restorable(
                               stores.id, old(stores.shared).artifacts, adapter,
                               reply.value.resumeFrom.value).value.manifest.meta.boundary)))
              && (old(stores.faults) == [] && may ==>
                    (r.Ok? <==>
                       && ProgressFits(stores.id, old(progress))
                       && Free(old(stores.shared).receipts,
                               Receipt(stores.id.attempt, reply.value.generation, Run,
                                       if reply.value.resumeFrom.Some? then Resumed else Started,
                                       boundary, reply.value.resumeFrom))))
      ensures var reply := FirstReply(old(stores.replies), controlAttempts);
              && (reply.None? ==> r == Err(ControlUnavailable))
              && (reply.Some? && reply.value.generation <= old(generation) ==> r == Err(StartRefused(StaleGeneration)))
              && (reply.Some? && reply.value.generation > old(generation) && reply.value.action != Run ==>
                    r == Err(StartRefused(NotRun)))
              && (reply.Some? && reply.value.generation > old(generation) && reply.value.action == Run
                  && reply.value.resumeFrom.Some? ==>
                    if adapter.resumeMode == Restart || adapter.resumeMode == Unsupported
                    then r == Err(StartRefused(CannotResume))
                    else adapterFails || Restorable(stores.id, old(stores.shared).artifacts, adapter,
                                                    reply.value.resumeFrom.value).None? ==>
                           r == Err(CannotRestore))
    {
      ghost var before := Point(stores.shared, stores.journal);
      ghost var mem := Memory();
      var reply := FetchControl();
      if reply.None? { return Err(ControlUnavailable); }
      var control := reply.value;
      if control.generation <= generation { return Err(StartRefused(StaleGeneration)); }
      if !control.action.Run? { return Err(StartRefused(NotRun)); }
      var payloads: map<string, Bytes> := map[];
      if control.resumeFrom.Some? {
        if adapter.resumeMode.Restart? || adapter.resumeMode.Unsupported? { return Err(StartRefused(CannotResume)); }
        var restored := RestoreFrom(control.resumeFrom.value, adapterFails);
        if restored.Err? { return Err(restored.error); }
        payloads := restored.value.payloads;
        boundary := Some(restored.value.manifest.meta.boundary);
        checkpoint := control.resumeFrom;
      } else {
        boundary := None;
        checkpoint := None;
      }
      var reported := ReportStart(control, mem, before);
      StartPlanStarts(stores.id, mem, control, boundary, before.shared, stores.shared);
      if reported.Ok? {
        CompletedRun(stores.id, StartPlan(stores.id, mem, control, boundary), before,
                     Point(stores.shared, stores.journal));
      }
      if reported.Err? { return Err(reported.error); }
      started := true;
      r := Ok(StartResult(control.resumeFrom.Some?, control.generation, control.resumeFrom, boundary, payloads));
    }

    method ReportStart(control: Control, ghost mem: ControllerModel.Memory, ghost before: Point)
      returns (r: Result<(), WorkerError>)
      requires Memory() == mem.(boundary := boundary, checkpoint := control.resumeFrom)
      requires stores.shared == before.shared && stores.journal == before.journal + [Asked(Some(control))]
      modifies this`generation, this`lastAction, stores`shared, stores`faults, stores`journal
      ensures Ran(stores.id, StartPlan(stores.id, mem, control, boundary), before, Point(stores.shared, stores.journal),
                  r.Ok?)
      ensures r.Ok? ==> Memory() == StartMemory(mem, control, boundary)
      ensures old(stores.faults) == [] ==>
                (r.Ok? <==> Effects(stores.id, before.shared, StartPlan(stores.id, mem, control, boundary)).Some?)
    {
      ghost var plan := StartPlan(stores.id, mem, control, boundary);
      ghost var asked := [Asked(Some(control))];
      assert plan == asked + [plan[1]] + [plan[2]];
      NothingRan(stores.id, [], before);
      RanOn(stores.id, [], asked[0], [], before, before, Point(stores.shared, stores.journal), true);
      assert [] + asked == asked;
      var _ :- ApplySnapshot(control, if control.resumeFrom.Some? then Resumed else Started, asked, [plan[2]], before);
      assert asked + [plan[1]] + [plan[2]] + [] == plan;
      r := PublishStatus(Running, asked + [plan[1]], [], before);
    }

    // -------------------------------------------------------------------------------------------
    // Boundaries

    /** The progress of a boundary must be this attempt's own. */
    method UpdateProgress(update: Option<Progress>) returns (ok: bool)
      modifies this`progress
      ensures ok <==> ProgressFits(stores.id, update)
      ensures progress == if ok && update.Some? then update else old(progress)
    {
      if update.None? { return true; }
      if update.value.attempt != stores.id.attempt { return false; }
      if update.value.job.Some? && update.value.job != stores.id.job { return false; }
      progress := update;
      ok := true;
    }

    /**
     Saves a checkpoint of the boundary, reports it, reads control, and applies what it read.  The stores
     see exactly the plan, or a beginning of it when a request raises.
     */
    method BoundaryReached(n: nat, payloads: seq<Payload>, createdAt: int, update: Option<Progress>)
      returns (r: Result<Decision, WorkerError>)
      requires Valid()
      modifies this, stores
      ensures var mem := if update.Some? then old(Memory()).(progress := update) else old(Memory());
              var made := BoundaryBundle(stores.id, adapter, mem, n, payloads, createdAt);
              var reply := FirstReply(old(stores.replies), controlAttempts);
              if !old(started) || !ProgressFits(stores.id, update) || made.None?
              then && stores.shared == old(stores.shared) && stores.journal == old(stores.journal)
                   && r == Err(if !old(started) then NotStarted
                               else if !ProgressFits(stores.id, update) then Rejected else CannotBundle)
              else && Ran(stores.id, BoundaryPlan(stores.id, adapter.resumeMode, mem, n, made.value, reply),
                          Point(old(stores.shared), old(stores.journal)), Point(stores.shared, stores.journal), r.Ok?)
                   && (r.Ok? ==>
                         var mem' := BoundaryMemory(stores.id, mem, n, made.value);
                         var v := Judge(stores.id, mem', reply, adapter.resumeMode);
                         r.value == v.decision && Memory() == v.memory)
                   && (old(stores.faults) == [] ==>
                         (r.Ok? <==>
                            Effects(stores.id, old(stores.shared),
                                    BoundaryPlan(stores.id, adapter.resumeMode, mem, n, made.value, reply)).Some?))
                   && (r.Ok? ==>
                         Obeyed(stores.id, adapter.resumeMode, mem, n, made.value, reply,
                                old(stores.shared), stores.shared, r.value, Memory()))
    {
      if !started { return Err(NotStarted); }
      ghost var before := Point(stores.shared, stores.journal);
      var fits := UpdateProgress(update);
      if !fits { return Err(Rejected); }
      ghost var mem := Memory();
      var meta := BundleMeta(stores.id, Memory(), adapter, n, createdAt);
      var bundle := CreateBundle(stores.id.codec, meta, payloads, Contents(payloads), chunkSize);
      if bundle.None? { return Err(CannotBundle); }
      var bytes := bundle.value.0;
      ghost var plan := BoundaryPlan(stores.id, adapter.resumeMode, mem, n, bytes,
                                     FirstReply(stores.replies, controlAttempts));
      r := RunBoundary(n, bytes, mem, before);
      if r.Ok? {
        CompletedRun(stores.id, plan, before, Point(stores.shared, stores.journal));
        BoundaryPlanObeys(stores.id, adapter.resumeMode, mem, n, bytes,
                          FirstReply(old(stores.replies), controlAttempts),
                          before.shared, stores.shared);
      }
    }

    method RunBoundary(n: nat, bytes: Bytes, ghost mem: ControllerModel.Memory, ghost before: Point)
      returns (r: Result<Decision, WorkerError>)
      requires Memory() == mem && before == Point(stores.shared, stores.journal)
      modifies this`boundary, this`checkpoint, this`generation, this`lastAction, stores
      ensures var reply := FirstReply(old(stores.replies), controlAttempts);
              && Ran(stores.id, BoundaryPlan(stores.id, adapter.resumeMode, mem, n, bytes, reply), before,
                     Point(stores.shared, stores.journal), r.Ok?)
              && (r.Ok? ==>
                    var v := Judge(stores.id, BoundaryMemory(stores.id, mem, n, bytes), reply, adapter.resumeMode);
                    r.value == v.decision && Memory() == v.memory)
              && (old(stores.faults) == [] && r.Err? ==>
                    Effects(stores.id, before.shared, BoundaryPlan(stores.id, adapter.resumeMode, mem, n, bytes, reply))
                      == None)
    {
      ghost var expected := FirstReply(stores.replies, controlAttempts);
      ghost var first := Entries(CheckpointWrites(stores.id, mem, n, bytes));
      ghost var last := Entries(Judge(stores.id, BoundaryMemory(stores.id, mem, n, bytes), expected,
                                      adapter.resumeMode).writes);
      assert BoundaryPlan(stores.id, adapter.resumeMode, mem, n, bytes, expected) == first + ([Asked(expected)] + last);
      var _ :- SaveCheckpoint(n, bytes, mem, [Asked(expected)] + last, before);
      ghost var mid := Point(stores.shared, stores.journal);
      var reply := FetchControl();
      RanOn(stores.id, first, Asked(reply), last, before, mid, Point(stores.shared, stores.journal), true);
      r := ApplyReply(reply, first + [Asked(reply)], before);
    }

    /** The checkpoint is stored, and then the status names it. */
    method SaveCheckpoint(
        n: nat, bytes: Bytes, ghost mem: ControllerModel.Memory, ghost rest: seq<Entry>, ghost before: Point)
      returns (r: Result<(), WorkerError>)
      requires Memory() == mem && before == Point(stores.shared, stores.journal) && rest != []
      modifies this`boundary, this`checkpoint, stores`shared, stores`faults, stores`journal
      ensures var writes := Entries(CheckpointWrites(stores.id, mem, n, bytes));
              && (r.Err? ==> Ran(stores.id, writes + rest, before, Point(stores.shared, stores.journal), false))
              && (r.Ok? ==> Ran(stores.id, writes, before, Point(stores.shared, stores.journal), true))
      ensures r.Ok? ==> Memory() == BoundaryMemory(stores.id, mem, n, bytes)
      ensures old(stores.faults) == [] ==>
                stores.faults == []
                && (r.Err? ==> Effects(stores.id, before.shared,
                                       Entries(CheckpointWrites(stores.id, mem, n, bytes)) + rest) == None)
    {
      ghost var writes := Entries(CheckpointWrites(stores.id, mem, n, bytes));
      assert writes == [writes[0]] + [writes[1]];
      NothingRan(stores.id, [], before);
      assert [] + [writes[0]] + ([writes[1]] + rest) == writes + rest;
      var _ :- Step(SaveBundle(bytes), [], [writes[1]] + rest, before);
      boundary := Some(n);
      checkpoint := Some(RefOf(stores.id, bytes));
      assert [] + [writes[0]] == [writes[0]];
      r := PublishStatus(Running, [writes[0]], rest, before);
    }

    /** Pauses when control cannot be trusted, and otherwise does what it asks. */
    method ApplyReply(reply: Option<Control>, ghost done: seq<Entry>, ghost before: Point)
      returns (r: Result<Decision, WorkerError>)
      requires Ran(stores.id, done, before, Point(stores.shared, stores.journal), true)
      modifies this`generation, this`lastAction, stores`shared, stores`faults, stores`journal
      ensures var v := Judge(stores.id, old(Memory()), reply, adapter.resumeMode);
              && Ran(stores.id, done + Entries(v.writes), before, Point(stores.shared, stores.journal), r.Ok?)
              && (r.Ok? ==> r.value == v.decision && Memory() == v.memory)
              && (old(stores.faults) == [] && r.Err? ==>
                    Effects(stores.id, before.shared, done + Entries(v.writes)) == None)
    {
      ghost var writes := Entries(Judge(stores.id, Memory(), reply, adapter.resumeMode).writes);
      if reply.None? || reply.value.generation < generation
         || (reply.value.generation == generation && reply.value.action != lastAction)
      {
        var decision := Decision(Pause, generation, true, 0, Paused);
        assert done + writes == done + [writes[0]] + [];
        var _ :- PublishStatus(Pausing, done, [], before);
        return Ok(decision);
      }
      var control := reply.value;
      if control.generation == generation {
        assert done + writes == done;
        return Ok(DecisionFor(control.action, control.generation, true));
      }
      var rejected := control.action.Pause? && adapter.resumeMode.Unsupported?;
      var decision := DecisionFor(control.action, control.generation, !rejected);
      assert done + writes == done + [writes[0]] + [writes[1]];
      var _ :- ApplySnapshot(control, if rejected then RejectedUnsupported else Accepted, done, [writes[1]], before);
      assert done + writes == done + [writes[0]] + [writes[1]] + [];
      var _ :- PublishStatus(if rejected then Aborting else TransitionState(control.action), done + [writes[0]], [],
                             before);
      r := Ok(decision);
    }

    /** Records the final state of an attempt that was told to exit. */
    method Finish(decision: Decision) returns (r: Result<(), WorkerError>)
      modifies stores`shared, stores`faults, stores`journal
      ensures !decision.shouldExit ==>
                r == Err(NotExiting) && stores.shared == old(stores.shared) && stores.journal == old(stores.journal)
      ensures decision.shouldExit ==>
                Ran(stores.id, [Wrote(WriteStatus(StatusOf(stores.id, Memory(), decision.target)))],
                    Point(old(stores.shared), old(stores.journal)), Point(stores.shared, stores.journal), r.Ok?)
      ensures r.Ok? ==>
                stores.shared == old(stores.shared).(status := Some(Status(
                  stores.id.attempt, stores.id.job, decision.target, generation, lastAction, boundary, checkpoint,
                  progress)))
      ensures decision.shouldExit && old(stores.faults) == [] ==>
                (r.Ok? <==> ProgressFits(stores.id, progress))
    {
      if !decision.shouldExit { return Err(NotExiting); }
      ghost var before := Point(stores.shared, stores.journal);
      NothingRan(stores.id, [], before);
      ghost var plan := [Wrote(WriteStatus(StatusOf(stores.id, Memory(), decision.target)))];
      assert [] + plan + [] == plan;
      r := PublishStatus(decision.target, [], [], before);
    }
  }

  ghost function PayloadsOf(v: Option<Verified>): Option<map<string, Bytes>> {
    if v.None? then None else Some(v.value.payloads)
  }
}
