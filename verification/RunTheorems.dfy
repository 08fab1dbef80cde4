/** What a controlled run guarantees over every history of commands, outages, crashes and attempts. */
module RunTheorems {
  import opened Prelude
  import opened Bundle
  import opened BundleStream
  import opened ControlModel
  import opened ControllerModel
  import opened RunSystem
  import opened RunSafety

  // ---------------------------------------------------------------------------------------------
  // Receipts

  /**
   Receipts never go back and strictly advance within an attempt; each carries the action published for
   its generation; and a generation shown in the status already has its receipt.
   */
  lemma ReceiptsFollowControl(sys: System, events: seq<Event>)
    requires SystemOk(sys)
    ensures var b := After(sys, events).base;
            && Ordered(b.log)
            && (forall i :: 0 <= i < |b.log| ==>
                  1 <= b.log[i].generation <= |b.controls|
                  && b.log[i].action == b.controls[b.log[i].generation - 1].action)
            && (b.shared.status.Some? ==>
                  Receipted(b.log, b.shared.status.value.generation, b.shared.status.value.action))
  {
    InvAfter(sys, events);
    var b := After(sys, events).base;
    forall i | 0 <= i < |b.log|
      ensures 1 <= b.log[i].generation <= |b.controls| && b.log[i].action == b.controls[b.log[i].generation - 1].action
    {
      assert ReceiptOk(b, b.log[i]);
    }
  }

  // ---------------------------------------------------------------------------------------------
  // Exact resume

  predicate Live(w: Worker) {
    !w.Down? && !w.Loaded?
  }

  /** Wherever attempts were paused, killed and resumed, the application is in the uninterrupted run's state. */
  lemma ExactResume(sys: System, events: seq<Event>)
    requires SystemOk(sys) && Live(After(sys, events).worker)
    ensures After(sys, events).worker.app == Iter(sys.app, After(sys, events).worker.n)
  {
    InvAfter(sys, events);
  }

  /**
   The checkpoint in the status ends one linked list of bundles, of boundaries 1 to its own, saved from
   those states.
   */
  lemma StatusLineage(sys: System, events: seq<Event>) returns (chain: seq<Ref>)
    requires SystemOk(sys)
    requires After(sys, events).base.shared.status.Some? && After(sys, events).base.shared.status.value.checkpoint.Some?
    ensures var s := After(sys, events).base.shared.status.value;
            && s.boundary == Some(|chain|) && |chain| >= 1 && chain[|chain| - 1] == s.checkpoint.value
            && Lineage(sys, After(sys, events).base.shared.artifacts, chain)
  {
    InvAfter(sys, events);
    var shared := After(sys, events).base.shared;
    var s := shared.status.value;
    chain :| Lineage(sys, shared.artifacts, chain) && |chain| == s.boundary.value >= 1
    && chain[|chain| - 1] == s.checkpoint.value;
  }

  /** An attempt that was told to exit has shown this very boundary and a checkpoint of it that is in the bucket. */
  lemma ExitNamesCheckpoint(sys: System, events: seq<Event>)
    requires SystemOk(sys) && After(sys, events).worker.Exiting?
    ensures var b, w := After(sys, events).base, After(sys, events).worker;
            && b.shared.status.Some? && b.shared.status.value.attempt == w.id.attempt
            && b.shared.status.value.boundary == Some(w.n) && w.n >= 1
            && b.shared.status.value.checkpoint.Some?
            && Ends(sys, b.shared.artifacts, b.shared.status.value.checkpoint.value, w.n)
            && GetCheckpoint(w.id, b.shared.artifacts, b.shared.status.value.checkpoint.value).Some?
  {
    InvAfter(sys, events);
    var b, w := After(sys, events).base, After(sys, events).worker;
    EndsIsStored(sys, b.shared.artifacts, w.id, w.mem.checkpoint.value, w.n);
  }

  lemma EndsIsStored(sys: System, artifacts: map<string, Bytes>, id: Ident, r: Ref, n: nat)
    requires Ends(sys, artifacts, r, n) && id == Id(sys, id.attempt, id.job)
    ensures n >= 1 && GetCheckpoint(id, artifacts, r).Some?
    ensures exists previous :: IsBundle(sys, GetCheckpoint(id, artifacts, r).value, n, previous)
  {
    var chain: seq<Ref> :| Lineage(sys, artifacts, chain) && |chain| == n >= 1 && chain[n - 1] == r;
    assert Link(sys, artifacts, chain, n - 1);
  }

  // ---------------------------------------------------------------------------------------------
  // Starting again

  /** A new attempt that is launched, reads control, and makes its two writes undisturbed. */
  ghost function StartOf(sys: System, st: State, attempt: string, job: Option<string>): State {
    var fetched := Next(sys, Next(sys, st, Launch(attempt, job)), FetchStart(true, false));
    Next(sys, Next(sys, Next(sys, fetched, Proceed), Proceed), Proceed)
  }

  /** Control asks for a run newer than the status, from a checkpoint that can be restored. */
  ghost predicate StartRequested(sys: System, b: Base, attempt: string, job: Option<string>) {
    && b.controls != []
    && MayStart(Id(sys, attempt, job), sys.adapter, b.shared.artifacts, Inherit(b.shared.status),
                Some(b.controls[|b.controls| - 1]))
  }

  /** How much work is already done where a start from this checkpoint begins. */
  ghost function StartPoint(sys: System, artifacts: map<string, Bytes>, id: Ident, from: Option<Ref>): nat {
    match from
    case None => 0
    case Some(r) =>
      match Restorable(id, artifacts, sys.adapter, r)
      case None => 0
      case Some(v) => v.manifest.meta.boundary
  }

  function LastResume(b: Base): Option<Ref> {
    if b.controls == [] then None else b.controls[|b.controls| - 1].resumeFrom
  }

  /** The boundary of the status, or the beginning for an adapter that can only restart. */
  ghost function ResumePoint(shared: Shared, from: Option<Ref>): nat {
    if from.None? || shared.status.None? || shared.status.value.boundary.None?
      then 0
      else shared.status.value.boundary.value
  }

  predicate CarriesProgress(shared: Shared) {
    shared.status.Some? && shared.status.value.progress.Some?
  }

  /** A requested start prepares its two writes. */
  ghost predicate StartPrepared(sys: System, b: Base, id: Ident, w: Worker) {
    && w.Writing? && w.id == id && |w.todo| == 2 && w.afterwards.GoWork?
    && w.todo[0].WriteReceipt? && w.todo[1] == WriteStatus(StatusOf(w.id, w.mem, Running))
    && w.mem.progress == Inherit(b.shared.status).progress
    && w.n == StartPoint(sys, b.shared.artifacts, w.id, LastResume(b))
  }

  lemma RequestedFetch(sys: System, b: Base, id: Ident)
    requires id == Id(sys, id.attempt, id.job) && StartRequested(sys, b, id.attempt, id.job)
    ensures StartPrepared(sys, b, id, AfterFetch(sys, b, id, Inherit(b.shared.status), Reply(b, true), false))
  {
    hide Restorable;
  }

  lemma FetchedWrites(sys: System, st: State, attempt: string, job: Option<string>)
    requires st.worker.Down? && attempt !in st.base.used && StartRequested(sys, st.base, attempt, job)
    ensures var fetched := Next(sys, Next(sys, st, Launch(attempt, job)), FetchStart(true, false));
            && fetched.base == st.base.(used := st.base.used + {attempt})
            && StartPrepared(sys, st.base, Id(sys, attempt, job), fetched.worker)
  {
    RequestedFetch(sys, st.base, Id(sys, attempt, job));
    SameFetch(sys, st.base, st.base.(used := st.base.used + {attempt}), Id(sys, attempt, job));
    hide StartPrepared, AfterFetch, StartRequested;
  }

  /** What a start does depends on the control and the bucket, not on which attempts there were. */
  lemma SameFetch(sys: System, b: Base, b': Base, id: Ident)
    requires b'.controls == b.controls && b'.shared == b.shared
    ensures AfterFetch(sys, b', id, Inherit(b.shared.status), Reply(b', true), false)
         == AfterFetch(sys, b, id, Inherit(b.shared.status), Reply(b, true), false)
  {
    hide Restorable;
  }

  lemma ProceedIsStep(sys: System, st: State)
    ensures Next(sys, st, Proceed) == Step(st.base, st.worker)
  {
  }

  lemma ReceiptWritten(b: Base, w: Worker)
    requires w.Writing? && |w.todo| == 2 && w.todo[0].WriteReceipt? && KeyFor(w.todo[0].receipt) !in b.shared.receipts
    ensures Step(b, w).worker == Writing(w.id, w.mem, w.app, w.n, [w.todo[1]], w.afterwards)
  {
    assert w.todo[1..] == [w.todo[1]];
  }

  lemma StatusWritten(sys: System, st: State, s: Status)
    requires st.worker.Writing? && st.worker.todo == [WriteStatus(s)] && st.worker.afterwards.GoWork?
    ensures Next(sys, Next(sys, st, Proceed), Proceed).worker
         == if StatusOk(s) then Working(st.worker.id, st.worker.mem, st.worker.app, st.worker.n) else Down
  {
    assert st.worker.todo[1..] == [];
    ProceedIsStep(sys, st);
    ProceedIsStep(sys, Step(st.base, st.worker));
    hide Next;
  }

  /**
   The two writes of a start: the receipt always succeeds, the status unless it carries another
   attempt's progress.
   */
  lemma TwoWrites(sys: System, st: State)
    requires Inv(sys, st) && st.worker.Writing? && |st.worker.todo| == 2 && st.worker.afterwards.GoWork?
    requires st.worker.todo[1].WriteStatus?
    ensures Next(sys, Next(sys, Next(sys, st, Proceed), Proceed), Proceed).worker
         == if StatusOk(st.worker.todo[1].status)
              then Working(st.worker.id, st.worker.mem, st.worker.app, st.worker.n)
              else Down
  {
    var w := st.worker;
    assert Pending(st.base, w.id, w.mem, w.todo[0].receipt);
    ReceiptIsNew(st.base, w.id, w.mem, w.todo[0].receipt);
    hide Inv, Pending, Next, Step;
    ReceiptWritten(st.base, w);
    ProceedIsStep(sys, st);
    StatusWritten(sys, Next(sys, st, Proceed), w.todo[1].status);
  }

  /** A start that is not requested ends the attempt before it writes anything. */
  lemma UnrequestedEnds(sys: System, st: State, attempt: string, job: Option<string>)
    requires st.worker.Down? && attempt !in st.base.used && !StartRequested(sys, st.base, attempt, job)
    ensures Next(sys, Next(sys, st, Launch(attempt, job)), FetchStart(true, false)).worker.Down?
  {
  }

  lemma DownStays(sys: System, st: State)
    requires st.worker.Down?
    ensures Next(sys, Next(sys, Next(sys, st, Proceed), Proceed), Proceed) == st
  {
  }

  /** The inherited progress is another attempt's, so it fits only if there is none. */
  lemma InheritedProgressFits(sys: System, b: Base, id: Ident, mem: Memory)
    requires StatusInv(sys, b) && id.attempt !in b.used && mem.progress == Inherit(b.shared.status).progress
    ensures StatusOk(StatusOf(id, mem, Running)) <==> !CarriesProgress(b.shared)
  {
  }

  lemma StartOutcome(sys: System, st: State, attempt: string, job: Option<string>)
    requires SystemOk(sys) && Inv(sys, st) && st.worker.Down? && attempt !in st.base.used
    ensures StartOf(sys, st, attempt, job).worker.Working?
            <==> StartRequested(sys, st.base, attempt, job) && !CarriesProgress(st.base.shared)
    ensures StartOf(sys, st, attempt, job).worker.Working? ==>
              StartOf(sys, st, attempt, job).worker.n
                == StartPoint(sys, st.base.shared.artifacts, Id(sys, attempt, job), LastResume(st.base))
  {
    var launched := Next(sys, st, Launch(attempt, job));
    var fetched := Next(sys, launched, FetchStart(true, false));
    if StartRequested(sys, st.base, attempt, job) {
      FetchedWrites(sys, st, attempt, job);
      StepKeepsInv(sys, st, Launch(attempt, job));
      StepKeepsInv(sys, launched, FetchStart(true, false));
      TwoWrites(sys, fetched);
      InheritedProgressFits(sys, st.base, fetched.worker.id, fetched.worker.mem);
    } else {
      UnrequestedEnds(sys, st, attempt, job);
      DownStays(sys, fetched);
    }
  }

  /**
   When a start succeeds.  Besides what control and the bucket must say, the last status must not carry
   progress: a new controller inherits it, and no status of another attempt may show it.
   */
  lemma StartSucceedsIff(sys: System, events: seq<Event>, attempt: string, job: Option<string>)
    requires SystemOk(sys) && After(sys, events).worker.Down? && attempt !in After(sys, events).base.used
    ensures StartOf(sys, After(sys, events), attempt, job).worker.Working?
            <==>
              && StartRequested(sys, After(sys, events).base, attempt, job)
              && !CarriesProgress(After(sys, events).base.shared)
  {
    InvAfter(sys, events);
    StartOutcome(sys, After(sys, events), attempt, job);
  }

  /** A start never shows a paused run. */
  ghost predicate OnlyStarts(w: Worker) {
    w.Writing? && w.afterwards.GoWork? ==>
      forall i :: 0 <= i < |w.todo| && w.todo[i].WriteStatus? ==> w.todo[i].status.state == Running
  }

  ghost predicate PausedOk(st: State) {
    && OnlyStarts(st.worker)
    && (st.base.shared.status.Some? && st.base.shared.status.value.state == Paused ==>
          st.base.shared.status.value.checkpoint.Some?)
  }

  lemma StepKeepsPaused(sys: System, st: State)
    requires Inv(sys, st) && PausedOk(st)
    ensures PausedOk(Step(st.base, st.worker))
  {
    hide Position, IsBundle, LogOk, ControlsOk, PreparedOk, StatusInv, Placed, MemoryOk, Pending, Receipted;
    var w := st.worker;
    if w.Writing? && w.todo != [] {
      assert w.todo[0].WriteReceipt? || StatusWrite(w.id, w.mem, w.todo[0]);
    }
  }

  lemma NextKeepsPaused(sys: System, st: State, e: Event)
    requires Inv(sys, st) && PausedOk(st)
    ensures PausedOk(Next(sys, st, e))
  {
    if e.Proceed? {
      StepKeepsPaused(sys, st);
      ProceedIsStep(sys, st);
      hide Inv, Next, PausedOk;
    } else {
      hide Inv, Step, Judge, ResumeFrom, Restorable;
    }
  }

  /** A paused status names a checkpoint. */
  lemma {:induction false} PausedNamesCheckpoint(sys: System, events: seq<Event>)
    requires SystemOk(sys)
    ensures PausedOk(After(sys, events))
  {
    if events != [] {
      PausedNamesCheckpoint(sys, events[..|events| - 1]);
      InvAfter(sys, events[..|events| - 1]);
      hide Inv, Next, PausedOk;
      NextKeepsPaused(sys, After(sys, events[..|events| - 1]), events[|events| - 1]);
    }
  }

  /**
   When an operator's resume succeeds: after every history exactly when the run is paused by an adapter
   that supports it and its last bundle can be read back.  It asks for that bundle, or, if the adapter
   can only restart, for none.
   */
  lemma ResumeSucceedsIff(sys: System, events: seq<Event>)
    requires SystemOk(sys)
    ensures var shared := After(sys, events).base.shared;
            var paused := shared.status.Some? && shared.status.value.state == Paused;
            && (paused ==>
                  && shared.status.value.checkpoint.Some?
                  && GetCheckpoint(Operator(sys), shared.artifacts, shared.status.value.checkpoint.value).Some?)
            && (ResumeFrom(Operator(sys), shared).Ok? <==>
                  && paused && sys.adapter.resumeMode != Unsupported
                  && var bytes := GetCheckpoint(Operator(sys), shared.artifacts,
                                                shared.status.value.checkpoint.value).value;
                     Decode(sys.codec, bytes).Some?)
            && (ResumeFrom(Operator(sys), shared).Ok? ==>
                  ResumeFrom(Operator(sys), shared).value
                  == if sys.adapter.resumeMode == Restart then None else shared.status.value.checkpoint)
            && (shared.status.None? ==> ResumeFrom(Operator(sys), shared) == Err(NoStatus))
            && (shared.status.Some? && !paused ==> ResumeFrom(Operator(sys), shared) == Err(NotPaused))
  {
    PausedNamesCheckpoint(sys, events);
    InvAfter(sys, events);
    var b := After(sys, events).base;
    StatusIsInv(sys, After(sys, events));
    hide Inv, After;
    PausedResumes(sys, b);
  }

  lemma StatusIsInv(sys: System, st: State)
    requires Inv(sys, st)
    ensures StatusInv(sys, st.base)
  {
    hide StatusInv, LogOk, ControlsOk, PreparedOk, WorkerOk;
  }

  lemma PausedResumes(sys: System, b: Base)
    requires SystemOk(sys) && StatusInv(sys, b)
    requires b.shared.status.Some? && b.shared.status.value.state == Paused ==> b.shared.status.value.checkpoint.Some?
    ensures var shared := b.shared;
            var paused := shared.status.Some? && shared.status.value.state == Paused;
            && (paused ==> GetCheckpoint(Operator(sys), shared.artifacts, shared.status.value.checkpoint.value).Some?)
            && (ResumeFrom(Operator(sys), shared).Ok? <==>
                  && paused && sys.adapter.resumeMode != Unsupported
                  && var bytes := GetCheckpoint(Operator(sys), shared.artifacts,
                                                shared.status.value.checkpoint.value).value;
                     Decode(sys.codec, bytes).Some?)
            && (ResumeFrom(Operator(sys), shared).Ok? ==>
                  ResumeFrom(Operator(sys), shared).value
                  == if sys.adapter.resumeMode == Restart then None else shared.status.value.checkpoint)
            && (shared.status.None? ==> ResumeFrom(Operator(sys), shared) == Err(NoStatus))
            && (shared.status.Some? && !paused ==> ResumeFrom(Operator(sys), shared) == Err(NotPaused))
  {
    if b.shared.status.Some? && b.shared.status.value.state == Paused {
      var s := b.shared.status.value;
      EndsIsStored(sys, b.shared.artifacts, Operator(sys), s.checkpoint.value, s.boundary.value);
      var bytes := GetCheckpoint(Operator(sys), b.shared.artifacts, s.checkpoint.value).value;
      if Decode(sys.codec, bytes).Some? {
        var previous :| IsBundle(sys, bytes, s.boundary.value, previous);
        BundleRestores(sys, bytes, s.boundary.value, previous);
      }
      hide GetCheckpoint, Decode, IsBundle, Ends, SystemOk;
    }
  }

  /** The state right after an operator resumed a paused run. */
  ghost function ResumedBy(sys: System, st: State, operator: string): State {
    Next(sys, Next(sys, st, ResumeRead(operator)), ResumePublish(operator))
  }

  /** What resume found in the bucket is what a start will find, and the adapter is the one that wrote it. */
  lemma ResumeIsRestorable(sys: System, b: Base, id: Ident)
    requires SystemOk(sys) && StatusInv(sys, b) && ResumeFrom(Operator(sys), b.shared).Ok?
             && id == Id(sys, id.attempt, id.job)
    ensures ResumeFrom(Operator(sys), b.shared).value.Some? ==>
              && !sys.adapter.resumeMode.Restart? && !sys.adapter.resumeMode.Unsupported?
              && Restorable(id, b.shared.artifacts, sys.adapter, ResumeFrom(Operator(sys), b.shared).value.value).Some?
  {
    var s := b.shared.status.value;
    EndsIsStored(sys, b.shared.artifacts, id, s.checkpoint.value, s.boundary.value);
    var bytes := GetCheckpoint(id, b.shared.artifacts, s.checkpoint.value).value;
    var previous :| IsBundle(sys, bytes, s.boundary.value, previous);
    BundleRestores(sys, bytes, s.boundary.value, previous);
  }

  lemma ResumedControl(sys: System, st: State, operator: string)
    requires ResumeFrom(Operator(sys), st.base.shared).Ok?
    ensures var st' := ResumedBy(sys, st, operator);
            && st'.base.controls == st.base.controls
                 + [Control(sys.run, |st.base.controls| + 1, Run, ResumeFrom(Operator(sys), st.base.shared).value)]
            && st'.base.shared == st.base.shared && st'.base.used == st.base.used && st'.worker == st.worker
  {
  }

  lemma ResumeRequestsStart(sys: System, st: State, operator: string, attempt: string, job: Option<string>)
    requires SystemOk(sys) && Inv(sys, st) && ResumeFrom(Operator(sys), st.base.shared).Ok?
    ensures StartRequested(sys, ResumedBy(sys, st, operator).base, attempt, job)
  {
    ResumeIsRestorable(sys, st.base, Id(sys, attempt, job));
    ResumedControl(sys, st, operator);
  }

  /**
   After a paused finish and a successful resume, a new attempt starts exactly when the paused status
   carries no progress, and then it neither loses nor repeats work: it is at the paused boundary, or at
   the beginning when the adapter can only restart.
   */
  lemma ResumedRunStartsIff(sys: System, events: seq<Event>, operator: string, attempt: string, job: Option<string>)
    requires SystemOk(sys) && After(sys, events).worker.Down? && attempt !in After(sys, events).base.used
    requires ResumeFrom(Operator(sys), After(sys, events).base.shared).Ok?
    ensures StartOf(sys, ResumedBy(sys, After(sys, events), operator), attempt, job).worker.Working?
            <==> !CarriesProgress(After(sys, events).base.shared)
    ensures StartOf(sys, ResumedBy(sys, After(sys, events), operator), attempt, job).worker.Working? ==>
              StartOf(sys, ResumedBy(sys, After(sys, events), operator), attempt, job).worker.n
              == ResumePoint(After(sys, events).base.shared,
                             ResumeFrom(Operator(sys), After(sys, events).base.shared).value)
  {
    var st := After(sys, events);
    InvAfter(sys, events);
    ResumedControl(sys, st, operator);
    ResumeRequestsStart(sys, st, operator, attempt, job);
    StepKeepsInv(sys, st, ResumeRead(operator));
    StepKeepsInv(sys, Next(sys, st, ResumeRead(operator)), ResumePublish(operator));
    ResumedPoint(sys, st.base, Id(sys, attempt, job));
    StartOutcome(sys, ResumedBy(sys, st, operator), attempt, job);
  }

  /** What a resume publishes is the checkpoint of the status, which ends a lineage at the status's boundary. */
  lemma PausedAnchored(sys: System, b: Base)
    requires StatusInv(sys, b) && ResumeFrom(Operator(sys), b.shared).Ok?
    ensures b.shared.status.Some? && b.shared.status.value.boundary.Some?
    ensures var from := ResumeFrom(Operator(sys), b.shared).value;
            from.Some? ==> Ends(sys, b.shared.artifacts, from.value, b.shared.status.value.boundary.value)
  {
    hide Ends, Decode, GetCheckpoint;
  }

  lemma ResumedPoint(sys: System, b: Base, id: Ident)
    requires SystemOk(sys) && StatusInv(sys, b) && ResumeFrom(Operator(sys), b.shared).Ok?
             && id == Id(sys, id.attempt, id.job)
    ensures StartPoint(sys, b.shared.artifacts, id, ResumeFrom(Operator(sys), b.shared).value)
         == ResumePoint(b.shared, ResumeFrom(Operator(sys), b.shared).value)
  {
    ResumeIsRestorable(sys, b, id);
    PausedAnchored(sys, b);
    hide SystemOk, Restorable, Ends, Lineage, GetCheckpoint, Decode, ResumeFrom;
    var from := ResumeFrom(Operator(sys), b.shared).value;
    if from.Some? {
      RestoresState(sys, b.shared.artifacts, id, from.value, b.shared.status.value.boundary.value);
    }
  }

  // ---------------------------------------------------------------------------------------------
  // A paused run that nobody can resume

  function FirstId(sys: System): Ident {
    Id(sys, "attempt-1", None)
  }

  const PROGRESS := Progress("attempt-1", None)

  /** What the first attempt remembers once it has started. */
  const STARTED := Memory(1, Run, None, None, None)

  function FirstBundle(sys: System): Option<Bytes> {
    match Create(sys.codec, BundleMeta(FirstId(sys), STARTED, sys.adapter, 1, 0),
                 sys.app.save(sys.app.step(sys.app.init)))
    case None => None
    case Some((bytes, _)) => Some(bytes)
  }

  /** The first attempt and nobody else has been at the stores. */
  ghost predicate Alone(st: State, controls: seq<Control>, artifacts: map<string, Bytes>) {
    && st.base.controls == controls && st.base.shared.artifacts == artifacts && st.base.used == {"attempt-1"}
    && (forall k :: k in st.base.shared.receipts ==> k.generation <= |controls|)
  }

  lemma Extend(sys: System, events: seq<Event>, e: Event) returns (longer: seq<Event>)
    ensures After(sys, longer) == Next(sys, After(sys, events), e)
  {
    longer := events + [e];
    assert longer[..|events|] == events;
  }

  lemma ProceedThrice(sys: System, events: seq<Event>) returns (longer: seq<Event>)
    ensures var st := After(sys, events);
            After(sys, longer) == Next(sys, Next(sys, Next(sys, st, Proceed), Proceed), Proceed)
  {
    hide After;
    longer := Extend(sys, events, Proceed);
    longer := Extend(sys, longer, Proceed);
    longer := Extend(sys, longer, Proceed);
  }

  /** A receipt and a status, written undisturbed. */
  lemma BothWritten(sys: System, st: State, r: Receipt, s: Status)
    requires st.worker.Writing? && st.worker.todo == [WriteReceipt(r), WriteStatus(s)]
    requires KeyFor(r) !in st.base.shared.receipts && StatusOk(s)
    ensures var w := st.worker;
            Next(sys, Next(sys, Next(sys, st, Proceed), Proceed), Proceed)
            == State(st.base.(shared :=
                                Shared(st.base.shared.artifacts, Some(s), st.base.shared.receipts[KeyFor(r) := r]),
                              log := st.base.log + [r]),
                     Continue(w.id, w.mem, w.app, w.n, w.afterwards))
  {
    assert st.worker.todo[1..] == [WriteStatus(s)];
    var first := Next(sys, st, Proceed);
    assert first.worker == st.worker.(todo := [WriteStatus(s)]);
    assert first.worker.todo[1..] == [];
    var second := Next(sys, first, Proceed);
    assert second.worker == st.worker.(todo := []);
  }

  lemma FirstFetch(sys: System) returns (events: seq<Event>)
    ensures var st := After(sys, events);
            && st.base == Base([Control(sys.run, 1, Run, None)], map[], Shared(map[], None, map[]), {"attempt-1"}, [])
            && st.worker == Writing(FirstId(sys), STARTED, sys.app.init, 0,
                                    StartWrites(FirstId(sys), Inherit(None), Control(sys.run, 1, Run, None), None),
                                    GoWork)
  {
    events := Extend(sys, [], Command(Run));
    events := Extend(sys, events, Launch("attempt-1", None));
    events := Extend(sys, events, FetchStart(true, false));
  }

  /** Told to run, the first attempt starts from the beginning. */
  lemma FirstStart(sys: System) returns (events: seq<Event>)
    ensures var st := After(sys, events);
            Alone(st, [Control(sys.run, 1, Run, None)], map[])
            && st.worker == Working(FirstId(sys), STARTED, sys.app.init, 0)
  {
    hide After, Next;
    events := FirstFetch(sys);
    var st := After(sys, events);
    BothWritten(sys, st, st.worker.todo[0].receipt, st.worker.todo[1].status);
    events := ProceedThrice(sys, events);
  }

  /** Its first boundary comes with its progress, which the status then shows. */
  lemma FirstBoundary(sys: System, bytes: Bytes, before: seq<Event>) returns (events: seq<Event>)
    requires FirstBundle(sys) == Some(bytes)
    requires var st := After(sys, before);
             Alone(st, [Control(sys.run, 1, Run, None)], map[])
             && st.worker == Working(FirstId(sys), STARTED, sys.app.init, 0)
    ensures var st := After(sys, events);
            && Alone(st, [Control(sys.run, 1, Run, None)], map[RefOf(FirstId(sys), bytes).key := bytes])
            && st.worker
                 == Asking(FirstId(sys), BoundaryMemory(FirstId(sys), STARTED.(progress := Some(PROGRESS)), 1, bytes),
                                   sys.app.step(sys.app.init), 1)
  {
    events := Extend(sys, before, Unit(Some(PROGRESS), 0));
    events := ProceedThrice(sys, events);
  }

  function PausedMemory(sys: System, bytes: Bytes): Memory {
    Memory(2, Pause, Some(1), Some(RefOf(FirstId(sys), bytes)), Some(PROGRESS))
  }

  /** Told to pause, it has a receipt and a status to write. */
  lemma FirstAnswer(sys: System, bytes: Bytes, before: seq<Event>) returns (events: seq<Event>)
    requires !sys.adapter.resumeMode.Unsupported?
    requires var st := After(sys, before);
             && Alone(st, [Control(sys.run, 1, Run, None)], map[RefOf(FirstId(sys), bytes).key := bytes])
             && st.worker
                  == Asking(FirstId(sys), BoundaryMemory(FirstId(sys), STARTED.(progress := Some(PROGRESS)), 1, bytes),
                                    sys.app.step(sys.app.init), 1)
    ensures var st := After(sys, events);
            && st.base == Published(After(sys, before).base, Pause, None, sys.run)
            && st.worker.Writing? && st.worker.id == FirstId(sys) && st.worker.mem == PausedMemory(sys, bytes)
            && st.worker.afterwards == GoDecide(DecisionFor(Pause, 2, true))
            && |st.worker.todo| == 2 && st.worker.todo[0].WriteReceipt? && st.worker.todo[0].receipt.generation == 2
            && st.worker.todo[1] == WriteStatus(StatusOf(FirstId(sys), PausedMemory(sys, bytes), Pausing))
  {
    events := Extend(sys, before, Command(Pause));
    events := Extend(sys, events, Ask(true));
  }

  lemma FinishWritten(sys: System, st: State)
    requires st.worker.Exiting? && StatusOk(StatusOf(st.worker.id, st.worker.mem, st.worker.decision.target))
    ensures var s := StatusOf(st.worker.id, st.worker.mem, st.worker.decision.target);
            Next(sys, Next(sys, Next(sys, st, Finish), Proceed), Proceed)
            == State(st.base.(shared := st.base.shared.(status := Some(s))), Down)
  {
  }

  /** It exits with a status that shows the checkpoint and the progress. */
  lemma FirstPause(sys: System, bytes: Bytes, before: seq<Event>) returns (events: seq<Event>)
    requires !sys.adapter.resumeMode.Unsupported?
    requires var st := After(sys, before);
             && Alone(st, [Control(sys.run, 1, Run, None)], map[RefOf(FirstId(sys), bytes).key := bytes])
             && st.worker
                  == Asking(FirstId(sys), BoundaryMemory(FirstId(sys), STARTED.(progress := Some(PROGRESS)), 1, bytes),
                                    sys.app.step(sys.app.init), 1)
    ensures var st := After(sys, events);
            && st.worker.Down? && st.base.used == {"attempt-1"}
            && st.base.shared.artifacts == map[RefOf(FirstId(sys), bytes).key := bytes]
            && st.base.shared.status == Some(StatusOf(FirstId(sys), PausedMemory(sys, bytes), Paused))
  {
    hide After, Next;
    events := FirstAnswer(sys, bytes, before);
    var st := After(sys, events);
    BothWritten(sys, st, st.worker.todo[0].receipt, st.worker.todo[1].status);
    events := ProceedThrice(sys, events);
    FinishWritten(sys, After(sys, events));
    events := Extend(sys, events, Finish);
    events := Extend(sys, events, Proceed);
    events := Extend(sys, events, Proceed);
  }

  /** The operator finds the paused checkpoint in order. */
  lemma PausedCanBeResumed(sys: System, bytes: Bytes, shared: Shared)
    requires RoundTrips(sys.codec) && !sys.adapter.resumeMode.Unsupported?
    requires FirstBundle(sys) == Some(bytes) && Decode(sys.codec, bytes).Some?
    requires shared.artifacts == map[RefOf(FirstId(sys), bytes).key := bytes]
    requires shared.status == Some(StatusOf(FirstId(sys), PausedMemory(sys, bytes), Paused))
    ensures ResumeFrom(Operator(sys), shared).Ok? && CarriesProgress(shared)
  {
    var meta := BundleMeta(FirstId(sys), STARTED, sys.adapter, 1, 0);
    var payloads := sys.app.save(sys.app.step(sys.app.init));
    CreatedDecodesOnlyIf(sys.codec, meta, payloads);
    CreatedDecodes(sys.codec, meta, payloads);
  }

  /**
   The condition excludes a history of every application whose first boundary can be saved: its first
   attempt reports progress, pauses as told, and an operator's resume succeeds; no second attempt starts.
   */
  lemma InheritedProgressFails(sys: System, bytes: Bytes, operator: string) returns (events: seq<Event>)
    requires SystemOk(sys) && !sys.adapter.resumeMode.Unsupported?
    requires FirstBundle(sys) == Some(bytes) && Decode(sys.codec, bytes).Some?
    ensures var st := After(sys, events);
            && st.worker.Down? && st.base.used == {"attempt-1"} && ResumeFrom(Operator(sys), st.base.shared).Ok?
            && !StartOf(sys, ResumedBy(sys, st, operator), "attempt-2", None).worker.Working?
  {
    hide After, FirstBundle, Alone, StartOf, ResumeFrom, ResumedBy;
    events := FirstStart(sys);
    events := FirstBoundary(sys, bytes, events);
    events := FirstPause(sys, bytes, events);
    PausedCanBeResumed(sys, bytes, After(sys, events).base.shared);
    ResumedRunStartsIff(sys, events, operator, "attempt-2", None);
  }

  // ---------------------------------------------------------------------------------------------
  // Progress in the status blocks every later attempt

  /** The live attempt, if any, is on its way to a status that it cannot write. */
  ghost predicate Blocked(w: Worker, progress: Progress) {
    match w
    case Down => true
    case Loaded(id, mem) => mem.progress == Some(progress) && id.attempt != progress.attempt
    case Writing(id, mem, _, _, todo, afterwards) =>
      && mem.progress == Some(progress) && id.attempt != progress.attempt && afterwards.GoWork?
      && 1 <= |todo| <= 2 && (|todo| == 2 ==> todo[0].WriteReceipt?) && StatusWrite(id, mem, todo[|todo| - 1])
    case _ => false
  }

  lemma BlockedStep(sys: System, st: State, e: Event, s: Status)
    requires SystemOk(sys) && Inv(sys, st) && st.base.shared.status == Some(s) && s.progress.Some?
    requires Blocked(st.worker, s.progress.value)
    ensures Next(sys, st, e).base.shared.status == Some(s) && Blocked(Next(sys, st, e).worker, s.progress.value)
  {
    var w := st.worker;
    if e.Proceed? && w.Writing? {
      BlockedWrite(st.base, w, s.progress.value);
    } else if e.FetchStart? && w.Loaded? {
      BlockedFetch(sys, st.base, w.id, w.mem, Reply(st.base, e.available), e.adapterFails, s.progress.value);
    }
  }

  lemma BlockedWrite(b: Base, w: Worker, progress: Progress)
    requires w.Writing? && Blocked(w, progress)
    ensures Step(b, w).base.shared.status == b.shared.status && Blocked(Step(b, w).worker, progress)
  {
    if |w.todo| == 2 {
      assert w.todo[1..] == [w.todo[1]];
    }
  }

  lemma BlockedFetch(
      sys: System, b: Base, id: Ident, mem: Memory, reply: Option<Control>, adapterFails: bool, progress: Progress)
    requires mem.progress == Some(progress) && id.attempt != progress.attempt
    ensures Blocked(AfterFetch(sys, b, id, mem, reply, adapterFails), progress)
  {
    var w := AfterFetch(sys, b, id, mem, reply, adapterFails);
    if w.Writing? {
      assert w.todo[1].status == StatusOf(id, w.mem, Running);
    }
  }

  /** Once an attempt is over and the status carries its progress, no attempt ever gets to work again. */
  lemma {:induction false} ProgressBlocksForEver(sys: System, events: seq<Event>, more: seq<Event>)
    requires SystemOk(sys) && After(sys, events).worker.Down? && CarriesProgress(After(sys, events).base.shared)
    ensures After(sys, events + more).base.shared.status == After(sys, events).base.shared.status
    ensures Blocked(After(sys, events + more).worker, After(sys, events).base.shared.status.value.progress.value)
    ensures !After(sys, events + more).worker.Working?
  {
    if more == [] {
      assert events + more == events;
    } else {
      var n := |more| - 1;
      ProgressBlocksForEver(sys, events, more[..n]);
      InvAfter(sys, events + more[..n]);
      BlockedStep(sys, After(sys, events + more[..n]), more[n], After(sys, events).base.shared.status.value);
      assert (events + more)[..|events + more| - 1] == events + more[..n];
    }
  }
}
