/**
 The repositories that hold control documents, statuses, receipts and launch specifications.

 A repository is the history of its commits.  A commit names the head it was prepared on and is
 refused when the head has moved, but a commit may also be applied and reported as failed.
 Operators, workers and launchers interleave at single reads and commits.
 */
module ControlRepo {
  import opened Prelude
  import opened CheckpointChain
  import opened ControlModel

  datatype Path =
    | ControlPath(run: string)
    | SpecPath(run: string)
    | StatusPath(run: string)
    | ReceiptPath(run: string, attempt: string, generation: nat)

  predicate Immutable(path: Path) {
    path.SpecPath? || path.ReceiptPath?
  }

  datatype Document = ControlDoc(control: Control) | Raw(raw: Bytes)

  datatype Commit = Commit(path: Path, doc: Document)

  type History = seq<Commit>

  /** What a file says at the end of a history. */
  function Latest(history: History, path: Path): Option<Document> {
    if history == [] then None
    else if history[|history| - 1].path == path then Some(history[|history| - 1].doc)
    else Latest(history[..|history| - 1], path)
  }

  /** The generation of a run's control document, 0 before there is one. */
  function Generation(history: History, run: string): nat {
    match Latest(history, ControlPath(run))
    case Some(ControlDoc(c)) => c.generation
    case _ => 0
  }

  /** What the stores check before they commit. */
  predicate Legal(history: History, c: Commit) {
    && (c.path.ControlPath? ==>
          && c.doc.ControlDoc? && ControlOk(c.doc.control) && c.doc.control.run == c.path.run
          && c.doc.control.generation == Generation(history, c.path.run) + 1)
    && (!c.path.ControlPath? ==> c.doc.Raw?)
    && (Immutable(c.path) ==> Latest(history, c.path).None?)
  }

  /** Every commit was legal on the history before it. */
  predicate WellFormed(history: History) {
    history == [] || (WellFormed(history[..|history| - 1]) && Legal(history[..|history| - 1], history[|history| - 1]))
  }

  // ---------------------------------------------------------------------------------------------
  // What well-formed histories promise

  /** The generations of a run in the order they were committed. */
  function Generations(history: History, run: string): seq<nat> {
    if history == [] then []
    else
      var last := history[|history| - 1];
      var before := Generations(history[..|history| - 1], run);
      if last.path == ControlPath(run) && last.doc.ControlDoc? then before + [last.doc.control.generation] else before
  }

  function UpTo(n: nat): seq<nat> {
    seq(n, i => i + 1)
  }

  function CountAt(history: History, path: Path): nat {
    if history == [] then 0
    else CountAt(history[..|history| - 1], path) + (if history[|history| - 1].path == path then 1 else 0)
  }

  /** The generations of a run are exactly 1, 2, ..., n in that order. */
  lemma {:induction false} GenerationsCount(history: History, run: string)
    requires WellFormed(history)
    ensures Generations(history, run) == UpTo(Generation(history, run))
  {
    if history != [] {
      var before := history[..|history| - 1];
      GenerationsCount(before, run);
      assert history[|history| - 1].path != ControlPath(run) ==> Generation(history, run) == Generation(before, run);
      assert UpTo(Generation(before, run) + 1) == UpTo(Generation(before, run)) + [Generation(before, run) + 1];
    }
  }

  /** An immutable document is committed at most once. */
  lemma {:induction false} CommittedAtMostOnce(history: History, path: Path)
    requires WellFormed(history) && Immutable(path)
    ensures CountAt(history, path) == if Latest(history, path).Some? then 1 else 0
  {
    if history != [] {
      CommittedAtMostOnce(history[..|history| - 1], path);
    }
  }

  lemma {:induction false} PrefixIsWellFormed(history: History, n: nat)
    requires WellFormed(history) && n <= |history|
    ensures WellFormed(history[..n])
  {
    if n < |history| {
      PrefixIsWellFormed(history[..|history| - 1], n);
      assert history[..|history| - 1][..n] == history[..n];
    } else {
      assert history[..n] == history;
    }
  }

  /** Once there, an immutable document never changes. */
  lemma {:induction false} NeverRewritten(history: History, later: History, path: Path)
    requires WellFormed(later) && history <= later && Immutable(path) && Latest(history, path).Some?
    ensures Latest(later, path) == Latest(history, path)
  {
    if |history| < |later| {
      var before := later[..|later| - 1];
      assert history <= before;
      NeverRewritten(history, before, path);
    } else {
      assert later == history;
    }
  }

  /** Generations never go back. */
  lemma {:induction false} GenerationsRise(history: History, later: History, run: string)
    requires WellFormed(later) && history <= later
    ensures Generation(history, run) <= Generation(later, run)
    ensures Generation(history, run) == Generation(later, run) ==>
              Latest(history, ControlPath(run)) == Latest(later, ControlPath(run))
  {
    if |history| < |later| {
      var before := later[..|later| - 1];
      assert history <= before;
      GenerationsRise(history, before, run);
    } else {
      assert later == history;
    }
  }

  // ---------------------------------------------------------------------------------------------
  // Clients

  const TRIES: nat := 3

  /** An operation of a client: publish a control document, or commit another document. */
  datatype Op = Publish(control: Control, expected: nat) | Put(path: Path, raw: Bytes)

  predicate OpOk(op: Op) {
    (op.Publish? ==> ControlOk(op.control)) && (op.Put? ==> !op.path.ControlPath?)
  }

  datatype Phase = Idle | Reading(op: Op, tries: nat) | Committing(op: Op, parent: nat, tries: nat)

  /** What became of a commit request on its way: delivered, lost, or applied and reported as failed. */
  datatype Delivery = Delivered | Lost | Unreported

  datatype Event =
    | Begin(client: string, op: Op)
    | Work(client: string, delivery: Delivery)
    | Crash(client: string)

  /** `returned` records the documents whose commit was reported as successful. */
  datatype State = State(history: History, clients: map<string, Phase>, returned: set<Commit>)

  const INITIAL := State([], map[], {})

  function PhaseOf(st: State, client: string): Phase {
    if client in st.clients then st.clients[client] else Idle
  }

  function CommitOf(op: Op): Commit {
    if op.Publish? then Commit(ControlPath(op.control.run), ControlDoc(op.control)) else Commit(op.path, Raw(op.raw))
  }

  datatype Effect = Effect(history: History, phase: Phase, returned: set<Commit>)

  /** Reads the head and decides at that very revision whether to commit. */
  function Read(history: History, op: Op, tries: nat): Effect {
    if op.Publish? then
      if Generation(history, op.control.run) != op.expected || op.control.generation != op.expected + 1
      then Effect(history, Idle, {})
      else Effect(history, Committing(op, |history|, tries), {})
    else if Immutable(op.path) && Latest(history, op.path).Some? then
      Effect(history, Idle, if Latest(history, op.path) == Some(Raw(op.raw)) then {CommitOf(op)} else {})
    else Effect(history, Committing(op, |history|, tries), {})
  }

  /** A failed commit of a control document is reported; others are tried again from the read. */
  function Retry(op: Op, tries: nat): Phase {
    if op.Put? && tries + 1 < TRIES then Reading(op, tries + 1) else Idle
  }

  function TryCommit(history: History, op: Op, parent: nat, tries: nat, delivery: Delivery): Effect {
    var applied := !delivery.Lost? && parent == |history|;
    var history' := if applied then history + [CommitOf(op)] else history;
    if applied && delivery.Delivered?
      then Effect(history', Idle, {CommitOf(op)})
      else Effect(history', Retry(op, tries), {})
  }

  function Perform(history: History, phase: Phase, delivery: Delivery): Effect {
    match phase
    case Idle => Effect(history, Idle, {})
    case Reading(op, tries) => Read(history, op, tries)
    case Committing(op, parent, tries) => TryCommit(history, op, parent, tries, delivery)
  }

  function Next(st: State, e: Event): State {
    match e
    case Crash(c) => st.(clients := st.clients[c := Idle])
    case Begin(c, op) =>
      if PhaseOf(st, c).Idle? && OpOk(op) then st.(clients := st.clients[c := Reading(op, 0)]) else st
    case Work(c, delivery) =>
      var eff := Perform(st.history, PhaseOf(st, c), delivery);
      State(eff.history, st.clients[c := eff.phase], st.returned + eff.returned)
  }

  function After(events: seq<Event>): State {
    if events == [] then INITIAL else Next(After(events[..|events| - 1]), events[|events| - 1])
  }

  /** A prepared commit is legal on the revision it was prepared on. */
  predicate PhaseOk(history: History, phase: Phase) {
    match phase
    case Idle => true
    case Reading(op, _) => OpOk(op)
    case Committing(op, parent, _) => OpOk(op) && parent <= |history| && Legal(history[..parent], CommitOf(op))
  }

  predicate Kept(history: History, c: Commit) {
    c in history && (Immutable(c.path) ==> Latest(history, c.path) == Some(c.doc))
  }

  ghost predicate Inv(st: State) {
    && WellFormed(st.history)
    && (forall c :: c in st.clients ==> PhaseOk(st.history, st.clients[c]))
    && (forall c :: c in st.returned ==> Kept(st.history, c))
  }

  lemma {:induction false} LatestIsCommitted(history: History, path: Path)
    requires Latest(history, path).Some?
    ensures Commit(path, Latest(history, path).value) in history
  {
    if history[|history| - 1].path != path {
      LatestIsCommitted(history[..|history| - 1], path);
    }
  }

  /** The history only grows by legal commits, and what is returned is kept. */
  ghost predicate Sound(history: History, eff: Effect) {
    && history <= eff.history && WellFormed(eff.history) && PhaseOk(eff.history, eff.phase)
    && forall c :: c in eff.returned ==> Kept(eff.history, c)
  }

  lemma ReadSound(history: History, op: Op, tries: nat)
    requires WellFormed(history) && OpOk(op)
    ensures Sound(history, Read(history, op, tries))
  {
    assert history[..|history|] == history;
    if Read(history, op, tries).returned != {} { LatestIsCommitted(history, op.path); }
  }

  lemma CommitSound(history: History, op: Op, parent: nat, tries: nat, delivery: Delivery)
    requires WellFormed(history) && OpOk(op) && parent <= |history| && Legal(history[..parent], CommitOf(op))
    ensures Sound(history, TryCommit(history, op, parent, tries, delivery))
  {
    var later := history + [CommitOf(op)];
    assert history[..|history|] == history && later[..|history|] == history && later[|history|] == CommitOf(op);
    hide Legal, Retry;
    assert parent == |history| ==> WellFormed(later);
    RetryOk(later, op, tries);
    RetryOk(history, op, tries);
  }

  lemma RetryOk(history: History, op: Op, tries: nat)
    requires OpOk(op)
    ensures PhaseOk(history, Retry(op, tries))
  {
  }

  lemma PerformSound(history: History, phase: Phase, delivery: Delivery)
    requires WellFormed(history) && PhaseOk(history, phase)
    ensures Sound(history, Perform(history, phase, delivery))
  {
    match phase
    case Idle =>
    case Reading(op, tries) => ReadSound(history, op, tries);
    case Committing(op, parent, tries) => CommitSound(history, op, parent, tries, delivery);
  }

  lemma KeptGrows(history: History, later: History, c: Commit)
    requires WellFormed(later) && history <= later && Kept(history, c)
    ensures Kept(later, c)
  {
    if Immutable(c.path) { NeverRewritten(history, later, c.path); }
  }

  lemma StepKeepsInv(st: State, e: Event)
    requires Inv(st)
    ensures Inv(Next(st, e)) && st.history <= Next(st, e).history
  {
    if e.Work? {
      var eff := Perform(st.history, PhaseOf(st, e.client), e.delivery);
      PerformSound(st.history, PhaseOf(st, e.client), e.delivery);
      forall c | c in st.clients ensures PhaseOk(eff.history, st.clients[c]) {
        assert PhaseOk(st.history, st.clients[c]);
        if st.clients[c].Committing? {
          assert eff.history[..st.clients[c].parent] == st.history[..st.clients[c].parent];
        }
      }
      forall c | c in st.returned ensures Kept(eff.history, c) {
        KeptGrows(st.history, eff.history, c);
      }
    }
  }

  lemma {:induction false} InvAfter(events: seq<Event>)
    ensures Inv(After(events))
  {
    if events != [] {
      InvAfter(events[..|events| - 1]);
      StepKeepsInv(After(events[..|events| - 1]), events[|events| - 1]);
    }
  }

  lemma {:induction false} HistoryGrows(events: seq<Event>, more: seq<Event>)
    ensures After(events).history <= After(events + more).history
  {
    if more == [] {
      assert events + more == events;
    } else {
      var n := |more| - 1;
      HistoryGrows(events, more[..n]);
      InvAfter(events + more[..n]);
      StepKeepsInv(After(events + more[..n]), more[n]);
      assert (events + more)[..|events + more| - 1] == events + more[..n];
    }
  }

  /** No lost or rewritten control: whatever interleaves or fails, generations are exactly 1..n in order. */
  lemma ControlHistory(events: seq<Event>, run: string)
    ensures Generations(After(events).history, run) == UpTo(Generation(After(events).history, run))
  {
    InvAfter(events);
    GenerationsCount(After(events).history, run);
  }

  /** An immutable document gets at most one commit, and reads the same at every later time. */
  lemma ImmutableDocuments(events: seq<Event>, more: seq<Event>, path: Path)
    requires Immutable(path)
    ensures CountAt(After(events).history, path) <= 1
    ensures Latest(After(events).history, path).Some? ==>
              Latest(After(events + more).history, path) == Latest(After(events).history, path)
  {
    InvAfter(events);
    InvAfter(events + more);
    HistoryGrows(events, more);
    CommittedAtMostOnce(After(events).history, path);
    if Latest(After(events).history, path).Some? {
      NeverRewritten(After(events).history, After(events + more).history, path);
    }
  }

  /** Whoever was told that an immutable document is stored finds exactly their bytes, for ever. */
  lemma ReturnedDocuments(events: seq<Event>, more: seq<Event>, c: Commit)
    requires c in After(events).returned && Immutable(c.path)
    ensures Latest(After(events + more).history, c.path) == Some(c.doc)
    ensures CountAt(After(events + more).history, c.path) == 1
  {
    InvAfter(events);
    InvAfter(events + more);
    HistoryGrows(events, more);
    NeverRewritten(After(events).history, After(events + more).history, c.path);
    CommittedAtMostOnce(After(events + more).history, c.path);
  }

  /** Two publishers of one generation cannot both succeed with different documents. */
  lemma OnePublicationPerGeneration(events: seq<Event>, a: Commit, b: Commit)
    requires a in After(events).returned && b in After(events).returned
    requires a.path == b.path && a.path.ControlPath? && a.doc.ControlDoc? && b.doc.ControlDoc?
    requires a.doc.control.generation == b.doc.control.generation
    ensures a == b
  {
    var history := After(events).history;
    InvAfter(events);
    var i :| 0 <= i < |history| && history[i] == a;
    var j :| 0 <= j < |history| && history[j] == b;
    if i < j { GenerationsDiffer(history, i, j); }
    if j < i { GenerationsDiffer(history, j, i); }
  }

  lemma GenerationsDiffer(history: History, i: nat, j: nat)
    requires WellFormed(history) && i < j < |history|
    requires history[i].path == history[j].path && history[i].path.ControlPath?
    ensures history[i].doc.ControlDoc? && history[j].doc.ControlDoc?
    ensures history[i].doc.control.generation < history[j].doc.control.generation
  {
    var run := history[i].path.run;
    PrefixIsWellFormed(history, i + 1);
    PrefixIsWellFormed(history, j);
    PrefixIsWellFormed(history, j + 1);
    assert history[..i + 1][..i] == history[..i] && history[..j + 1][..j] == history[..j];
    assert history[..i + 1][i] == history[i] && history[..j + 1][j] == history[j];
    assert Generation(history[..i + 1], run) == history[i].doc.control.generation;
    GenerationsRise(history[..i + 1], history[..j], run);
  }
}
