/** What a client of the repositories achieves when no other one commits. */
module ControlRuns {
  import opened Prelude
  import opened ControlModel
  import opened ControlRepo

  /** One look at the head, and one commit request with this fate. */
  function Round(c: string, delivery: Delivery): seq<Event> {
    [Work(c, Delivered)] + [Work(c, delivery)]
  }

  function Lost(c: string, n: nat): seq<Event> {
    if n == 0 then [] else Lost(c, n - 1) + Round(c, Delivery.Lost)
  }

  lemma OneEvent(events: seq<Event>, e: Event)
    ensures After(events + [e]) == Next(After(events), e)
  {
    assert (events + [e])[..|events|] == events;
  }

  lemma AfterRound(events: seq<Event>, c: string, delivery: Delivery)
    ensures After(events + Round(c, delivery)) == Next(Next(After(events), Work(c, Delivered)), Work(c, delivery))
  {
    hide After, Next;
    OneEvent(events, Work(c, Delivered));
    OneEvent(events + [Work(c, Delivered)], Work(c, delivery));
    assert events + Round(c, delivery) == events + [Work(c, Delivered)] + [Work(c, delivery)];
  }

  /** The store takes the document: the next generation, a status, or a document that is not there yet. */
  predicate Takes(history: History, op: Op) {
    match op
    case Publish(control, expected) =>
      Generation(history, control.run) == expected && control.generation == expected + 1
    case Put(path, _) => path.StatusPath? || Latest(history, path) == None
  }

  /** A control document that may be published at all, or any other document. */
  predicate Proper(op: Op) {
    match op
    case Publish(control, _) =>
      control.generation >= 1 && (control.resumeFrom.Some? ==> control.action == Run)
    case Put(path, _) => !path.ControlPath?
  }

  /** The document is there already, and may not be written again. */
  predicate Stands(history: History, op: Op) {
    op.Put? && (op.path.SpecPath? || op.path.ReceiptPath?) && Latest(history, op.path) == Some(Raw(op.raw))
  }

  function DocumentOf(op: Op): Commit {
    match op
    case Publish(control, _) => Commit(ControlPath(control.run), ControlDoc(control))
    case Put(path, raw) => Commit(path, Raw(raw))
  }

  lemma RoundEnds(st: State, c: string, op: Op, tries: nat)
    requires PhaseOf(st, c) == Reading(op, tries) && Proper(op)
    ensures var end := Next(Next(st, Work(c, Delivered)), Work(c, Delivered));
            && PhaseOf(end, c).Idle?
            && end.history == (if Takes(st.history, op) then st.history + [DocumentOf(op)] else st.history)
            && end.returned == (if Takes(st.history, op) || Stands(st.history, op)
                                then st.returned + {DocumentOf(op)} else st.returned)
  {
  }

  lemma LostRound(st: State, c: string, op: Op, tries: nat)
    requires PhaseOf(st, c) == Reading(op, tries) && Proper(op) && Takes(st.history, op)
    ensures var end := Next(Next(st, Work(c, Delivered)), Work(c, Delivery.Lost));
            && end.history == st.history && end.returned == st.returned
            && PhaseOf(end, c) == if op.Put? && tries < 2 then Reading(op, tries + 1) else Idle
  {
  }

  lemma IdleRound(st: State, c: string, delivery: Delivery)
    requires PhaseOf(st, c).Idle?
    ensures var end := Next(Next(st, Work(c, Delivered)), Work(c, delivery));
            end.history == st.history && end.returned == st.returned && PhaseOf(end, c).Idle?
  {
  }

  /** After a number of lost requests the client is at its next try, or has given up. */
  lemma {:induction false} AfterLosses(events: seq<Event>, c: string, op: Op, n: nat)
    requires PhaseOf(After(events), c).Idle? && Proper(op) && Takes(After(events).history, op)
    ensures var st, end := After(events), After(events + [Begin(c, op)] + Lost(c, n));
            && end.history == st.history && end.returned == st.returned
            && PhaseOf(end, c) == if n == 0 || (op.Put? && n <= 2) then Reading(op, n) else Idle
  {
    var begun := events + [Begin(c, op)];
    hide After;
    OneEvent(events, Begin(c, op));
    if n == 0 {
      assert begun + Lost(c, 0) == begun;
    } else {
      AfterLosses(events, c, op, n - 1);
      var before := begun + Lost(c, n - 1);
      assert begun + Lost(c, n) == before + Round(c, Delivery.Lost);
      AfterRound(before, c, Delivery.Lost);
      if PhaseOf(After(before), c).Idle? {
        IdleRound(After(before), c, Delivery.Lost);
      } else {
        LostRound(After(before), c, op, n - 1);
      }
    }
  }

  /**
   After any history, a client left to itself stores a document that the store takes, and is told so,
   although up to two requests for a status, receipt or specification are lost; the third loss, or the first
   of a control document, makes it give up without storing anything.
   */
  lemma StoresAlone(events: seq<Event>, c: string, op: Op, lost: nat)
    requires PhaseOf(After(events), c).Idle? && Proper(op) && Takes(After(events).history, op)
    ensures var st := After(events);
            var end := After(events + [Begin(c, op)] + Lost(c, lost) + Round(c, Delivered));
            && PhaseOf(end, c).Idle?
            && if lost == 0 || (op.Put? && lost <= 2)
               then end.history == st.history + [DocumentOf(op)] && end.returned == st.returned + {DocumentOf(op)}
               else end.history == st.history && end.returned == st.returned
  {
    var before := events + [Begin(c, op)] + Lost(c, lost);
    AfterLosses(events, c, op, lost);
    AfterRound(before, c, Delivered);
    hide After, Next;
    if PhaseOf(After(before), c).Idle? {
      IdleRound(After(before), c, Delivered);
    } else {
      RoundEnds(After(before), c, op, lost);
    }
  }

  /** A document that the store does not take is not stored; it counts as stored exactly if it is there already. */
  lemma RefusesAlone(events: seq<Event>, c: string, op: Op)
    requires PhaseOf(After(events), c).Idle? && (!Proper(op) || !Takes(After(events).history, op))
    ensures var st := After(events);
            var end := After(events + [Begin(c, op)] + Round(c, Delivered));
            && PhaseOf(end, c).Idle? && end.history == st.history
            && end.returned == if Stands(st.history, op) then st.returned + {DocumentOf(op)} else st.returned
  {
    OneEvent(events, Begin(c, op));
    AfterRound(events + [Begin(c, op)], c, Delivered);
    if Proper(op) {
      RoundEnds(After(events + [Begin(c, op)]), c, op, 0);
    } else {
      IdleRound(After(events + [Begin(c, op)]), c, Delivered);
    }
    hide After;
  }

  /** A request that was applied but reported as failed. */
  lemma UnreportedRound(st: State, c: string, op: Op)
    requires PhaseOf(st, c) == Reading(op, 0) && Proper(op) && Takes(st.history, op)
    ensures var end := Next(Next(st, Work(c, Delivered)), Work(c, Unreported));
            && end.history == st.history + [DocumentOf(op)] && end.returned == st.returned
            && PhaseOf(end, c) == if op.Put? then Reading(op, 1) else Idle
  {
  }

  /**
   When the first request is applied but reported as failed, a control document is published without its
   client being told; another document is found or, if it is a status, written again, and the client is told.
   */
  lemma StoresUnreported(events: seq<Event>, c: string, op: Op)
    requires PhaseOf(After(events), c).Idle? && Proper(op) && Takes(After(events).history, op)
    ensures var st, doc := After(events), DocumentOf(op);
            var end := After(events + [Begin(c, op)] + Round(c, Unreported) + Round(c, Delivered));
            && PhaseOf(end, c).Idle?
            && match op
               case Publish(_, _) => end.history == st.history + [doc] && end.returned == st.returned
               case Put(path, _) =>
                 && end.returned == st.returned + {doc}
                 && end.history == if path.StatusPath? then st.history + [doc] + [doc] else st.history + [doc]
  {
    var begun := events + [Begin(c, op)];
    OneEvent(events, Begin(c, op));
    AfterRound(begun, c, Unreported);
    AfterRound(begun + Round(c, Unreported), c, Delivered);
    UnreportedRound(After(begun), c, op);
    hide After;
    var mid := After(begun + Round(c, Unreported));
    if op.Put? {
      LatestIsLast(After(events).history, DocumentOf(op));
      RoundEnds(mid, c, op, 1);
    } else {
      IdleRound(mid, c, Delivered);
    }
  }

  lemma LatestIsLast(history: History, c: Commit)
    ensures Latest(history + [c], c.path) == Some(c.doc)
  {
  }
}
