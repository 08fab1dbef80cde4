/**
 The TypeScript progress reporter, whose flush suspends while the store publishes.

 The event loop may run any number of changes between the capture of a snapshot and the moment its
 publication settles.  `BeginFlush` and `Settle` are the two halves of one flush around that
 suspension; the flush chain lets only one flush be between them at a time.
 */
module TsReporter {
  import opened Prelude
  import opened ProgressModel
  import opened TrackRules
  import H = TrackHistory

  datatype Flight = Flight(snapshot: Snapshot, change: nat, at: Instant)

  datatype Change = Plan(planned: seq<Track>) | Update(track: Track) | SetState(next: Status) | Touch

  /** The same change, as the history of tracks sees it. */
  function AsChange(change: Change): H.Change
    requires !change.Touch?
  {
    match change
    case Plan(planned) => H.Plan(planned)
    case Update(track) => H.Update(track)
    case SetState(next) => H.SetState(next)
  }

  /** One turn of the event loop: a change, a queued flush starting, or a publication settling. */
  datatype Turn = Apply(change: Change) | Start(force: bool, now: Instant) | Finish(outcome: Option<Ref>)

  class ProgressReporter {
    const run: Id
    const attempt: Id
    const job: Option<string>
    const input: Input
    const flushInterval: nat
    var tracks: map<Id, Track>
    var state: Status
    var latest: Option<Stored>
    var sequence: nat
    var dirty: bool
    var changeSequence: nat
    var lastFlush: Option<Instant>
    /** The publication being awaited, with the change counter read when it was captured. */
    var inFlight: Option<Flight>

    /** Nothing that changed since a snapshot was captured can be mistaken for stored. */
    ghost predicate Valid()
      reads this
    {
      && sequence == (if latest.None? then 0 else latest.value.snapshot.sequence)
      && Keyed(tracks)
      && (!dirty ==> Stores(latest))
      && (inFlight.Some? ==>
            && dirty
            && inFlight.value.change <= changeSequence
            && inFlight.value.snapshot.sequence == sequence + 1
            && inFlight.value.snapshot.previous == (if latest.None? then None else Some(latest.value.reference))
            && (inFlight.value.change == changeSequence ==>
                  inFlight.value.snapshot.tracks == tracks && inFlight.value.snapshot.state == state))
    }

    /** `o` holds exactly the current tracks and state. */
    ghost predicate Stores(o: Option<Stored>)
      reads this
    {
      o.Some? && o.value.snapshot.tracks == tracks && o.value.snapshot.state == state
    }

    constructor (run: Id, attempt: Id, job: Option<string>, input: Input, flushInterval: nat, latest: Option<Stored>)
      requires latest.Some? ==> Keyed(latest.value.snapshot.tracks)
      ensures Valid() && inFlight == None && this.latest == latest
      ensures lastFlush == if latest.None? then None else Some(latest.value.snapshot.updatedAt)
      ensures this.flushInterval == flushInterval
      ensures H.Config(tracks, state) == H.Start(H.ChainOf(latest), input)
      ensures this.run == run && this.attempt == attempt && this.job == job && this.input == input
      ensures latest.Some? && latest.value.snapshot.input == input ==>
                && tracks == latest.value.snapshot.tracks && state == latest.value.snapshot.state
                && (dirty <==>
                      && state !in {Completed, Failed, Cancelled}
                      && (latest.value.snapshot.attempt != attempt || latest.value.snapshot.job != job))
      ensures !(latest.Some? && latest.value.snapshot.input == input) ==> tracks == map[] && state == Running && dirty
    {
      this.run, this.attempt, this.job, this.input := run, attempt, job, input;
      this.flushInterval, this.latest := flushInterval, latest;
      sequence := if latest.None? then 0 else latest.value.snapshot.sequence;
      if latest.Some? && latest.value.snapshot.input == input {
        tracks, state := latest.value.snapshot.tracks, latest.value.snapshot.state;
        dirty := !latest.value.snapshot.state.Terminal()
                 && (latest.value.snapshot.attempt != attempt || latest.value.snapshot.job != job);
      } else {
        tracks, state, dirty := map[], Running, true;
      }
      changeSequence := 0;
      lastFlush := if latest.None? then None else Some(latest.value.snapshot.updatedAt);
      inFlight := None;
    }

    method MarkDirty()
      modifies this`dirty, this`changeSequence
      ensures dirty && changeSequence == old(changeSequence) + 1
    {
      dirty := true;
      changeSequence := changeSequence + 1;
    }

    method Plan(planned: seq<Track>) returns (ok: bool)
      requires Valid()
      modifies this`tracks, this`dirty, this`changeSequence
      ensures Valid()
      ensures ok <==>
                && planned != [] && UniqueKeys(planned) && |old(tracks) + TrackMap(planned)| <= 256
                && (forall i :: 0 <= i < |planned| && planned[i].key in old(tracks) ==>
                      Continues(old(tracks)[planned[i].key], planned[i]))
      ensures H.Config(tracks, state) == H.Changed(old(H.Config(tracks, state)), H.Plan(planned))
      ensures tracks == if ok then old(tracks) + TrackMap(planned) else old(tracks)
      ensures if ok then dirty && changeSequence == old(changeSequence) + 1
              else dirty == old(dirty) && changeSequence == old(changeSequence)
    {
      hide Continues, TransitionOk, TrackMap, Stores;
      var unique := KeysAreUnique(planned);
      FitsExact(tracks, planned);
      PlannedKeyed(tracks, planned);
      assert PlanOk(tracks, planned) <==>
               planned != [] && UniqueKeys(planned) && |tracks + TrackMap(planned)| <= 256 && Fits(tracks, planned);
      hide Fits, Keyed;
      if planned == [] || !unique || !Fits(tracks, planned) || |tracks + TrackMap(planned)| > MAX_TRACKS {
        return false;
      }
      tracks := tracks + TrackMap(planned);
      MarkDirty();
      ok := true;
    }

    method Update(track: Track) returns (ok: bool)
      requires Valid()
      modifies this`tracks, this`dirty, this`changeSequence
      ensures Valid()
      ensures ok <==>
                && track.key in old(tracks)
                && var before := old(tracks)[track.key];
                   || before.plan != track.plan
                   || (&& before.unit == track.unit && before.total == track.total
                       && (before.completed.Some? ==>
                             track.completed.Some? && before.completed.value <= track.completed.value)
                       && (before.status in {Completed, Failed, Cancelled} ==> track == before))
      ensures H.Config(tracks, state) == H.Changed(old(H.Config(tracks, state)), H.Update(track))
      ensures tracks == if ok then old(tracks)[track.key := track] else old(tracks)
      ensures if tracks != old(tracks) then dirty && changeSequence == old(changeSequence) + 1
              else dirty == old(dirty) && changeSequence == old(changeSequence)
    {
      if track.key !in tracks || !TransitionOk(tracks[track.key], track) {
        return false;
      }
      if tracks[track.key] != track {
        tracks := tracks[track.key := track];
        MarkDirty();
      }
      ok := true;
    }

    method SetState(next: Status) returns (ok: bool)
      requires Valid()
      modifies this`state, this`dirty, this`changeSequence
      ensures Valid()
      ensures ok <==> (old(state) in {Completed, Failed, Cancelled} ==> next == old(state))
      ensures H.Config(tracks, state) == H.Changed(old(H.Config(tracks, state)), H.SetState(next))
      ensures state == if ok then next else old(state)
      ensures if state != old(state) then dirty && changeSequence == old(changeSequence) + 1
              else dirty == old(dirty) && changeSequence == old(changeSequence)
    {
      if state.Terminal() && next != state {
        return false;
      }
      if next != state {
        state := next;
        MarkDirty();
      }
      ok := true;
    }

    /** One change of the reporter: plan, update, setState or the first half of heartbeat. */
    method Apply(change: Change) returns (ok: bool)
      requires Valid()
      modifies this`tracks, this`state, this`dirty, this`changeSequence
      ensures Valid()
      ensures tracks == match change
                        case Plan(planned) => if ok then old(tracks) + TrackMap(planned) else old(tracks)
                        case Update(t) => if ok then old(tracks)[t.key := t] else old(tracks)
                        case _ => old(tracks)
      ensures state == if ok && change.SetState? then change.next else old(state)
      // Every change of content moves the counter, so an awaited flush cannot miss it.
      ensures if tracks != old(tracks) || state != old(state) || change.Touch? || (ok && change.Plan?)
              then dirty && changeSequence == old(changeSequence) + 1
              else dirty == old(dirty) && changeSequence == old(changeSequence)
      ensures !change.Touch? ==>
                H.Config(tracks, state) == H.Changed(old(H.Config(tracks, state)), AsChange(change))
      ensures change.Touch? ==> ok
    {
      hide Continues, TransitionOk, TrackMap, Stores, Fits, Keyed, PlanOk, UniqueKeys, H.Changed;
      match change
      case Plan(planned) =>
        ok := this.Plan(planned);
      case Update(track) =>
        ok := this.Update(track);
      case SetState(next) =>
        ok := this.SetState(next);
      case Touch =>
        MarkDirty();
        ok := true;
    }

    predicate Due(force: bool, now: Instant)
      reads this
    {
      force || lastFlush.None? || now - lastFlush.value >= flushInterval
    }

    /** A flush up to the point where it awaits the store; it may also decide that there is nothing to do. */
    method BeginFlush(force: bool, now: Instant) returns (started: bool)
      requires Valid() && inFlight.None?
      modifies this`inFlight
      ensures Valid()
      ensures started <==>
                && dirty && 0 < |tracks| <= 256 && sequence < 9007199254740991
                && (force || lastFlush.None? || now - lastFlush.value >= flushInterval)
      ensures started <==> inFlight.Some?
      ensures started ==>
                && inFlight.value.change == changeSequence && inFlight.value.at == now
                && inFlight.value.snapshot
                   == Snapshot(run, attempt, job, sequence + 1, now, input, state, tracks,
                               if latest.None? then None else Some(latest.value.reference))
                && WellFormed(inFlight.value.snapshot)
    {
      if !dirty || tracks == map[] || !Due(force, now) || |tracks| > MAX_TRACKS || sequence >= MAX_SAFE_INTEGER {
        return false;
      }
      var snapshot := Snapshot(run, attempt, job, sequence + 1, now, input, state, tracks,
                               if latest.None? then None else Some(latest.value.reference));
      inFlight := Some(Flight(snapshot, changeSequence, now));
      started := true;
    }

    /** The rest of the flush: the publication returned a reference, or failed for good. */
    method Settle(outcome: Option<Ref>)
      requires Valid() && inFlight.Some?
      modifies this`inFlight, this`latest, this`sequence, this`lastFlush, this`dirty
      ensures Valid() && inFlight.None?
      ensures outcome.None? ==> latest == old(latest) && sequence == old(sequence) && dirty
      ensures outcome.Some? ==>
                && latest == Some(Stored(old(inFlight.value.snapshot), outcome.value))
                && sequence == old(sequence) + 1
                && lastFlush == Some(old(inFlight.value.at))
                && (dirty <==> old(inFlight.value.change) != changeSequence)
    {
      var flight := inFlight.value;
      inFlight := None;
      if outcome.Some? {
        latest := Some(Stored(flight.snapshot, outcome.value));
        sequence := flight.snapshot.sequence;
        lastFlush := Some(flight.at);
        if changeSequence == flight.change {
          dirty := false;
        }
      }
    }
  }

  /** Stored snapshots are numbered consecutively after `first` and link to one another. */
  ghost predicate Chained(first: nat, stored: seq<Stored>) {
    && (forall i :: 0 <= i < |stored| ==> stored[i].snapshot.sequence == first + 1 + i)
    && (forall i :: 0 < i < |stored| ==> stored[i].snapshot.previous == Some(stored[i - 1].reference))
  }

  /** One turn of the event loop; returns the snapshot that was stored in it, if any. */
  method Take(r: ProgressReporter, turn: Turn) returns (one: Option<Stored>)
    requires r.Valid()
    modifies r
    ensures r.Valid()
    ensures if one.None? then r.latest == old(r.latest) && r.sequence == old(r.sequence)
            else r.latest == one && r.sequence == old(r.sequence) + 1 && one.value.snapshot.sequence == r.sequence
                 && one.value.snapshot.previous
                      == (if old(r.latest).None? then None else Some(old(r.latest).value.reference))
  {
    one := None;
    match turn
    case Apply(change) =>
      var _ := r.Apply(change);
    case Start(force, now) =>
      if r.inFlight.None? {
        var _ := r.BeginFlush(force, now);
      }
    case Finish(outcome) =>
      if r.inFlight.Some? {
        r.Settle(outcome);
        one := if outcome.Some? then r.latest else None;
      }
  }

  /**
   No lost update.  Under any interleaving of changes with starting and settling flushes, whenever
   the reporter is not dirty its last stored snapshot holds exactly the current tracks and state,
   and its sequence is that snapshot's.  `stored` collects the snapshots that were stored.
   */
  method Interleave(r: ProgressReporter, turns: seq<Turn>) returns (stored: seq<Stored>)
    requires r.Valid()
    modifies r
    ensures !r.dirty ==>
              r.latest.Some? && r.latest.value.snapshot.tracks == r.tracks && r.latest.value.snapshot.state == r.state
    ensures r.sequence == (if r.latest.None? then 0 else r.latest.value.snapshot.sequence)
    ensures r.sequence == old(r.sequence) + |stored| && Chained(old(r.sequence), stored)
    ensures r.latest == if stored == [] then old(r.latest) else Some(stored[|stored| - 1])
  {
    stored := [];
    for i := 0 to |turns|
      invariant r.Valid()
      invariant r.sequence == old(r.sequence) + |stored| && Chained(old(r.sequence), stored)
      invariant r.latest == if stored == [] then old(r.latest) else Some(stored[|stored| - 1])
    {
      var one := Take(r, turns[i]);
      if one.Some? {
        stored := stored + [one.value];
      }
    }
  }
}
