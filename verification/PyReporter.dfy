/** The Python progress reporter: validated changes, throttled flushes, bounded retries. */
module PyReporter {
  import opened Prelude
  import opened ProgressModel
  import opened ProgressAgreement
  import opened ProgressReconcile
  import opened ProgressStores
  import opened TrackRules
  import H = TrackHistory

  datatype Config = Config(
    run: Id, attempt: Id, job: Option<string>, input: Input,
    flushInterval: nat, publishAttempts: nat)

  /** Validates each planned track against what it replaces, one at a time. */
  method Merge(current: map<Id, Track>, planned: seq<Track>) returns (r: Result<map<Id, Track>, Error>)
    requires UniqueKeys(planned)
    ensures r.Ok? <==> Fits(current, planned)
    ensures r.Err? ==> r.error == ValueError
    ensures Keyed(current) ==>
              (r.Ok? <==> forall i :: 0 <= i < |planned| && planned[i].key in current ==>
                            Continues(current[planned[i].key], planned[i]))
    ensures r.Ok? ==> r.value == current + TrackMap(planned)
  {
    var candidate := current;
    for i := 0 to |planned|
      invariant candidate == current + TrackMap(planned[..i])
      invariant forall k :: 0 <= k < i && planned[k].key in current ==>
                  TransitionOk(current[planned[k].key], planned[k])
    {
      FreshKey(planned, i);
      var track := planned[i];
      if track.key in candidate && !TransitionOk(candidate[track.key], track) {
        return Err(ValueError);
      }
      candidate := candidate[track.key := track];
      assert planned[..i + 1][..i] == planned[..i];
    }
    assert planned[..|planned|] == planned;
    r := Ok(candidate);
  }

  lemma FreshKey(planned: seq<Track>, i: nat)
    requires UniqueKeys(planned) && i < |planned|
    ensures planned[i].key !in TrackMap(planned[..i])
  {
    TrackMapKeys(planned[..i]);
  }

  /** The tries of one publication: each but the last failed transiently, and the last only if no more are allowed. */
  ghost predicate Retried(tries: seq<Result<Stored, Error>>, r: Result<Stored, Error>, allowed: nat) {
    && 0 < |tries| <= allowed && tries[|tries| - 1] == r
    && (forall i :: 0 <= i < |tries| - 1 ==> tries[i] == Err(OsError))
    && (r == Err(OsError) ==> |tries| == allowed)
  }

  /** As many operations fail as there are entries, one after the other. */
  predicate OnlyFailures(faults: seq<Fault>) {
    forall i :: 0 <= i < |faults| ==> faults[i] != Clean
  }

  class ProgressReporter {
    const config: Config
    const store: BucketProgressStore
    var tracks: map<Id, Track>
    var state: Status
    var sequence: nat
    var latest: Option<Stored>
    var dirty: bool
    var lastFlushAt: Option<Instant>

    ghost predicate Valid()
      reads this
    {
      && Keyed(tracks)
      && |tracks| <= MAX_TRACKS
      && config.publishAttempts >= 1
      && sequence == (if latest.None? then 0 else latest.value.snapshot.sequence)
    }

    /** Picks up where the latest snapshot of the same input left off. */
    constructor (config: Config, store: BucketProgressStore, latest: Option<Stored>)
      requires config.publishAttempts >= 1
      requires latest.Some? ==>
                 |latest.value.snapshot.tracks| <= MAX_TRACKS && Keyed(latest.value.snapshot.tracks)
      ensures Valid() && this.config == config && this.store == store && this.latest == latest
      ensures if latest.Some? && latest.value.snapshot.input == config.input
              then tracks == latest.value.snapshot.tracks && state == latest.value.snapshot.state
                   && (dirty <==>
                         && state !in {Completed, Failed, Cancelled}
                         && (latest.value.snapshot.attempt != config.attempt
                             || latest.value.snapshot.job != config.job))
              else tracks == map[] && state == Running && dirty
      ensures lastFlushAt == if latest.None? then None else Some(latest.value.snapshot.updatedAt)
      ensures H.Config(tracks, state) == H.Start(H.ChainOf(latest), config.input)
    {
      this.config, this.store, this.latest := config, store, latest;
      sequence := if latest.None? then 0 else latest.value.snapshot.sequence;
      if latest.Some? && latest.value.snapshot.input == config.input {
        var previous := latest.value.snapshot;
        tracks, state := previous.tracks, previous.state;
        dirty := !previous.state.Terminal() && (previous.attempt != config.attempt || previous.job != config.job);
      } else {
        tracks, state, dirty := map[], Running, true;
      }
      lastFlushAt := if latest.None? then None else Some(latest.value.snapshot.updatedAt);
    }

    /** Adds or reconciles planned tracks; a rejected plan changes nothing. */
    method Plan(planned: seq<Track>) returns (r: Result<(), Error>)
      requires Valid()
      modifies this`tracks, this`dirty
      ensures Valid()
      ensures r.Ok? <==>
                && planned != [] && UniqueKeys(planned) && |old(tracks) + TrackMap(planned)| <= 256
                && (forall i :: 0 <= i < |planned| && planned[i].key in old(tracks) ==>
                      Continues(old(tracks)[planned[i].key], planned[i]))
      ensures r.Err? ==> r.error == ValueError
      ensures H.Config(tracks, state) == H.Changed(old(H.Config(tracks, state)), H.Plan(planned))
      ensures if r.Ok? then tracks == old(tracks) + TrackMap(planned) && dirty
              else tracks == old(tracks) && dirty == old(dirty)
    {
      if planned == [] {
        return Err(ValueError);
      }
      var unique := KeysAreUnique(planned);
      if !unique {
        return Err(ValueError);
      }
      var candidate :- Merge(tracks, planned);
      if |candidate| > MAX_TRACKS {
        return Err(ValueError);
      }
      TrackMapKeys(planned);
      tracks, dirty := candidate, true;
      r := Ok(());
    }

    method Update(track: Track) returns (r: Result<(), Error>)
      requires Valid()
      modifies this`tracks, this`dirty
      ensures Valid()
      ensures r.Ok? <==>
                && track.key in old(tracks)
                && var before := old(tracks)[track.key];
                   || before.plan != track.plan
                   || (&& before.unit == track.unit && before.total == track.total
                       && (before.completed.Some? ==>
                             track.completed.Some? && before.completed.value <= track.completed.value)
                       && (before.status in {Completed, Failed, Cancelled} ==> track == before))
      ensures r.Err? ==> r.error == ValueError
      ensures H.Config(tracks, state) == H.Changed(old(H.Config(tracks, state)), H.Update(track))
      ensures tracks == if r.Ok? then old(tracks)[track.key := track] else old(tracks)
      ensures dirty == (old(dirty) || tracks != old(tracks))
    {
      if track.key !in tracks || !TransitionOk(tracks[track.key], track) {
        return Err(ValueError);
      }
      if tracks[track.key] != track {
        assert tracks[track.key := track].Keys == tracks.Keys;
        tracks, dirty := tracks[track.key := track], true;
      }
      r := Ok(());
    }

    method SetState(next: Status) returns (r: Result<(), Error>)
      requires Valid()
      modifies this`state, this`dirty
      ensures Valid()
      ensures r.Err? <==> old(state) in {Completed, Failed, Cancelled} && next != old(state)
      ensures r.Err? ==> r.error == ValueError
      ensures H.Config(tracks, state) == H.Changed(old(H.Config(tracks, state)), H.SetState(next))
      ensures state == (if r.Ok? then next else old(state)) && dirty == (old(dirty) || state != old(state))
    {
      if state.Terminal() && next != state {
        return Err(ValueError);
      }
      if next != state {
        state, dirty := next, true;
      }
      r := Ok(());
    }

    /** The snapshot that a flush at `now` would publish. */
    function Composed(now: Instant): Snapshot
      reads this
    {
      Snapshot(config.run, config.attempt, config.job, sequence + 1, now, config.input, state, tracks,
                        if latest.None? then None else Some(latest.value.reference))
    }

    predicate Due(force: bool, now: Instant)
      reads this
    {
      force || lastFlushAt.None? || now - lastFlushAt.value >= config.flushInterval
    }

    /**
     Publishes the current tracks when they are dirty and due.  Whatever transient failures the
     writes meet, the chain grows by at most this one snapshot: by exactly it when a value is
     returned, by nothing when nothing is returned.
     */
    method Flush(force: bool, now: Instant) returns (r: Result<Option<Stored>, Error>)
      requires Valid() && Coherent(store.env, store.Contents(), config.run)
      modifies this`latest, this`sequence, this`lastFlushAt, this`dirty
      modifies store`objects, store`claims, store`pointers, store`faults, store`outcomes
      ensures Valid() && Coherent(store.env, store.Contents(), config.run)
      ensures r == Ok(None) ==>
                store.Contents() == old(store.Contents()) && latest == old(latest) && dirty == old(dirty)
      ensures var s := Snapshot(config.run, config.attempt, config.job, old(sequence) + 1, now, config.input, state,
                                tracks,
                                if old(latest).None? then None else Some(old(latest).value.reference));
              && (r.Ok? && r.value.Some? ==>
                    && r.value == Some(StoredOf(store.env, s))
                    && Extended(store.env, old(store.Contents()), store.Contents(), s)
                    && latest == r.value && !dirty && lastFlushAt == Some(now))
              && (r.Err? ==>
                    && (store.claims == old(store.claims)
                        || Extended(store.env, old(store.Contents()), store.Contents(), s))
                    && latest == old(latest) && dirty == old(dirty) && lastFlushAt == old(lastFlushAt))
              // It succeeds when it is needed, the head accepts the snapshot, and failures leave it one try.
              && (old(dirty) && tracks != map[] && old(sequence) < MAX_SAFE_INTEGER
                  && (force || old(lastFlushAt).None? || now - old(lastFlushAt).value >= config.flushInterval)
                  && OnlyFailures(old(store.faults)) && |old(store.faults)| < config.publishAttempts
                  && Accepts(store.env, old(store.Contents()), s) ==>
                    r.Ok? && r.value.Some?)
      ensures r == Ok(None) <==>
                || !old(dirty)
                || (tracks != map[] && !force && old(lastFlushAt).Some?
                    && now - old(lastFlushAt).value < config.flushInterval)
      ensures old(dirty) && (tracks == map[] || (old(sequence) >= MAX_SAFE_INTEGER && r != Ok(None))) ==>
                r == Err(ValueError)
      // A reporter whose view of the head is stale can never publish again.
      ensures old(sequence) != Highest(old(store.claims), config.run) ==>
                store.claims == old(store.claims) && !(r.Ok? && r.value.Some?)
    {
      if !dirty {
        return Ok(None);
      }
      if tracks == map[] {
        return Err(ValueError);
      }
      if !Due(force, now) {
        return Ok(None);
      }
      if sequence + 1 > MAX_SAFE_INTEGER {
        return Err(ValueError);
      }
      var snapshot := Composed(now);
      var stored :- PublishWithRetry(snapshot);
      latest, sequence, lastFlushAt, dirty := Some(stored), snapshot.sequence, Some(now), false;
      r := Ok(Some(stored));
    }

    /** Tries again after a transient failure, and only then, as often as configured. */
    method PublishWithRetry(snapshot: Snapshot) returns (r: Result<Stored, Error>)
      requires config.publishAttempts >= 1 && WellFormed(snapshot) && snapshot.run == config.run
      requires Coherent(store.env, store.Contents(), config.run)
      modifies store`objects, store`claims, store`pointers, store`faults, store`outcomes
      ensures Coherent(store.env, store.Contents(), config.run)
      ensures store.claims == old(store.claims)
              || Extended(store.env, old(store.Contents()), store.Contents(), snapshot)
      ensures r.Ok? ==> store.claims != old(store.claims) && r.value == StoredOf(store.env, snapshot)
      ensures snapshot.sequence != Highest(old(store.claims), config.run) + 1 ==>
                r.Err? && store.claims == old(store.claims)
      ensures OnlyFailures(old(store.faults)) && |old(store.faults)| < config.publishAttempts
              && Accepts(store.env, old(store.Contents()), snapshot) ==>
                r.Ok?
      ensures OnlyFailures(old(store.faults)) && |old(store.faults)| >= config.publishAttempts ==>
                && r == Err(OsError) && store.Contents() == old(store.Contents())
                && store.faults == old(store.faults)[config.publishAttempts..]
      ensures old(store.outcomes) <= store.outcomes
              && Retried(store.outcomes[|old(store.outcomes)|..], r, config.publishAttempts)
    {
      ghost var was, faults, outcomes := store.Contents(), store.faults, store.outcomes;
      r := Err(RuntimeError);
      for attempt := 0 to config.publishAttempts
        invariant Coherent(store.env, store.Contents(), config.run)
        invariant store.claims == was.claims || Extended(store.env, was, store.Contents(), snapshot)
        invariant r.Err? && (attempt > 0 ==> r == Err(OsError))
        invariant |store.outcomes| == |outcomes| + attempt && store.outcomes[..|outcomes|] == outcomes
        invariant forall i :: |outcomes| <= i < |store.outcomes| ==> store.outcomes[i] == Err(OsError)
        invariant snapshot.sequence != Highest(was.claims, config.run) + 1 ==> store.claims == was.claims
        invariant OnlyFailures(faults) && attempt <= |faults| ==>
                    store.faults == faults[attempt..] && store.Contents() == was
        invariant OnlyFailures(faults) && Accepts(store.env, was, snapshot) ==> attempt <= |faults|
      {
        ghost var before := store.Contents();
        assert OnlyFailures(faults) && attempt < |faults| ==> Failing(store.faults);
        r := store.Publish(snapshot);
        PublicationEffect(store.env, before, store.Contents(), snapshot, r);
        if r.Ok? || r.error != OsError {
          return;
        }
      }
    }

    /** Marks the state dirty so that a fresh observation goes out once it is due. */
    method Heartbeat(now: Instant) returns (r: Result<Option<Stored>, Error>)
      requires Valid() && Coherent(store.env, store.Contents(), config.run)
      modifies this`latest, this`sequence, this`lastFlushAt, this`dirty
      modifies store`objects, store`claims, store`pointers, store`faults, store`outcomes
      ensures Valid() && Coherent(store.env, store.Contents(), config.run)
      ensures r == Ok(None) ==> store.Contents() == old(store.Contents()) && dirty
      ensures var s := Snapshot(config.run, config.attempt, config.job, old(sequence) + 1, now, config.input, state,
                                tracks,
                                if old(latest).None? then None else Some(old(latest).value.reference));
              && (r.Ok? && r.value.Some? ==>
                    && r.value == Some(StoredOf(store.env, s)) && !dirty
                    && Extended(store.env, old(store.Contents()), store.Contents(), s))
              && (tracks != map[] && old(sequence) < MAX_SAFE_INTEGER
                  && (old(lastFlushAt).None? || now - old(lastFlushAt).value >= config.flushInterval)
                  && OnlyFailures(old(store.faults)) && |old(store.faults)| < config.publishAttempts
                  && Accepts(store.env, old(store.Contents()), s) ==>
                    r.Ok? && r.value.Some?)
      ensures r == Ok(None) <==>
                tracks != map[] && old(lastFlushAt).Some? && now - old(lastFlushAt).value < config.flushInterval
    {
      dirty := true;
      r := Flush(false, now);
    }
  }

  /** The chain of `s.run` grew by exactly the snapshot `s`, which is now its only head. */
  ghost predicate Extended(env: Env, was: Store, now: Store, s: Snapshot) {
    && now.claims == AddClaim(env, was.claims, s)
    && s.sequence == Highest(was.claims, s.run) + 1
    && Highest(now.claims, s.run) == s.sequence
    && SoleAt(env, now, s.run, StoredOf(env, s))
  }
}
