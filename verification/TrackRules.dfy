/** How a single track and a reporter's set of tracks may change. */
module TrackRules {
  import opened Prelude
  import opened ProgressModel

  /** The transition check of the reporters. */
  predicate TransitionOk(previous: Track, current: Track) {
    if previous.key != current.key then false
    else if previous.plan != current.plan then true
    else if previous.unit != current.unit || previous.total != current.total then false
    else if previous.completed.Some? && current.completed.None? then false
    else if previous.completed.Some? && current.completed.value < previous.completed.value then false
    else !previous.status.Terminal() || current == previous
  }

  /** What a reader may rely on from a track to a later one: a new plan starts over, within a plan nothing goes back. */
  ghost predicate Continues(before: Track, after: Track) {
    before.plan == after.plan ==>
      && before.unit == after.unit && before.total == after.total
      && (before.completed.Some? ==> after.completed.Some? && before.completed.value <= after.completed.value)
      && (before.status in {Completed, Failed, Cancelled} ==> after == before)
  }

  /** The check passes exactly the changes that a reader may rely on. */
  lemma TransitionExact(previous: Track, current: Track)
    ensures TransitionOk(previous, current) <==> previous.key == current.key && Continues(previous, current)
  {
  }

  function TrackMap(tracks: seq<Track>): map<Id, Track> {
    if tracks == [] then map[] else TrackMap(tracks[..|tracks| - 1])[tracks[|tracks| - 1].key := tracks[|tracks| - 1]]
  }

  ghost predicate UniqueKeys(tracks: seq<Track>) {
    forall i, j :: 0 <= i < j < |tracks| ==> tracks[i].key != tracks[j].key
  }

  predicate Fits(current: map<Id, Track>, planned: seq<Track>) {
    forall i :: 0 <= i < |planned| && planned[i].key in current ==> TransitionOk(current[planned[i].key], planned[i])
  }

  method KeysAreUnique(planned: seq<Track>) returns (unique: bool)
    ensures unique <==> UniqueKeys(planned)
  {
    var seen: set<Id> := {};
    for i := 0 to |planned|
      invariant forall x :: x in seen <==> exists k :: 0 <= k < i && planned[k].key == x
      invariant forall j, k :: 0 <= j < k < i ==> planned[j].key != planned[k].key
    {
      if planned[i].key in seen {
        return false;
      }
      seen := seen + {planned[i].key};
    }
    return true;
  }

  /** The plan is acceptable on top of the current tracks. */
  ghost predicate PlanOk(current: map<Id, Track>, planned: seq<Track>) {
    && planned != []
    && UniqueKeys(planned)
    && Fits(current, planned)
    && |current + TrackMap(planned)| <= MAX_TRACKS
  }

  /** The tracks are listed under their own keys. */
  predicate Keyed(tracks: map<Id, Track>) {
    forall x :: x in tracks ==> tracks[x].key == x
  }

  /** A plan fits when each of its tracks continues the one it replaces. */
  lemma FitsExact(current: map<Id, Track>, planned: seq<Track>)
    requires Keyed(current)
    ensures Fits(current, planned) <==>
              forall i :: 0 <= i < |planned| && planned[i].key in current ==>
                Continues(current[planned[i].key], planned[i])
  {
  }

  lemma {:induction false} TrackMapKeys(tracks: seq<Track>)
    ensures forall x :: x in TrackMap(tracks) <==> exists i :: 0 <= i < |tracks| && tracks[i].key == x
    ensures forall x :: x in TrackMap(tracks) ==> TrackMap(tracks)[x].key == x && TrackMap(tracks)[x] in tracks
  {
    if tracks != [] {
      TrackMapKeys(tracks[..|tracks| - 1]);
      var last := tracks[|tracks| - 1];
      forall x ensures x in TrackMap(tracks) <==> exists i :: 0 <= i < |tracks| && tracks[i].key == x {
        if x == last.key {
          assert tracks[|tracks| - 1].key == x;
        } else if x in TrackMap(tracks[..|tracks| - 1]) {
          var i :| 0 <= i < |tracks| - 1 && tracks[..|tracks| - 1][i].key == x;
          assert tracks[i].key == x;
        }
      }
    }
  }

  lemma PlannedKeyed(current: map<Id, Track>, planned: seq<Track>)
    requires Keyed(current)
    ensures Keyed(current + TrackMap(planned))
  {
    TrackMapKeys(planned);
  }
}
