/**
 What a reader of the published history may rely on: tracks only ever move forward.

 Reporters on any number of attempts take turns extending one chain of snapshots.  Each snapshot is
 recorded with the path of configurations its reporter went through since the snapshot before it.
 */
module TrackHistory {
  import opened Prelude
  import opened ProgressModel
  import opened TrackRules

  datatype Config = Config(tracks: map<Id, Track>, state: Status)

  const FRESH := Config(map[], Running)

  datatype Change = Plan(planned: seq<Track>) | Update(track: Track) | SetState(next: Status)

  ghost function Changed(c: Config, change: Change): Config {
    match change
    case Plan(planned) => if PlanOk(c.tracks, planned) then c.(tracks := c.tracks + TrackMap(planned)) else c
    case Update(t) =>
      if t.key in c.tracks && TransitionOk(c.tracks[t.key], t) then c.(tracks := c.tracks[t.key := t]) else c
    case SetState(next) => if c.state.Terminal() && next != c.state then c else c.(state := next)
  }

  datatype Published = Published(input: Input, config: Config)

  /**
   A reporter: the length of the chain when it last agreed with it, its path since then, and how
   much of the path the snapshot it is publishing has captured (zero when it is not publishing).
   */
  datatype Reporter = Reporter(input: Input, base: nat, path: seq<Config>, captured: nat)

  datatype World = World(chain: seq<Published>, links: seq<seq<Config>>, reporters: map<Id, Reporter>)

  /** What becomes of a publication: nothing stored, stored but not acknowledged, or returned. */
  datatype Fate = Lost | Unacknowledged | Returned

  datatype Event =
    | Open(who: Id, input: Input)
    | Make(who: Id, change: Change)
    | Capture(who: Id)
    | Settle(who: Id, fate: Fate)

  /** Where a reporter with this input starts from, on top of a chain. */
  function Start(chain: seq<Published>, input: Input): Config {
    if chain != [] && chain[|chain| - 1].input == input then chain[|chain| - 1].config else FRESH
  }

  /** The snapshot a reporter starts from, as the end of a chain. */
  function ChainOf(latest: Option<Stored>): seq<Published> {
    match latest
    case None => []
    case Some(o) => [Published(o.snapshot.input, Config(o.snapshot.tracks, o.snapshot.state))]
  }

  ghost function Next(w: World, e: Event): World {
    match e
    case Open(p, input) =>
      w.(reporters := w.reporters[p := Reporter(input, |w.chain|, [Start(w.chain, input)], 0)])
    case Make(p, change) =>
      if p !in w.reporters || w.reporters[p].path == [] then w
      else
        var r := w.reporters[p];
        w.(reporters := w.reporters[p := r.(path := r.path + [Changed(r.path[|r.path| - 1], change)])])
    case Capture(p) =>
      if p !in w.reporters || w.reporters[p].captured != 0 then w
      else w.(reporters := w.reporters[p := w.reporters[p].(captured := |w.reporters[p].path|)])
    case Settle(p, fate) =>
      if p !in w.reporters || !(0 < w.reporters[p].captured <= |w.reporters[p].path|) then w
      else
        var r := w.reporters[p];
        // A publication must follow the head it was prepared on.
        if fate.Lost? || r.base != |w.chain| then w.(reporters := w.reporters[p := r.(captured := 0)])
        else
          var w' := World(w.chain + [Published(r.input, r.path[r.captured - 1])], w.links + [r.path[..r.captured]],
                          w.reporters);
          w'.(reporters := w.reporters[p :=
            if fate.Returned? then Reporter(r.input, |w'.chain|, r.path[r.captured - 1..], 0) else r.(captured := 0)])
  }

  ghost function After(events: seq<Event>): World {
    if events == [] then World([], [], map[]) else Next(After(events[..|events| - 1]), events[|events| - 1])
  }

  // ---------------------------------------------------------------------------------------------
  // Paths of configurations

  ghost predicate ConfigStep(a: Config, b: Config) {
    && (forall x :: x in a.tracks ==> x in b.tracks && TransitionOk(a.tracks[x], b.tracks[x]))
    && (a.state.Terminal() ==> b.state == a.state)
  }

  ghost predicate IsPath(path: seq<Config>) {
    forall i :: 0 <= i < |path| - 1 ==> ConfigStep(path[i], path[i + 1])
  }

  /** No track comes back to a plan it has left. */
  ghost predicate NoReturn(path: seq<Config>) {
    forall x, i, j, k :: 0 <= i < j < k < |path| ==> StaysInPlan(path[i], path[j], path[k], x)
  }

  ghost predicate StaysInPlan(a: Config, b: Config, c: Config, x: Id) {
    x in a.tracks && x in b.tracks && x in c.tracks && a.tracks[x].plan == c.tracks[x].plan ==>
      b.tracks[x].plan == a.tracks[x].plan
  }

  /** Everything a reader sees only moves forward from `a` to `b`. */
  ghost predicate Forward(a: Config, b: Config) {
    && a.tracks.Keys <= b.tracks.Keys
    && (forall x {:trigger b.tracks[x]} :: x in a.tracks && a.tracks[x].plan == b.tracks[x].plan ==>
          && b.tracks[x].unit == a.tracks[x].unit && b.tracks[x].total == a.tracks[x].total
          && (a.tracks[x].completed.Some? ==>
                b.tracks[x].completed.Some? && b.tracks[x].completed.value >= a.tracks[x].completed.value)
          && (a.tracks[x].status in {Completed, Failed, Cancelled} ==> b.tracks[x] == a.tracks[x]))
    && (a.state in {Completed, Failed, Cancelled} ==> b.state == a.state)
  }

  lemma {:induction false} PathGoesForward(path: seq<Config>, i: nat, k: nat)
    requires IsPath(path) && NoReturn(path) && i <= k < |path|
    ensures Forward(path[i], path[k])
  {
    if i < k {
      PathGoesForward(path, i, k - 1);
      assert ConfigStep(path[k - 1], path[k]);
      forall x | x in path[i].tracks && path[i].tracks[x].plan == path[k].tracks[x].plan
        ensures Continues(path[i].tracks[x], path[k].tracks[x])
      {
        if i < k - 1 {
          assert StaysInPlan(path[i], path[k - 1], path[k], x);
        }
      }
    }
  }

  lemma ChangeIsStep(c: Config, change: Change)
    ensures ConfigStep(c, Changed(c, change))
  {
    if change.Plan? && PlanOk(c.tracks, change.planned) {
      TrackMapKeys(change.planned);
      var next := Changed(c, change);
      forall x | x in c.tracks ensures x in next.tracks && TransitionOk(c.tracks[x], next.tracks[x]) {
        if x in TrackMap(change.planned) {
          var i :| 0 <= i < |change.planned| && change.planned[i] == TrackMap(change.planned)[x];
          assert change.planned[i].key in c.tracks;
        }
      }
    }
  }

  // ---------------------------------------------------------------------------------------------
  // Snapshots lie on paths

  ghost predicate LinkOk(chain: seq<Published>, n: nat, path: seq<Config>)
    requires n < |chain|
  {
    && path != [] && IsPath(path)
    && path[0] == Start(chain[..n], chain[n].input)
    && path[|path| - 1] == chain[n].config
  }

  ghost predicate ReporterOk(chain: seq<Published>, r: Reporter) {
    && r.base <= |chain|
    && r.path != [] && IsPath(r.path)
    && r.path[0] == Start(chain[..r.base], r.input)
    && r.captured <= |r.path|
  }

  ghost predicate Inv(w: World) {
    && |w.links| == |w.chain|
    && (forall n :: 0 <= n < |w.chain| ==> LinkOk(w.chain, n, w.links[n]))
    && (forall p :: p in w.reporters ==> ReporterOk(w.chain, w.reporters[p]))
  }

  lemma AppendKeeps(chain: seq<Published>, one: Published, n: nat, path: seq<Config>, r: Reporter)
    ensures n < |chain| && LinkOk(chain, n, path) ==> LinkOk(chain + [one], n, path)
    ensures ReporterOk(chain, r) ==> ReporterOk(chain + [one], r)
  {
    if n < |chain| { assert (chain + [one])[..n] == chain[..n]; }
    if r.base <= |chain| { assert (chain + [one])[..r.base] == chain[..r.base]; }
  }

  lemma SettleKeepsInv(w: World, p: Id, fate: Fate)
    requires Inv(w) && p in w.reporters && !fate.Lost?
    requires var r := w.reporters[p]; 0 < r.captured <= |r.path| && r.base == |w.chain|
    ensures Inv(Next(w, Settle(p, fate)))
  {
    var w' := Next(w, Settle(p, fate));
    var r := w.reporters[p];
    assert ReporterOk(w.chain, r);
    var one := Published(r.input, r.path[r.captured - 1]);
    assert w'.chain == w.chain + [one] && w'.chain[..|w.chain|] == w.chain == w.chain[..r.base];
    forall n | 0 <= n < |w'.chain| ensures LinkOk(w'.chain, n, w'.links[n]) {
      if n < |w.chain| {
        assert LinkOk(w.chain, n, w.links[n]);
        AppendKeeps(w.chain, one, n, w.links[n], r);
      }
    }
    forall q | q in w'.reporters ensures ReporterOk(w'.chain, w'.reporters[q]) {
      AppendKeeps(w.chain, one, 0, [], w.reporters[q]);
      if q == p && fate.Returned? {
        assert w'.chain[..|w'.chain|] == w'.chain;
      }
    }
  }

  lemma ReporterReplaced(w: World, p: Id, r: Reporter)
    requires Inv(w) && ReporterOk(w.chain, r)
    ensures Inv(w.(reporters := w.reporters[p := r]))
  {
  }

  lemma StepKeepsInv(w: World, e: Event)
    requires Inv(w)
    ensures Inv(Next(w, e))
  {
    match e
    case Open(p, input) =>
      assert w.chain[..|w.chain|] == w.chain;
      ReporterReplaced(w, p, Reporter(input, |w.chain|, [Start(w.chain, input)], 0));
    case Make(p, change) =>
      if p in w.reporters {
        var r := w.reporters[p];
        var last := r.path[|r.path| - 1];
        ChangeIsStep(last, change);
        ReporterReplaced(w, p, r.(path := r.path + [Changed(last, change)]));
      }
    case Capture(p) =>
      if p in w.reporters {
        var r := w.reporters[p];
        assert ReporterOk(w.chain, r);
        ReporterReplaced(w, p, r.(captured := |r.path|));
      }
    case Settle(p, fate) =>
      if p in w.reporters {
        var r := w.reporters[p];
        if !fate.Lost? && r.base == |w.chain| && r.captured > 0 {
          SettleKeepsInv(w, p, fate);
        } else {
          ReporterReplaced(w, p, r.(captured := 0));
        }
      }
  }

  lemma {:induction false} InvAfter(events: seq<Event>)
    ensures Inv(After(events))
  {
    if events != [] {
      InvAfter(events[..|events| - 1]);
      StepKeepsInv(After(events[..|events| - 1]), events[|events| - 1]);
    }
  }

  /** The configurations gone through from snapshot i to snapshot k. */
  ghost function Stretch(w: World, i: nat, k: nat): seq<Config>
    requires i <= k < |w.chain| && |w.links| == |w.chain|
  {
    if k == i then [w.chain[i].config]
    else if w.links[k] == [] then Stretch(w, i, k - 1) else Stretch(w, i, k - 1) + w.links[k][1..]
  }

  ghost predicate SameInput(w: World, i: nat, k: nat)
    requires i <= k < |w.chain|
  {
    forall n :: i <= n <= k ==> w.chain[n].input == w.chain[i].input
  }

  lemma {:induction false} StretchIsPath(w: World, i: nat, k: nat)
    requires Inv(w) && i <= k < |w.chain| && SameInput(w, i, k)
    ensures var s := Stretch(w, i, k);
            s != [] && IsPath(s) && s[0] == w.chain[i].config && s[|s| - 1] == w.chain[k].config
  {
    if i < k {
      StretchIsPath(w, i, k - 1);
      var s, link := Stretch(w, i, k - 1), w.links[k];
      assert LinkOk(w.chain, k, link);
      assert link[0] == w.chain[k - 1].config;
      var t := s + link[1..];
      forall n | 0 <= n < |t| - 1 ensures ConfigStep(t[n], t[n + 1]) {
        if n < |s| - 1 {
          assert ConfigStep(s[n], s[n + 1]);
        } else {
          assert t[n] == link[n - (|s| - 1)] && t[n + 1] == link[n - (|s| - 1) + 1];
        }
      }
    }
  }

  /**
   Monotone published history.  Between two snapshots joined by a stretch of equal input, if no
   track returned to a plan it had left, then track keys only grow, a track under the same plan
   keeps its unit and total, never lowers or drops its count and is frozen once terminal, and a
   terminal run state never changes.
   */
  lemma MonotoneHistory(events: seq<Event>, i: nat, k: nat)
    requires i <= k < |After(events).chain| && SameInput(After(events), i, k)
    requires |After(events).links| == |After(events).chain| && NoReturn(Stretch(After(events), i, k))
    ensures Forward(After(events).chain[i].config, After(events).chain[k].config)
  {
    var w := After(events);
    InvAfter(events);
    StretchIsPath(w, i, k);
    var s := Stretch(w, i, k);
    PathGoesForward(s, 0, |s| - 1);
  }

  // ---------------------------------------------------------------------------------------------
  // The condition is the weakest on plan ids

  const INPUT := Input("file", "0")

  /** A track under the n-th plan that loses its count when the m-th plan takes over. */
  function TrackAt(plans: seq<Id>, m: nat, n: nat): Track
    requires n < |plans|
  {
    Track("build", plans[n], Running, None, Some(if n < m then 1 else 0), Some(10), Some("files"), None)
  }

  function ConfigAt(plans: seq<Id>, m: nat, n: nat): Config
    requires n < |plans|
  {
    Config(map["build" := TrackAt(plans, m, n)], Running)
  }

  function ChangeAt(plans: seq<Id>, m: nat, n: nat): Change
    requires n < |plans|
  {
    if n == 0 then Plan([TrackAt(plans, m, n)]) else Update(TrackAt(plans, m, n))
  }

  lemma NextConfig(plans: seq<Id>, m: nat, n: nat)
    requires n < |plans| && (n == m ==> 0 < n && plans[n] != plans[n - 1])
    ensures ConfigAt(plans, m, n)
         == Changed(if n == 0 then FRESH else ConfigAt(plans, m, n - 1), ChangeAt(plans, m, n))
  {
    if n == 0 {
      var t := TrackAt(plans, m, 0);
      assert [t][..0] == [];
      assert TrackMap([t]) == map["build" := t];
      assert |map["build" := t]| == 1;
      assert map[] + TrackMap([t]) == map["build" := t];
    }
  }

  /** One reporter has published the first n configurations, one by one. */
  ghost predicate HasPublished(w: World, plans: seq<Id>, m: nat, n: nat)
    requires n <= |plans|
  {
    && |w.chain| == n && (forall q :: 0 <= q < n ==> w.chain[q] == Published(INPUT, ConfigAt(plans, m, q)))
    && "reporter" in w.reporters
    && w.reporters["reporter"] == Reporter(INPUT, n, [if n == 0 then FRESH else ConfigAt(plans, m, n - 1)], 0)
  }

  lemma AfterOneMore(events: seq<Event>, e: Event)
    ensures After(events + [e]) == Next(After(events), e)
  {
    assert (events + [e])[..|events|] == events;
  }

  lemma PublishNext(w: World, plans: seq<Id>, m: nat, n: nat)
    requires 0 < m < |plans| && plans[m] != plans[m - 1] && n < |plans| && HasPublished(w, plans, m, n)
    ensures var made := Next(w, Make("reporter", ChangeAt(plans, m, n)));
            HasPublished(Next(Next(made, Capture("reporter")), Settle("reporter", Returned)), plans, m, n + 1)
  {
    NextConfig(plans, m, n);
    hide Changed, ConfigAt, FRESH;
    var made := Next(w, Make("reporter", ChangeAt(plans, m, n)));
    var path := made.reporters["reporter"].path;
    assert |path| == 2 && path[1] == ConfigAt(plans, m, n);
    assert path[1..] == [ConfigAt(plans, m, n)];
    var captured := Next(made, Capture("reporter"));
    assert captured.reporters["reporter"] == Reporter(INPUT, n, path, 2);
  }

  lemma {:induction false} PublishPlans(plans: seq<Id>, m: nat, n: nat) returns (events: seq<Event>)
    requires n <= |plans| && 0 < m < |plans| && plans[m] != plans[m - 1]
    ensures HasPublished(After(events), plans, m, n)
  {
    if n == 0 {
      events := [] + [Open("reporter", INPUT)];
      AfterOneMore([], Open("reporter", INPUT));
    } else {
      var before := PublishPlans(plans, m, n - 1);
      PublishNext(After(before), plans, m, n - 1);
      hide Next, HasPublished, After;
      var make := Make("reporter", ChangeAt(plans, m, n - 1));
      AfterOneMore(before, make);
      AfterOneMore(before + [make], Capture("reporter"));
      AfterOneMore(before + [make] + [Capture("reporter")], Settle("reporter", Returned));
      events := before + [make] + [Capture("reporter")] + [Settle("reporter", Returned)];
    }
  }

  /** Where the plan changes for the first time. */
  lemma {:induction false} FirstChange(plans: seq<Id>, i: nat, j: nat) returns (m: nat)
    requires i < j < |plans| && plans[i] != plans[j]
    ensures i < m <= j && plans[m] != plans[m - 1]
  {
    m := j;
    if plans[j] == plans[j - 1] {
      m := FirstChange(plans, i, j - 1);
    }
  }

  /**
   On plan ids alone no weaker condition will do: whenever a sequence of plans leaves a plan and comes
   back to it, some reporter publishes a track under just these plans, one snapshot each, in which the
   count falls from the one snapshot under the plan to the other.
   */
  lemma ReturningLosesCounts(plans: seq<Id>, i: nat, j: nat, k: nat) returns (events: seq<Event>)
    requires i < j < k < |plans| && plans[i] == plans[k] != plans[j]
    ensures var w := After(events);
            && |w.chain| == |plans| && SameInput(w, i, k)
            && (forall n :: 0 <= n < |plans| ==>
                  "build" in w.chain[n].config.tracks && w.chain[n].config.tracks["build"].plan == plans[n])
            && !Forward(w.chain[i].config, w.chain[k].config)
  {
    var m := FirstChange(plans, i, j);
    events := PublishPlans(plans, m, |plans|);
    var before, after := TrackAt(plans, m, i), TrackAt(plans, m, k);
    assert After(events).chain[i].config.tracks["build"] == before
           && After(events).chain[k].config.tracks["build"] == after;
  }
}
