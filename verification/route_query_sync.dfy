/** The route-query synchroniser (`useRouteQuerySync`): query
    normalisation, order-independent query equality, and the two sync
    operations whose only state is the snapshot of the last query this
    component pushed to the route. Each operation takes what it reads
    (the current route query, the consumer's state, the parse and build
    functions) as arguments and returns its calls to `replaceQuery` and
    `onRouteChange` as effects, so that a sequence of operations can be
    replayed against a world that reacts to those effects. */
module RouteQuerySync {
  import opened Wrappers
  import opened JsValue

  /** The route query as the router hands it over: loose values. */
  type RouteQuery = map<string, Value>

  /** A query of plain strings, as `build` produces and the snapshot keeps. */
  type Query = map<string, string>

  /** A query with no empty value: the form `normalizeQuery` produces. */
  predicate Sparse(q: Query) {
    forall k | k in q :: q[k] != ""
  }

  /** `normalizeQuery`: reads every entry as one string and drops the
      entries that read as the empty string. */
  function NormalizeQuery(q: RouteQuery): (r: Query)
    ensures Sparse(r)
    ensures r.Keys <= q.Keys
    ensures forall k | k in q :: k in r <==> ToQueryString(q[k]) != ""
    ensures forall k | k in r :: r[k] == ToQueryString(q[k])
  {
    map k | k in q && ToQueryString(q[k]) != "" :: ToQueryString(q[k])
  }

  /** A query of strings is left unchanged by normalisation exactly when it
      is sparse. */
  lemma NormalizeFixesSparse(q: Query)
    ensures NormalizeQuery(Lift(q)) == q <==> Sparse(q)
  {
    var n := NormalizeQuery(Lift(q));
    if Sparse(q) {
      assert n.Keys == q.Keys;
    }
  }

  /** Normalising is idempotent. */
  lemma NormalizeIdempotent(q: RouteQuery)
    ensures NormalizeQuery(Lift(NormalizeQuery(q))) == NormalizeQuery(q)
  {
    NormalizeFixesSparse(NormalizeQuery(q));
  }

  /** Normalisation keeps only what the conversion to one string sees: two
      queries whose entries read alike normalise alike. */
  lemma NormalizeReadsOnlyQueryStrings(q: RouteQuery, k: string)
    ensures ToQueryString(Get(Lift(NormalizeQuery(q)), k)) == ToQueryString(Get(q, k))
  {
  }

  /** A subset as large as its superset is the superset. */
  lemma SameSizeSubset<T>(x: set<T>, y: set<T>)
    requires x <= y && |x| == |y|
    ensures x == y
  {
    assert y == x + (y - x);
    assert |y| == |x| + |y - x|;
    assert y - x == {};
  }

  /** `queryEqual`: the same number of keys, and every key of `a` is a key
      of `b` with the same value. Holds exactly when the two maps are
      equal, whatever order their keys were inserted in. */
  function QueryEqual(a: Query, b: Query): (r: bool)
    ensures r <==> a == b
  {
    var r := |a.Keys| == |b.Keys| && forall k | k in a :: k in b && a[k] == b[k];
    if r then SameSizeSubset(a.Keys, b.Keys); r else r
  }

  /** A call the synchroniser makes into its consumer. */
  datatype Effect<S> =
    | Replace(query: Query)   // replaceQuery(query)
    | RouteChange(next: S)    // onRouteChange(next)

  /** The snapshot after an operation and the calls it made, in order. */
  datatype Step<S> = Step(snapshot: Option<Query>, effects: seq<Effect<S>>)

  /** `syncFromRoute`: when the normalised route equals the snapshot, the
      route change is the echo of this component's own write and is
      dropped; otherwise the raw route is parsed and handed to
      `onRouteChange` once. Either way the snapshot is cleared. */
  function SyncFromRoute<S>(snapshot: Option<Query>, route: RouteQuery, parse: RouteQuery -> S): (r: Step<S>)
    ensures r.snapshot == None
    ensures snapshot == Some(NormalizeQuery(route)) ==> r.effects == []
    ensures snapshot != Some(NormalizeQuery(route)) ==> r.effects == [RouteChange(parse(route))]
  {
    var norm := NormalizeQuery(route);
    if snapshot.Some? && QueryEqual(norm, snapshot.value) then Step(None, [])
    else Step(None, [RouteChange(parse(route))])
  }

  /** `syncToRoute`: builds the query for the consumer's state; when it
      normalises to the normalised route nothing happens; otherwise the
      normalised query becomes the snapshot and the built query, as built,
      is passed to `replaceQuery` once. */
  function SyncToRoute<S>(snapshot: Option<Query>, route: RouteQuery, build: S -> Query, state: S): (r: Step<S>)
    ensures NormalizeQuery(Lift(build(state))) == NormalizeQuery(route) ==> r == Step(snapshot, [])
    ensures NormalizeQuery(Lift(build(state))) != NormalizeQuery(route) ==>
      r == Step(Some(NormalizeQuery(Lift(build(state)))), [Replace(build(state))])
  {
    var nextQuery := build(state);
    var normNext := NormalizeQuery(Lift(nextQuery));
    if QueryEqual(normNext, NormalizeQuery(route)) then Step(snapshot, [])
    else Step(Some(normNext), [Replace(nextQuery)])
  }

  /** The caller-supplied pure pair. */
  datatype Codec<!S> = Codec(parse: RouteQuery -> S, build: S -> Query)

  /** Everything the synchroniser reads or writes: the route query, the
      consumer's state, and the snapshot. */
  datatype World<S> = World(route: RouteQuery, state: S, snapshot: Option<Query>)

  /** What can happen: the user navigates (the route changes without this
      component), the consumer changes its own state, or one of the two
      sync operations runs. */
  datatype Event<S> = Navigate(query: RouteQuery) | SetState(next: S) | FromRoute | ToRoute

  /** The world after a run and every call made during it, in order. */
  datatype Trace<S> = Trace(world: World<S>, effects: seq<Effect<S>>)

  /** How the consumer reacts to the calls: `replaceQuery` makes the route
      show the written query, `onRouteChange` installs the parsed state. */
  function Perform<S>(w: World<S>, effects: seq<Effect<S>>): World<S>
    decreases |effects|
  {
    if effects == [] then w
    else
      var w' := match effects[0]
        case Replace(q) => w.(route := Lift(q))
        case RouteChange(next) => w.(state := next);
      Perform(w', effects[1..])
  }

  function Next<S>(c: Codec<S>, w: World<S>, e: Event<S>): Trace<S> {
    match e
    case Navigate(q) => Trace(w.(route := q), [])
    case SetState(next) => Trace(w.(state := next), [])
    case FromRoute =>
      var step := SyncFromRoute(w.snapshot, w.route, c.parse);
      Trace(Perform(w.(snapshot := step.snapshot), step.effects), step.effects)
    case ToRoute =>
      var step := SyncToRoute(w.snapshot, w.route, c.build, w.state);
      Trace(Perform(w.(snapshot := step.snapshot), step.effects), step.effects)
  }

  /** Replays events through a step function that returns the next state
      and the calls made, collecting the calls in order. */
  function Replay<W, E, F>(step: (W, E) -> (W, seq<F>), w: W, events: seq<E>): (W, seq<F>)
    decreases |events|
  {
    if events == [] then (w, [])
    else
      var first := step(w, events[0]);
      var rest := Replay(step, first.0, events[1..]);
      (rest.0, first.1 + rest.1)
  }

  /** Replaying `a + b` replays `a`, then `b` from where `a` left off. */
  lemma {:induction false} ReplayAppend<W, E, F>(step: (W, E) -> (W, seq<F>), w: W, a: seq<E>, b: seq<E>)
    ensures var ra := Replay(step, w, a);
      var rb := Replay(step, ra.0, b);
      Replay(step, w, a + b) == (rb.0, ra.1 + rb.1)
    decreases |a|
  {
    if a == [] {
      assert a + b == b;
      var rb := Replay(step, w, b);
      assert Replay(step, w, a).1 + rb.1 == rb.1;
    } else {
      var first := step(w, a[0]);
      var ra := Replay(step, first.0, a[1..]);
      var rb := Replay(step, ra.0, b);
      assert (a + b)[0] == a[0];
      assert (a + b)[1..] == a[1..] + b;
      ReplayAppend(step, first.0, a[1..], b);
      assert first.1 + (ra.1 + rb.1) == (first.1 + ra.1) + rb.1;
    }
  }

  function Stepper<S>(c: Codec<S>): (World<S>, Event<S>) -> (World<S>, seq<Effect<S>>) {
    (w: World<S>, e: Event<S>) => var t := Next(c, w, e); (t.world, t.effects)
  }

  /** Replays a sequence of events in the world, collecting every call made. */
  function Run<S>(c: Codec<S>, w: World<S>, events: seq<Event<S>>): Trace<S> {
    var r := Replay(Stepper(c), w, events);
    Trace(r.0, r.1)
  }

  /** One event replays as its own step. */
  lemma RunSingle<S>(c: Codec<S>, w: World<S>, e: Event<S>)
    ensures Run(c, w, [e]) == Next(c, w, e)
  {
    var t := Next(c, w, e);
    assert Stepper(c)(w, e) == (t.world, t.effects);
    assert [e][1..] == [];
    assert Replay(Stepper(c), t.world, []) == (t.world, []);
    assert t.effects + [] == t.effects;
  }

  /** Replaying `a + b` replays `a`, then `b` from where `a` left off. */
  lemma RunAppend<S>(c: Codec<S>, w: World<S>, a: seq<Event<S>>, b: seq<Event<S>>)
    ensures var ta := Run(c, w, a);
      var tb := Run(c, ta.world, b);
      Run(c, w, a + b) == Trace(tb.world, ta.effects + tb.effects)
  {
    ReplayAppend(Stepper(c), w, a, b);
  }

  /** A single call: the world after the consumer handles it. */
  lemma PerformOne<S>(w: World<S>, e: Effect<S>)
    ensures Perform(w, [e]) == match e
      case Replace(q) => w.(route := Lift(q))
      case RouteChange(next) => w.(state := next)
  {
    assert [e][1..] == [];
  }

  /** One `syncFromRoute` in the world: the echo of the snapshot is
      dropped, anything else installs the parsed route. */
  lemma NextFromRoute<S>(c: Codec<S>, w: World<S>)
    ensures Next(c, w, FromRoute) ==
      if w.snapshot == Some(NormalizeQuery(w.route)) then Trace(w.(snapshot := None), [])
      else Trace(w.(snapshot := None, state := c.parse(w.route)), [RouteChange(c.parse(w.route))])
  {
    PerformOne(w.(snapshot := None), RouteChange(c.parse(w.route)));
  }

  /** One `syncToRoute` in the world: nothing when the route already
      shows the built query, otherwise one write that the route reflects. */
  lemma NextToRoute<S>(c: Codec<S>, w: World<S>)
    ensures var q := c.build(w.state);
      Next(c, w, ToRoute) ==
        if NormalizeQuery(Lift(q)) == NormalizeQuery(w.route) then Trace(w, [])
        else Trace(w.(route := Lift(q), snapshot := Some(NormalizeQuery(Lift(q)))), [Replace(q)])
  {
    var q := c.build(w.state);
    PerformOne(w.(snapshot := Some(NormalizeQuery(Lift(q)))), Replace(q));
  }

  /** Replays two events. */
  lemma RunPair<S>(c: Codec<S>, w: World<S>, e1: Event<S>, e2: Event<S>)
    ensures var t1 := Next(c, w, e1);
      var t2 := Next(c, t1.world, e2);
      Run(c, w, [e1, e2]) == Trace(t2.world, t1.effects + t2.effects)
  {
    assert [e1, e2] == [e1] + [e2];
    RunAppend(c, w, [e1], [e2]);
    RunSingle(c, w, e1);
    RunSingle(c, Next(c, w, e1).world, e2);
  }

  /** Echo suppression: when `syncToRoute` writes and the route then shows
      the written query, the following `syncFromRoute` makes no call. The
      only call of the pair is the one write, the consumer's state is
      untouched, and the snapshot is spent. */
  lemma EchoSuppressed<S>(c: Codec<S>, w: World<S>)
    requires NormalizeQuery(Lift(c.build(w.state))) != NormalizeQuery(w.route)
    ensures var t := Run(c, w, [ToRoute, FromRoute]);
      && t.effects == [Replace(c.build(w.state))]
      && t.world == World(Lift(c.build(w.state)), w.state, None)
  {
    var q := c.build(w.state);
    PerformOne(w.(snapshot := Some(NormalizeQuery(Lift(q)))), Replace(q));
    var t1 := Next(c, w, ToRoute);
    assert t1 == Trace(World(Lift(q), w.state, Some(NormalizeQuery(Lift(q)))), [Replace(q)]);
    var t2 := Next(c, t1.world, FromRoute);
    assert t2 == Trace(World(Lift(q), w.state, None), []);
    RunPair(c, w, ToRoute, FromRoute);
  }

  /** The echo is suppressed once only: a second `syncFromRoute` on the
      same route parses it and calls `onRouteChange`. */
  lemma EchoSuppressedOnce<S>(c: Codec<S>, w: World<S>)
    requires NormalizeQuery(Lift(c.build(w.state))) != NormalizeQuery(w.route)
    ensures var t := Run(c, w, [ToRoute, FromRoute, FromRoute]);
      t.effects == [Replace(c.build(w.state)), RouteChange(c.parse(Lift(c.build(w.state))))]
  {
    var q := c.build(w.state);
    EchoSuppressed(c, w);
    var w2 := World(Lift(q), w.state, None);
    PerformOne(w2, RouteChange(c.parse(Lift(q))));
    RunSingle(c, w2, FromRoute);
    var pair: seq<Event<S>> := [ToRoute, FromRoute];
    assert [ToRoute, FromRoute, FromRoute] == pair + [FromRoute];
    RunAppend(c, w, [ToRoute, FromRoute], [FromRoute]);
  }

  /** A navigation that does not match the snapshot reaches the consumer:
      its state becomes the parsed route. */
  lemma ExternalChangePropagates<S>(c: Codec<S>, w: World<S>, q: RouteQuery)
    requires w.snapshot != Some(NormalizeQuery(q))
    ensures var t := Run(c, w, [Navigate(q), FromRoute]);
      && t.effects == [RouteChange(c.parse(q))]
      && t.world == World(q, c.parse(q), None)
  {
    PerformOne(World(q, w.state, None), RouteChange(c.parse(q)));
    RunPair(c, w, Navigate(q), FromRoute);
  }

  /** The guard cannot tell an echo from a navigation that happens to land
      on the query last pushed: such a navigation is dropped. */
  lemma MatchingNavigationIsDropped<S>(c: Codec<S>, w: World<S>, q: RouteQuery)
    requires w.snapshot == Some(NormalizeQuery(q))
    ensures var t := Run(c, w, [Navigate(q), FromRoute]);
      && t.effects == []
      && t.world == World(q, w.state, None)
  {
    RunPair(c, w, Navigate(q), FromRoute);
  }

  /** For a codec whose built query is its own normal form at `state`,
      `syncToRoute` followed by `syncFromRoute` keeps the consumer's state
      whenever parsing a route whose normal form is that query gives the
      state back. */
  lemma ToRouteThenFromRouteKeepsState<S>(c: Codec<S>, w: World<S>)
    requires NormalizeQuery(Lift(c.build(w.state))) == c.build(w.state)
    requires NormalizeQuery(w.route) == c.build(w.state) ==> c.parse(w.route) == w.state
    ensures var t := Run(c, w, [ToRoute, FromRoute]);
      t.world.state == w.state && t.world.snapshot == None
  {
    if NormalizeQuery(Lift(c.build(w.state))) != NormalizeQuery(w.route) {
      EchoSuppressed(c, w);
    } else {
      RunPair(c, w, ToRoute, FromRoute);
      NextToRoute(c, w);
      NextFromRoute(c, w);
    }
  }

  /** The round after the state has taken the parsed route, for a codec
      whose built query is its own normal form: `syncToRoute` writes only
      when the route is not in canonical form, and the `syncFromRoute`
      after it leaves the state as it is. */
  lemma SecondRound<S>(c: Codec<S>, route: RouteQuery)
    requires NormalizeQuery(Lift(c.build(c.parse(route)))) == c.build(c.parse(route))
    ensures var p := c.parse(route);
      var t := Run(c, World(route, p, None), [ToRoute, FromRoute]);
      && t.world.state == p
      && t.world.snapshot == None
      && NormalizeQuery(t.world.route) == c.build(p)
      && (NormalizeQuery(route) == c.build(p) ==> t.effects == [RouteChange(p)])
      && (NormalizeQuery(route) != c.build(p) ==> t.effects == [Replace(c.build(p))])
  {
    var p := c.parse(route);
    var w1 := World(route, p, None);
    if NormalizeQuery(route) != c.build(p) {
      EchoSuppressed(c, w1);
    } else {
      RunPair(c, w1, ToRoute, FromRoute);
      NextToRoute(c, w1);
      NextFromRoute(c, w1);
    }
  }

  /** The calls `syncFromRoute`, `syncToRoute`, `syncFromRoute`, for a
      codec whose built query of the parsed route is its own normal form.
      Starting with no snapshot, `syncFromRoute` installs the parsed
      route; `syncToRoute` writes the canonical query only if the route
      was not already canonical; the `syncFromRoute` after that write is
      suppressed. Afterwards the state is the parsed route, the route
      shows its canonical query, and a further `syncToRoute` makes no
      call. A consumer wired with watchers makes the middle call only when
      the first one changed its state (`WatchedRouteChange`). */
  lemma RouteChangeSettles<S>(c: Codec<S>, route: RouteQuery, state: S)
    requires NormalizeQuery(Lift(c.build(c.parse(route)))) == c.build(c.parse(route))
    ensures var p := c.parse(route);
      var t := Run(c, World(route, state, None), [FromRoute, ToRoute, FromRoute]);
      && t.world.state == p
      && t.world.snapshot == None
      && NormalizeQuery(t.world.route) == c.build(p)
      && (NormalizeQuery(route) == c.build(p) ==> t.effects == [RouteChange(p), RouteChange(p)])
      && (NormalizeQuery(route) != c.build(p) ==> t.effects == [RouteChange(p), Replace(c.build(p))])
      && Run(c, t.world, [ToRoute]).effects == []
  {
    var p := c.parse(route);
    var w := World(route, state, None);
    var w1 := World(route, p, None);
    NextFromRoute(c, w);
    RunSingle(c, w, FromRoute);
    var head: seq<Event<S>> := [FromRoute];
    assert [FromRoute, ToRoute, FromRoute] == head + [ToRoute, FromRoute];
    RunAppend(c, w, head, [ToRoute, FromRoute]);
    SecondRound(c, route);
    var w2 := Run(c, w1, [ToRoute, FromRoute]).world;
    RunSingle(c, w2, ToRoute);
    NextToRoute(c, w2);
  }

  /** A consumer wired up as in the usage example (the users list page):
      a route watcher calls `syncFromRoute`, and a state watcher calls
      `syncToRoute` only when that call changed the state. A write by
      `syncToRoute` changes the route, so the route watcher then calls
      `syncFromRoute` once more. This is one change of the route as such a
      consumer handles it. */
  function WatchedRouteChange<S(==)>(c: Codec<S>, w: World<S>): Trace<S> {
    var t1 := Next(c, w, FromRoute);
    if t1.world.state == w.state then t1
    else
      var t2 := Next(c, t1.world, ToRoute);
      if t2.world.route == t1.world.route then Trace(t2.world, t1.effects + t2.effects)
      else
        var t3 := Next(c, t2.world, FromRoute);
        Trace(t3.world, t1.effects + t2.effects + t3.effects)
  }

  /** A route change handled by watchers, from no outstanding snapshot,
      for a codec whose built query of the parsed route is its own normal
      form. The state always becomes the parsed route. The route is
      rewritten to the canonical query exactly when the state changed and
      the route was not already canonical. When the state was already the
      parsed route, the state watcher does not fire and the route keeps
      whatever form it had. */
  lemma WatchedRouteChangeSettles<S>(c: Codec<S>, route: RouteQuery, state: S)
    requires NormalizeQuery(Lift(c.build(c.parse(route)))) == c.build(c.parse(route))
    ensures var p := c.parse(route);
      var t := WatchedRouteChange(c, World(route, state, None));
      && t.world.state == p
      && t.world.snapshot == None
      && (state == p || NormalizeQuery(route) == c.build(p) ==>
            t.world.route == route && t.effects == [RouteChange(p)])
      && (state != p && NormalizeQuery(route) != c.build(p) ==>
            NormalizeQuery(t.world.route) == c.build(p)
            && t.effects == [RouteChange(p), Replace(c.build(p))])
      && (NormalizeQuery(t.world.route) == c.build(p) <==>
            state != p || NormalizeQuery(route) == c.build(p))
  {
    var p := c.parse(route);
    var q := c.build(p);
    var w := World(route, state, None);
    var w1 := World(route, p, None);
    NextFromRoute(c, w);
    assert Next(c, w, FromRoute) == Trace(w1, [RouteChange(p)]);
    if state != p {
      NextToRoute(c, w1);
      if NormalizeQuery(route) != q {
        var w2 := World(Lift(q), p, Some(q));
        assert Next(c, w1, ToRoute) == Trace(w2, [Replace(q)]);
        assert Lift(q) != route;
        NextFromRoute(c, w2);
        assert Next(c, w2, FromRoute) == Trace(World(Lift(q), p, None), []);
        assert [RouteChange(p)] + [Replace(q)] + [] == [RouteChange(p), Replace(q)];
      } else {
        assert Next(c, w1, ToRoute) == Trace(w1, []);
        assert [RouteChange(p)] + [] == [RouteChange(p)];
      }
    }
  }
}
