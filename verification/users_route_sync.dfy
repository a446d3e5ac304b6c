/** The users list page wires the users query codec into the route-query
    synchroniser. These lemmas are about that combination: the codec's
    output is already in normal form and parsing only sees the normal
    form, so a route change that changes the list state leaves the route
    canonical, while one that does not leaves the route as it was. */
module UsersRouteSync {
  import opened Wrappers
  import opened JsText
  import opened JsValue
  import opened UsersQuery
  import opened RouteQuerySync

  /** The parse/build pair the users list page hands to the synchroniser. */
  function UsersCodec(): Codec<ListQuery> {
    Codec(q => ParseUsersQuery(q), s => BuildUsersQuery(s))
  }

  /** The codec's parser is the users query parser. */
  lemma UsersCodecParse(q: RouteQuery)
    ensures UsersCodec().parse(q) == ParseUsersQuery(q)
  {
  }
  /** The codec's builder is the users query builder. */
  lemma UsersCodecBuild(s: ListQuery)
    ensures UsersCodec().build(s) == BuildUsersQuery(s)
  {
  }
  /** Both halves at once. */
  lemma UsersCodecParts(q: RouteQuery, s: ListQuery)
    ensures UsersCodec().parse(q) == ParseUsersQuery(q)
    ensures UsersCodec().build(s) == BuildUsersQuery(s)
  {
    UsersCodecParse(q);
    UsersCodecBuild(s);
  }

  /** The built query is its own normal form. */
  lemma BuildIsNormal(s: ListQuery)
    ensures NormalizeQuery(Lift(BuildUsersQuery(s))) == BuildUsersQuery(s)
  {
    NormalizeFixesSparse(BuildUsersQuery(s));
  }

  /** The users codec meets both conditions the synchroniser's settling
      lemmas ask of a codec: every built query is its own normal form, and
      parsing the built query of a well-formed state gives that state
      back. */
  lemma UsersCodecSettles()
    ensures forall s :: NormalizeQuery(Lift(UsersCodec().build(s))) == UsersCodec().build(s)
    ensures forall s | WellFormed(s) :: UsersCodec().parse(Lift(UsersCodec().build(s))) == s
  {
    var c := UsersCodec();
    forall s ensures NormalizeQuery(Lift(c.build(s))) == c.build(s) {
      UsersCodecParts(Lift(c.build(s)), s);
      BuildIsNormal(s);
    }
    forall s | WellFormed(s) ensures c.parse(Lift(c.build(s))) == s {
      UsersCodecParts(Lift(c.build(s)), s);
      RoundTrip(s);
    }
  }

  /** Parsing reads a route query only through its normal form. */
  lemma ParseSeesOnlyNormalForm(q: RouteQuery)
    ensures ParseUsersQuery(Lift(NormalizeQuery(q))) == ParseUsersQuery(q)
  {
    NormalizeReadsOnlyQueryStrings(q, "page");
    NormalizeReadsOnlyQueryStrings(q, "limit");
    NormalizeReadsOnlyQueryStrings(q, "search");
    ParseReadsOnlyQueryStrings(Lift(NormalizeQuery(q)), q);
  }

  /** Any route whose normal form is the built query of a well-formed
      state parses to that state. */
  lemma ParseOfEquivalentRoute(route: RouteQuery, s: ListQuery)
    requires WellFormed(s)
    requires NormalizeQuery(route) == BuildUsersQuery(s)
    ensures ParseUsersQuery(route) == s
  {
    ParseSeesOnlyNormalForm(route);
    RoundTrip(s);
  }

  /** `syncToRoute` followed by `syncFromRoute` never changes a well-formed
      list state, whether or not the first call wrote to the route and
      whatever the snapshot held. */
  lemma UsersToRouteThenFromRouteKeepsState(w: World<ListQuery>)
    requires WellFormed(w.state)
    ensures var t := Run(UsersCodec(), w, [ToRoute, FromRoute]);
      t.world.state == w.state && t.world.snapshot == None
  {
    UsersCodecParts(w.route, w.state);
    BuildIsNormal(w.state);
    if NormalizeQuery(w.route) == BuildUsersQuery(w.state) {
      ParseOfEquivalentRoute(w.route, w.state);
    }
    ToRouteThenFromRouteKeepsState(UsersCodec(), w);
  }

  /** The call sequence `syncFromRoute`, `syncToRoute`, `syncFromRoute`
      with the users codec, from no outstanding snapshot: the list state
      becomes the parsed route, the route ends up showing the canonical
      query of that state (written at most once), and the next
      `syncToRoute` makes no call. The page produces this sequence only
      when the first call changes the list state; `WatchedRouteChange`
      models which calls the page actually makes. */
  lemma UsersRouteChangeSettles(route: RouteQuery, state: ListQuery)
    ensures var p := ParseUsersQuery(route);
      var t := Run(UsersCodec(), World(route, state, None), [FromRoute, ToRoute, FromRoute]);
      && t.world.state == p
      && t.world.snapshot == None
      && NormalizeQuery(t.world.route) == BuildUsersQuery(p)
      && (NormalizeQuery(route) == BuildUsersQuery(p) ==> t.effects == [RouteChange(p), RouteChange(p)])
      && (NormalizeQuery(route) != BuildUsersQuery(p) ==> t.effects == [RouteChange(p), Replace(BuildUsersQuery(p))])
      && Run(UsersCodec(), t.world, [ToRoute]).effects == []
  {
    var p := ParseUsersQuery(route);
    UsersCodecParts(route, p);
    BuildIsNormal(p);
    RouteChangeSettles(UsersCodec(), route, state);
  }

  /** A route change on the users list page, from no outstanding
      snapshot: the list state becomes the parsed route, and when that
      changed the list state the route ends up on its canonical query. */
  lemma UsersWatchedRouteChange(route: RouteQuery, state: ListQuery)
    ensures var p := ParseUsersQuery(route);
      var t := WatchedRouteChange(UsersCodec(), World(route, state, None));
      t.world.state == p && (state != p ==> NormalizeQuery(t.world.route) == BuildUsersQuery(p))
  {
    var p := ParseUsersQuery(route);
    UsersCodecParts(route, p);
    BuildIsNormal(p);
    WatchedRouteChangeSettles(UsersCodec(), route, state);
  }

  /** On the users list page, a route that spells out the default limit
      (`?limit=40`) arriving while the list is at the defaults leaves the
      list state unchanged, so the store watcher never calls
      `syncToRoute`: the route keeps its non-canonical query. */
  lemma PageKeepsNonCanonicalRoute(route: RouteQuery)
    requires route == map["limit" := Str("40")]
    ensures WatchedRouteChange(UsersCodec(), World(route, Defaults, None)) == Trace(World(route, Defaults, None), [RouteChange(Defaults)])
    ensures NormalizeQuery(route) != BuildUsersQuery(Defaults)
  {
    assert ToQueryString(Get(route, "page")) == "";
    assert ToQueryString(Get(route, "limit")) == "40";
    assert ToQueryString(Get(route, "search")) == "";
    ParseIntForty();
    assert Trim("") == "";
    assert ParseUsersQuery(route) == Defaults;
    UsersCodecParts(route, Defaults);
    BuildIsNormal(Defaults);
    WatchedRouteChangeSettles(UsersCodec(), route, Defaults);
    var t := WatchedRouteChange(UsersCodec(), World(route, Defaults, None));
    assert t.world == World(route, Defaults, None);
    assert "limit" in NormalizeQuery(route);
    DefaultsBuildEmpty();
  }

  /** The example from the users list page: from the default state with
      an empty route, setting the search to "ann" and syncing both ways
      writes `{search: "ann"}` once and parses nothing back. */
  lemma SearchScenario()
    ensures var s := ListQuery(1, 40, "ann");
      var t := Run(UsersCodec(), World(map[], Defaults, None), [SetState(s), ToRoute, FromRoute]);
      && t.effects == [Replace(map["search" := "ann"])]
      && t.world.state == s
  {
    var c := UsersCodec();
    var s := ListQuery(1, 40, "ann");
    var w := World(map[], Defaults, None);
    var w1 := World(map[], s, None);
    RunSingle(c, w, SetState(s));
    assert BuildUsersQuery(s) == map["search" := "ann"];
    assert NormalizeQuery(Lift(BuildUsersQuery(s))) != NormalizeQuery(map[]) by {
      BuildIsNormal(s);
    }
    EchoSuppressed(c, w1);
    assert [SetState(s), ToRoute, FromRoute] == [SetState(s)] + [ToRoute, FromRoute];
    RunAppend(c, w, [SetState(s)], [ToRoute, FromRoute]);
  }
}
