/** From a source address and a routing key to destinations (internal/routing/application/router.go). */
module Router {
  import opened Wrappers
  import opened Sorting
  import opened Matcher
  import opened Addresses

  datatype Route = Route(destination: string, priority: int)

  datatype RouteError = SourceNotFound | UnsupportedKind

  /** What is asked of the router: the source's kind, the routing key, the headers. */
  datatype Query = Query(kind: Kind, key: string, headers: map<string, string>, glob: Glob)

  /** The binding lets the message through, by the rules of the source's kind. */
  ghost predicate Applies(b: Binding, q: Query) {
    match q.kind
    case Fanout => Accepts(q.key, q.headers, "#", b.filter, q.glob)
    case Direct => b.routingKey == q.key && Accepts(q.key, q.headers, b.routingKey, b.filter, q.glob)
    case _ => Accepts(q.key, q.headers, b.routingKey, b.filter, q.glob)
  }

  ghost predicate Reaches(routes: seq<Route>, destination: string) {
    exists i :: 0 <= i < |routes| && routes[i].destination == destination
  }

  /** The routes after the first n bindings of a listing: each new existing destination, in turn. */
  ghost function Picked(list: seq<Binding>, n: nat, known: set<string>, q: Query): seq<Route>
    requires n <= |list|
  {
    if n == 0 then []
    else
      var b, before := list[n - 1], Picked(list, n - 1, known, q);
      if Applies(b, q) && b.destination in known && !Reaches(before, b.destination)
      then before + [Route(b.destination, b.priority)] else before
  }

  predicate Routed(kind: Kind) {
    kind == Fanout || kind == Topic || kind == Direct
  }

  predicate HigherRoute(x: Route, y: Route) {
    x.priority > y.priority
  }

  /** The routes of a source: itself for a queue, what its bindings offer otherwise. */
  ghost predicate IsResolution(addresses: map<string, Address>, bindings: map<string, Binding>,
                               source: string, key: string, headers: map<string, string>, glob: Glob,
                               routes: seq<Route>) {
    && source in addresses
    && match addresses[source].kind
       case Queue => routes == [Route(source, 0)]
       case Temporary => routes == [Route(source, 0)]
       case OtherKind => false
       case kind => exists list :: IsListing(bindings, source, list)
                      && routes == Picked(list, |list|, addresses.Keys, Query(kind, key, headers, glob))
  }

  method Resolve(addresses: map<string, Address>, bindings: map<string, Binding>,
                 source: string, key: string, headers: map<string, string>, glob: Glob)
    returns (r: Result<seq<Route>, RouteError>)
    requires Keyed(bindings)
    ensures match r
            case Ok(routes) => IsResolution(addresses, bindings, source, key, headers, glob, routes)
            case Err(SourceNotFound) => source !in addresses
            case Err(UnsupportedKind) => source in addresses && addresses[source].kind == OtherKind
    ensures r.Ok? && source != "" && Routed(addresses[source].kind) ==>
              forall d :: Reaches(r.value, d) <==>
                d in addresses && Carried(bindings, addresses[source].kind, source, d, key, headers, glob)
  {
    hide Applies, Accepts, IsListing, Carries, Reaches;
    if source !in addresses {
      return Err(SourceNotFound);
    }
    var src := addresses[source];
    if src.kind == Queue || src.kind == Temporary {
      return Ok([Route(source, 0)]);
    }
    if !Routed(src.kind) {
      return Err(UnsupportedKind);
    }
    var list := ListBindings(bindings, source);
    var out := Collect(list, addresses.Keys, src.kind, key, headers, glob);
    ListingOrdered(bindings, source, list);
    PickedOrdered(list, |list|, addresses.Keys, Query(src.kind, key, headers, glob));
    SortOfOrdered(out, HigherRoute);
    out := Sort(out, HigherRoute);
    r := Ok(out);
    if source != "" {
      forall d {
        ReachedExactlyWhen(addresses, bindings, source, key, headers, glob, out, d);
      }
    }
  }

  /** The loop of Resolve over the listed bindings. */
  method Collect(list: seq<Binding>, known: set<string>, kind: Kind, key: string, headers: map<string, string>, glob: Glob)
    returns (out: seq<Route>)
    requires Routed(kind)
    ensures out == Picked(list, |list|, known, Query(kind, key, headers, glob))
  {
    hide Accepts;
    ghost var q := Query(kind, key, headers, glob);
    var seen: set<string> := {};
    out := [];
    for i := 0 to |list|
      invariant out == Picked(list, i, known, q)
      invariant forall d :: d in seen <==> Reaches(out, d)
    {
      var b := list[i];
      var pattern := b.routingKey;
      if kind == Fanout {
        pattern := "#";
      }
      if kind == Direct && pattern != key {
        continue;
      }
      var ok := Match(key, headers, pattern, b.filter, glob);
      if !ok {
        continue;
      }
      if b.destination in seen {
        continue;
      }
      if b.destination !in known {
        continue;
      }
      ReachesOneMore(out, Route(b.destination, b.priority));
      seen := seen + {b.destination};
      out := out + [Route(b.destination, b.priority)];
    }
  }

  lemma {:induction false} ReachesOneMore(routes: seq<Route>, r: Route)
    ensures forall d :: Reaches(routes + [r], d) <==> Reaches(routes, d) || d == r.destination
  {
    forall d
      ensures Reaches(routes + [r], d) <==> Reaches(routes, d) || d == r.destination
    {
      if Reaches(routes, d) {
        var i :| 0 <= i < |routes| && routes[i].destination == d;
        assert (routes + [r])[i].destination == d;
      }
      assert (routes + [r])[|routes|] == r;
    }
  }

  // ---------------------------------------------------------------- what resolution promises

  /** A binding of the listing lets the message through to an existing destination. */
  ghost predicate Offers(b: Binding, destination: string, known: set<string>, q: Query) {
    Applies(b, q) && b.destination == destination && destination in known
  }

  /** The route is the best offer for its destination among the first n bindings. */
  ghost predicate BestOffer(r: Route, list: seq<Binding>, n: nat, known: set<string>, q: Query)
    requires n <= |list|
  {
    && (exists i :: 0 <= i < n && Offers(list[i], r.destination, known, q) && list[i].priority == r.priority)
    && (forall i :: 0 <= i < n && Offers(list[i], r.destination, known, q) ==> list[i].priority <= r.priority)
  }

  ghost predicate ByPriority(list: seq<Binding>) {
    forall i, j :: 0 <= i < j < |list| ==> list[i].priority >= list[j].priority
  }

  lemma {:induction false} ListingOrdered(bindings: map<string, Binding>, source: string, list: seq<Binding>)
    requires IsListing(bindings, source, list)
    ensures ByPriority(list)
  {
    hide LexLess;
    forall i, j | 0 <= i < j < |list|
      ensures list[i].priority >= list[j].priority
    {
      assert !Before(list[j], list[i]);
    }
  }

  lemma {:induction false} PickedOrdered(list: seq<Binding>, n: nat, known: set<string>, q: Query)
    requires n <= |list| && ByPriority(list)
    ensures Ordered(Picked(list, n, known, q), HigherRoute)
    ensures n < |list| ==> forall r :: r in Picked(list, n, known, q) ==> r.priority >= list[n].priority
  {
    hide Applies;
    if n > 0 {
      PickedOrdered(list, n - 1, known, q);
    }
  }

  /**
   Every destination that exists and has a matching binding among the first n is there exactly
   once, at its highest matching priority, and nothing else is.
   */
  ghost predicate BestRoutes(routes: seq<Route>, list: seq<Binding>, n: nat, known: set<string>, q: Query)
    requires n <= |list|
  {
    && (forall i, j :: 0 <= i < j < |routes| ==> routes[i].destination != routes[j].destination)
    && (forall i :: 0 <= i < |routes| ==> BestOffer(routes[i], list, n, known, q))
    && (forall i :: 0 <= i < n && Offers(list[i], list[i].destination, known, q) ==>
          Reaches(routes, list[i].destination))
  }

  lemma {:induction false} PickedIsBest(list: seq<Binding>, n: nat, known: set<string>, q: Query)
    requires n <= |list| && ByPriority(list)
    ensures BestRoutes(Picked(list, n, known, q), list, n, known, q)
  {
    hide Applies;
    if n > 0 {
      PickedIsBest(list, n - 1, known, q);
      var b, before, routes := list[n - 1], Picked(list, n - 1, known, q), Picked(list, n, known, q);
      forall i | 0 <= i < |before|
        ensures BestOffer(before[i], list, n, known, q)
      {
        StillBest(before[i], list, n, known, q);
      }
      if routes != before {
        ReachesOneMore(before, Route(b.destination, b.priority));
        FirstOfferIsBest(list, n, known, q);
      }
    }
  }

  lemma {:induction false} StillBest(r: Route, list: seq<Binding>, n: nat, known: set<string>, q: Query)
    requires 0 < n <= |list| && ByPriority(list) && BestOffer(r, list, n - 1, known, q)
    ensures BestOffer(r, list, n, known, q)
  {
    hide Applies;
    var i :| 0 <= i < n - 1 && Offers(list[i], r.destination, known, q) && list[i].priority == r.priority;
    assert list[i].priority >= list[n - 1].priority;
  }

  lemma {:induction false} FirstOfferIsBest(list: seq<Binding>, n: nat, known: set<string>, q: Query)
    requires 0 < n <= |list|
    requires Applies(list[n - 1], q) && list[n - 1].destination in known
    requires !Reaches(Picked(list, n - 1, known, q), list[n - 1].destination)
    requires forall i :: 0 <= i < n - 1 && Offers(list[i], list[i].destination, known, q) ==>
               Reaches(Picked(list, n - 1, known, q), list[i].destination)
    ensures BestOffer(Route(list[n - 1].destination, list[n - 1].priority), list, n, known, q)
  {
    hide Applies, Picked;
    var b := list[n - 1];
    assert Offers(list[n - 1], b.destination, known, q);
  }

  /** Whatever the kind of the source, every route leads to an existing address. */
  lemma {:induction false} RoutesExist(addresses: map<string, Address>, bindings: map<string, Binding>,
                                       source: string, key: string, headers: map<string, string>, glob: Glob,
                                       routes: seq<Route>)
    requires IsResolution(addresses, bindings, source, key, headers, glob, routes)
    ensures forall i :: 0 <= i < |routes| ==> routes[i].destination in addresses
  {
    hide IsListing, Applies, Picked;
    var kind := addresses[source].kind;
    if Routed(kind) {
      var q := Query(kind, key, headers, glob);
      var list :| IsListing(bindings, source, list) && routes == Picked(list, |list|, addresses.Keys, q);
      PickedKnown(list, |list|, addresses.Keys, q);
    }
  }

  lemma {:induction false} PickedKnown(list: seq<Binding>, n: nat, known: set<string>, q: Query)
    requires n <= |list|
    ensures forall i :: 0 <= i < |Picked(list, n, known, q)| ==> Picked(list, n, known, q)[i].destination in known
  {
    hide Applies;
    if n > 0 {
      PickedKnown(list, n - 1, known, q);
    }
  }

  /** A stored binding of the source lets the message through to this existing destination. */
  ghost predicate Leads(bindings: map<string, Binding>, k: string, source: string, destination: string,
                        known: set<string>, q: Query) {
    k in bindings && Listed(bindings[k], source) && Offers(bindings[k], destination, known, q)
  }

  ghost predicate LeadsAt(bindings: map<string, Binding>, k: string, source: string, r: Route,
                          known: set<string>, q: Query) {
    Leads(bindings, k, source, r.destination, known, q) && bindings[k].priority == r.priority
  }

  /** Some binding leads to the route's destination at the route's priority. */
  ghost predicate Backed(bindings: map<string, Binding>, source: string, r: Route, known: set<string>, q: Query) {
    exists k :: LeadsAt(bindings, k, source, r, known, q)
  }

  /**
   What Resolve promises for topic, direct and fanout sources, in terms of the stored bindings:
   a destination is routed to exactly when some binding leads there, once, at the highest priority
   among those bindings; priorities never increase along the routes; and the routes do not depend
   on the order in which the bindings are stored.
   */
  lemma {:induction false} RoutesAreBest(bindings: map<string, Binding>, source: string, list: seq<Binding>,
                                         known: set<string>, q: Query, routes: seq<Route>)
    requires Keyed(bindings) && IsListing(bindings, source, list) && routes == Picked(list, |list|, known, q)
    ensures forall i, j :: 0 <= i < j < |routes| ==>
              routes[i].destination != routes[j].destination && routes[i].priority >= routes[j].priority
    ensures forall d :: Reaches(routes, d) <==> exists k :: Leads(bindings, k, source, d, known, q)
    ensures forall i :: 0 <= i < |routes| ==> Backed(bindings, source, routes[i], known, q)
    ensures forall i, k :: 0 <= i < |routes| && Leads(bindings, k, source, routes[i].destination, known, q) ==>
              bindings[k].priority <= routes[i].priority
    ensures forall other :: IsListing(bindings, source, other) ==> other == list
  {
    hide Applies, Picked, LexLess;
    ListingOrdered(bindings, source, list);
    PickedIsBest(list, |list|, known, q);
    PickedOrdered(list, |list|, known, q);
    forall i, j | 0 <= i < j < |routes|
      ensures routes[i].priority >= routes[j].priority
    {
      assert !HigherRoute(routes[j], routes[i]);
    }
    forall i | 0 <= i < |routes|
      ensures Backed(bindings, source, routes[i], known, q)
    {
      var m :| 0 <= m < |list| && Offers(list[m], routes[i].destination, known, q)
               && list[m].priority == routes[i].priority;
      assert list[m] in list;
      assert LeadsAt(bindings, list[m].id, source, routes[i], known, q);
    }
    forall d | Reaches(routes, d)
      ensures exists k :: Leads(bindings, k, source, d, known, q)
    {
      var i :| 0 <= i < |routes| && routes[i].destination == d;
      var k :| LeadsAt(bindings, k, source, routes[i], known, q);
      assert Leads(bindings, k, source, d, known, q);
    }
    forall i, k | 0 <= i < |routes| && Leads(bindings, k, source, routes[i].destination, known, q)
      ensures bindings[k].priority <= routes[i].priority
    {
      var m :| 0 <= m < |list| && list[m] == bindings[k];
      assert BestOffer(routes[i], list, |list|, known, q);
    }
    forall d, k | Leads(bindings, k, source, d, known, q)
      ensures Reaches(routes, d)
    {
      var m :| 0 <= m < |list| && list[m] == bindings[k];
    }
    forall other | IsListing(bindings, source, other)
      ensures other == list
    {
      ListingUnique(bindings, source, other, list);
    }
  }

  // ---------------------------------------------------------------- which destinations are reached

  /**
   The binding of a source takes a message to a destination: it leads there, every header it asks
   for is there, and its key rule holds.  A fanout takes any key, a direct source only the
   binding's own key, which must also match as a pattern, and a topic the keys its pattern means.
   */
  ghost predicate Carries(b: Binding, kind: Kind, source: string, destination: string, key: string,
                          headers: map<string, string>, glob: Glob) {
    && b.source == source && b.destination == destination
    && (forall h :: h in b.filter ==> h in headers && headers[h] == b.filter[h])
    && (kind == Direct ==> key == b.routingKey)
    && (kind == Fanout || TopicMatches(b.routingKey, key, glob))
  }

  ghost predicate Carried(bindings: map<string, Binding>, kind: Kind, source: string, destination: string, key: string,
                          headers: map<string, string>, glob: Glob) {
    exists k :: k in bindings && Carries(bindings[k], kind, source, destination, key, headers, glob)
  }

  lemma {:induction false} AppliesExactlyWhen(b: Binding, q: Query)
    requires Routed(q.kind)
    ensures Applies(b, q) <==>
            && (forall h :: h in b.filter ==> h in q.headers && q.headers[h] == b.filter[h])
            && (q.kind == Direct ==> q.key == b.routingKey)
            && (q.kind == Fanout || TopicMatches(b.routingKey, q.key, q.glob))
  {
    hide Matches, Split;
    if q.kind == Fanout {
      HashAlone(q.key, q.glob);
    }
  }

  /**
   A named topic, direct or fanout source leads to a destination exactly when the destination
   exists and one of the source's own bindings carries the message there.
   */
  lemma {:induction false} ReachedExactlyWhen(addresses: map<string, Address>, bindings: map<string, Binding>,
                                              source: string, key: string, headers: map<string, string>, glob: Glob,
                                              routes: seq<Route>, destination: string)
    requires Keyed(bindings) && source != "" && source in addresses && Routed(addresses[source].kind)
    requires IsResolution(addresses, bindings, source, key, headers, glob, routes)
    ensures Reaches(routes, destination) <==>
            && destination in addresses
            && Carried(bindings, addresses[source].kind, source, destination, key, headers, glob)
  {
    hide IsListing, Applies, Picked, Reaches, TopicMatches;
    var q := Query(addresses[source].kind, key, headers, glob);
    var list :| IsListing(bindings, source, list) && routes == Picked(list, |list|, addresses.Keys, q);
    RoutesAreBest(bindings, source, list, addresses.Keys, q, routes);
    forall k | k in bindings
      ensures Leads(bindings, k, source, destination, addresses.Keys, q) <==>
              destination in addresses && Carries(bindings[k], q.kind, source, destination, key, headers, glob)
    {
      AppliesExactlyWhen(bindings[k], q);
    }
    if Reaches(routes, destination) {
      var k :| Leads(bindings, k, source, destination, addresses.Keys, q);
      assert Carries(bindings[k], q.kind, source, destination, key, headers, glob);
    }
    if destination in addresses && Carried(bindings, q.kind, source, destination, key, headers, glob) {
      var k :| k in bindings && Carries(bindings[k], q.kind, source, destination, key, headers, glob);
      assert Leads(bindings, k, source, destination, addresses.Keys, q);
    }
  }

  ghost predicate CarriedAt(bindings: map<string, Binding>, kind: Kind, source: string, r: Route, key: string,
                            headers: map<string, string>, glob: Glob) {
    exists k :: k in bindings && bindings[k].priority == r.priority
                && Carries(bindings[k], kind, source, r.destination, key, headers, glob)
  }

  /** Each route stands once, at the highest priority among the bindings that carry the message there, best first. */
  lemma {:induction false} RoutedAtBest(addresses: map<string, Address>, bindings: map<string, Binding>,
                                        source: string, key: string, headers: map<string, string>, glob: Glob,
                                        routes: seq<Route>)
    requires Keyed(bindings) && source != "" && source in addresses && Routed(addresses[source].kind)
    requires IsResolution(addresses, bindings, source, key, headers, glob, routes)
    ensures forall i, j :: 0 <= i < j < |routes| ==>
              routes[i].destination != routes[j].destination && routes[i].priority >= routes[j].priority
    ensures forall i :: 0 <= i < |routes| ==>
              CarriedAt(bindings, addresses[source].kind, source, routes[i], key, headers, glob)
    ensures forall i, k :: 0 <= i < |routes| && k in bindings
                           && Carries(bindings[k], addresses[source].kind, source, routes[i].destination, key, headers, glob) ==>
              bindings[k].priority <= routes[i].priority
  {
    hide IsListing, Applies, Picked, TopicMatches;
    var q := Query(addresses[source].kind, key, headers, glob);
    var list :| IsListing(bindings, source, list) && routes == Picked(list, |list|, addresses.Keys, q);
    RoutesAreBest(bindings, source, list, addresses.Keys, q, routes);
    forall k | k in bindings
      ensures Applies(bindings[k], q) && bindings[k].source == source <==>
              Carries(bindings[k], q.kind, source, bindings[k].destination, key, headers, glob)
    {
      AppliesExactlyWhen(bindings[k], q);
    }
    RoutesExist(addresses, bindings, source, key, headers, glob, routes);
    forall i | 0 <= i < |routes|
      ensures CarriedAt(bindings, q.kind, source, routes[i], key, headers, glob)
    {
      assert Backed(bindings, source, routes[i], addresses.Keys, q);
      var k :| LeadsAt(bindings, k, source, routes[i], addresses.Keys, q);
      assert Carries(bindings[k], q.kind, source, routes[i].destination, key, headers, glob);
    }
    forall i, k | 0 <= i < |routes| && k in bindings
                  && Carries(bindings[k], q.kind, source, routes[i].destination, key, headers, glob)
      ensures bindings[k].priority <= routes[i].priority
    {
      assert Leads(bindings, k, source, routes[i].destination, addresses.Keys, q);
    }
  }

  /** Bindings of other sources do not matter: adding, changing or removing them changes no route. */
  lemma {:induction false} OtherSourcesIgnored(addresses: map<string, Address>, bindings: map<string, Binding>,
                                               others: map<string, Binding>, source: string, key: string,
                                               headers: map<string, string>, glob: Glob, routes: seq<Route>)
    requires Keyed(bindings) && Keyed(others) && source != ""
    requires forall k :: k in bindings && bindings[k].source == source ==> k in others && others[k] == bindings[k]
    requires forall k :: k in others && others[k].source == source ==> k in bindings && bindings[k] == others[k]
    requires IsResolution(addresses, bindings, source, key, headers, glob, routes)
    ensures IsResolution(addresses, others, source, key, headers, glob, routes)
  {
    hide Picked, Applies;
    if Routed(addresses[source].kind) {
      var q := Query(addresses[source].kind, key, headers, glob);
      var list :| IsListing(bindings, source, list) && routes == Picked(list, |list|, addresses.Keys, q);
      assert IsListing(others, source, list);
    }
  }

  /** A queue takes its messages itself, whatever is bound to it. */
  lemma {:induction false} QueueTakesItself(addresses: map<string, Address>, bindings: map<string, Binding>,
                                            source: string, key: string, headers: map<string, string>, glob: Glob,
                                            routes: seq<Route>)
    requires source in addresses && (addresses[source].kind == Queue || addresses[source].kind == Temporary)
    ensures IsResolution(addresses, bindings, source, key, headers, glob, routes) <==> routes == [Route(source, 0)]
  {}
}
