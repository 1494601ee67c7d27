/** The order of the ingest-client script: producers ascend, and routes ascend by producer and then source. */
module IngestOrder {
  import opened IngestConfig
  import opened Sorting

  ghost predicate ProducersAscend(producers: seq<string>) {
    forall i, j :: 0 <= i < j < |producers| ==> Before(producers[i], producers[j])
  }

  /** No later route comes before an earlier one. */
  ghost predicate RoutesAscend(routes: seq<Route>) {
    forall i, j :: 0 <= i < j < |routes| ==> !RouteBefore(routes[j], routes[i])
  }

  lemma {:induction false} PlacedProducersAscend(p: string, sorted: seq<string>)
    requires ProducersAscend(sorted)
    ensures ProducersAscend(PlaceProducer(p, sorted))
  {
    if sorted != [] && p != sorted[0] && !Before(p, sorted[0]) {
      var tail := sorted[1..];
      PlacedProducersAscend(p, tail);
      BeforeIsTotal(p, sorted[0]);
      var placed := PlaceProducer(p, tail);
      forall q | q in placed ensures Before(sorted[0], q) {
        assert q == p || q in tail;
      }
    } else if sorted != [] && Before(p, sorted[0]) {
      forall j | 0 <= j < |sorted| ensures Before(p, sorted[j]) {
        if j > 0 {
          BeforeIsTransitive(p, sorted[0], sorted[j]);
        }
      }
    }
  }

  lemma RouteBeforeIsTransitive(a: Route, b: Route, c: Route)
    requires !RouteBefore(b, a) && !RouteBefore(c, b)
    ensures !RouteBefore(c, a)
  {
    BeforeIsTotal(a.producer, b.producer);
    BeforeIsTotal(b.producer, c.producer);
    BeforeIsTotal(a.producer, c.producer);
    BeforeIsTotal(a.source, b.source);
    BeforeIsTotal(b.source, c.source);
    BeforeIsTotal(a.source, c.source);
    if a.producer == b.producer == c.producer && a.source != b.source && b.source != c.source {
      BeforeIsTransitive(a.source, b.source, c.source);
    }
    if a.producer != b.producer && b.producer != c.producer {
      BeforeIsTransitive(a.producer, b.producer, c.producer);
    }
  }

  lemma RouteBeforeIsTotal(a: Route, b: Route)
    ensures !RouteBefore(a, b) || !RouteBefore(b, a)
  {
    BeforeIsTotal(a.producer, b.producer);
    BeforeIsTotal(a.source, b.source);
  }

  lemma {:induction false} PlacedRoutesAscend(r: Route, sorted: seq<Route>)
    requires RoutesAscend(sorted)
    ensures RoutesAscend(PlaceRoute(r, sorted))
  {
    if sorted == [] {
    } else if RouteBefore(r, sorted[0]) {
      RouteBeforeIsTotal(r, sorted[0]);
      forall j | 0 <= j < |sorted| ensures !RouteBefore(sorted[j], r) {
        if j > 0 {
          RouteBeforeIsTransitive(r, sorted[0], sorted[j]);
        }
      }
    } else {
      var tail := sorted[1..];
      PlacedRoutesAscend(r, tail);
      var placed := PlaceRoute(r, tail);
      forall j | 0 <= j < |placed| ensures !RouteBefore(placed[j], sorted[0]) {
        assert placed[j] in multiset(placed);
        assert placed[j] == r || placed[j] in multiset(tail);
      }
    }
  }

  /** The script names a client's producers once each in ascending order, and its routes in order. */
  lemma {:induction false} ScriptIsInOrder(routes: seq<Route>)
    ensures ProducersAscend(SortedProducers(routes)) && RoutesAscend(SortedRoutes(routes))
    ensures multiset(SortedRoutes(routes)) == multiset(routes)
    ensures forall p :: p in SortedProducers(routes) <==> exists r :: r in routes && r.producer == p
  {
    if routes != [] {
      var n := |routes| - 1;
      ScriptIsInOrder(routes[..n]);
      PlacedProducersAscend(routes[n].producer, SortedProducers(routes[..n]));
      PlacedRoutesAscend(routes[n], SortedRoutes(routes[..n]));
    }
  }
}
