/**
  The ingest-client declaration: its strict parse, the SQL it is rendered to, and
  what executing that SQL does to a database with its keys, foreign keys and checks.
*/
module IngestConfig {
  import opened Sorting
  import opened Wrappers

  datatype Route = Route(source: string, producer: string, active: bool)

  datatype Client = Client(id: string, displayName: string, active: bool, routes: seq<Route>)

  // ----- the parse -----

  predicate IdChar(c: char) {
    'a' <= c <= 'z' || '0' <= c <= '9' || c == '-'
  }

  predicate IsId(s: string) {
    1 <= |s| <= 100 && forall i :: 0 <= i < |s| ==> IdChar(s[i])
  }

  predicate NameChar(c: char) {
    || 'A' <= c <= 'Z' || 'a' <= c <= 'z' || '0' <= c <= '9'
    || c == ' ' || c == '(' || c == ')' || c == '.' || c == ',' || c == '_' || c == '-'
  }

  predicate IsDisplayName(s: string) {
    1 <= |s| <= 200 && forall i :: 0 <= i < |s| ==> NameChar(s[i])
  }

  datatype ParseError = NoClients | BadId(value: string) | BadDisplayName | DuplicateClient(id: string) | DuplicateRoute

  predicate SameRoute(a: Route, b: Route) {
    a.producer == b.producer && a.source == b.source
  }

  predicate ValidRoutes(routes: seq<Route>) {
    && (forall i :: 0 <= i < |routes| ==> IsId(routes[i].source) && IsId(routes[i].producer))
    && DistinctRoutes(routes)
  }

  predicate DistinctRoutes(routes: seq<Route>) {
    forall i, j :: 0 <= i < j < |routes| ==> !SameRoute(routes[i], routes[j])
  }

  predicate ValidClient(c: Client) {
    IsId(c.id) && IsDisplayName(c.displayName) && ValidRoutes(c.routes)
  }

  predicate ValidClients(clients: seq<Client>) {
    && (forall i :: 0 <= i < |clients| ==> ValidClient(clients[i]))
    && DistinctIds(clients)
  }

  predicate DistinctIds(clients: seq<Client>) {
    forall i, j :: 0 <= i < j < |clients| ==> clients[i].id != clients[j].id
  }

  function RouteKey(r: Route): string {
    r.producer + " " + r.source
  }

  /** Joining two identifiers with a space loses nothing. */
  lemma RouteKeyIsInjective(a: Route, b: Route)
    requires IsId(a.producer) && IsId(b.producer) && IsId(a.source) && IsId(b.source)
    ensures RouteKey(a) == RouteKey(b) <==> SameRoute(a, b)
  {
    if RouteKey(a) == RouteKey(b) {
      var k := RouteKey(a);
      assert k[|a.producer|] == ' ' && k[|b.producer|] == ' ';
      assert forall i :: 0 <= i < |a.producer| ==> k[i] == a.producer[i] && IdChar(a.producer[i]);
      assert forall i :: 0 <= i < |b.producer| ==> k[i] == b.producer[i] && IdChar(b.producer[i]);
      assert |a.producer| == |b.producer|;
      assert a.producer == k[..|a.producer|] == b.producer;
      assert a.source == k[|a.producer| + 1..] == b.source;
    }
  }

  method ParseRoutes(routes: seq<Route>) returns (r: Result<seq<Route>, ParseError>)
    ensures r.Ok? <==> ValidRoutes(routes)
    ensures r.Ok? ==> r.value == routes
  {
    var seen: set<string> := {};
    for i := 0 to |routes|
      invariant ValidRoutes(routes[..i])
      invariant seen == set j | 0 <= j < i :: RouteKey(routes[j])
    {
      var route := routes[i];
      if !IsId(route.source) {
        return Err(BadId(route.source));
      }
      if !IsId(route.producer) {
        return Err(BadId(route.producer));
      }
      var key := RouteKey(route);
      if key in seen {
        var j :| 0 <= j < i && RouteKey(routes[j]) == key;
        RouteKeyIsInjective(routes[..i][j], route);
        assert SameRoute(routes[j], routes[i]);
        return Err(DuplicateRoute);
      }
      forall j | 0 <= j < i ensures !SameRoute(routes[j], route) {
        RouteKeyIsInjective(routes[..i][j], route);
      }
      seen := seen + {key};
    }
    assert routes[..|routes|] == routes;
    r := Ok(routes);
  }

  /** Accepts exactly the non-empty declarations without a bad identifier or a duplicate. */
  method ParseIngestClientsConfig(clients: seq<Client>) returns (r: Result<seq<Client>, ParseError>)
    ensures r.Ok? <==> clients != [] && ValidClients(clients)
    ensures r.Ok? ==> r.value == clients
  {
    if clients == [] {
      return Err(NoClients);
    }
    var clientIds: set<string> := {};
    for i := 0 to |clients|
      invariant ValidClients(clients[..i])
      invariant clientIds == set j | 0 <= j < i :: clients[j].id
    {
      var client := clients[i];
      if !IsId(client.id) {
        return Err(BadId(client.id));
      }
      if client.id in clientIds {
        return Err(DuplicateClient(client.id));
      }
      clientIds := clientIds + {client.id};
      if !IsDisplayName(client.displayName) {
        return Err(BadDisplayName);
      }
      var routes := ParseRoutes(client.routes);
      if routes.Err? {
        return Err(routes.error);
      }
    }
    assert clients[..|clients|] == clients;
    r := Ok(clients);
  }

  // ----- the database -----

  datatype ClientRow = ClientRow(displayName: string, active: bool)

  datatype ProducerRow = ProducerRow(kind: string, displayName: string, active: bool)

  datatype Pair = Pair(left: string, right: string)

  datatype RouteId = RouteId(client: string, producer: string, source: string)

  /** The five tables the script writes and the one it refers to. */
  datatype Db = Db(
    sources: set<string>,
    producers: map<string, ProducerRow>,
    producerSources: map<Pair, bool>,
    clients: map<string, ClientRow>,
    clientProducers: map<Pair, bool>,
    routes: map<RouteId, bool>)

  datatype Statement =
    | InsertClient(id: string, displayName: string, active: bool)
    | SetClient(id: string, active: bool)
    | InsertProducer(id: string)
    | InsertClientProducer(client: string, producer: string)
    | InsertProducerSource(producer: string, source: string)
    | InsertRoute(route: RouteId, active: bool)
    | SetRoute(route: RouteId, active: bool)

  /** `length(trim(name)) BETWEEN 1 AND 200` fails for a name of spaces. */
  predicate Blank(name: string) {
    forall i :: 0 <= i < |name| ==> name[i] == ' '
  }

  function NewProducer(id: string): ProducerRow {
    ProducerRow("collector", "Shared-R2 collector " + id, true)
  }

  /** One statement; `None` when a check or a foreign key refuses it. */
  function Execute(db: Db, s: Statement): Option<Db> {
    match s
    case InsertClient(id, name, active) =>
      if id in db.clients then Some(db)
      else if Blank(name) then None
      else Some(db.(clients := db.clients[id := ClientRow(name, active)]))
    case SetClient(id, active) =>
      if id in db.clients && db.clients[id].active != active
      then Some(db.(clients := db.clients[id := db.clients[id].(active := active)])) else Some(db)
    case InsertProducer(id) =>
      if id in db.producers then Some(db) else Some(db.(producers := db.producers[id := NewProducer(id)]))
    case InsertClientProducer(client, producer) =>
      if Pair(client, producer) in db.clientProducers then Some(db)
      else if client !in db.clients || producer !in db.producers then None
      else Some(db.(clientProducers := db.clientProducers[Pair(client, producer) := true]))
    case InsertProducerSource(producer, source) =>
      if Pair(producer, source) in db.producerSources then Some(db)
      else if producer !in db.producers || source !in db.sources then None
      else Some(db.(producerSources := db.producerSources[Pair(producer, source) := true]))
    case InsertRoute(k, active) =>
      if k in db.routes then Some(db)
      else if Pair(k.client, k.producer) !in db.clientProducers || Pair(k.producer, k.source) !in db.producerSources then None
      else Some(db.(routes := db.routes[k := active]))
    case SetRoute(k, active) =>
      if k in db.routes && db.routes[k] != active then Some(db.(routes := db.routes[k := active])) else Some(db)
  }

  function Run(db: Db, script: seq<Statement>): Option<Db>
    decreases |script|
  {
    if script == [] then Some(db)
    else match Execute(db, script[0])
      case None => None
      case Some(next) => Run(next, script[1..])
  }

  lemma {:induction false} RunConcat(db: Db, a: seq<Statement>, b: seq<Statement>)
    ensures Run(db, a + b) == if Run(db, a).None? then None else Run(Run(db, a).value, b)
    decreases |a|
  {
    if a == [] {
      assert a + b == b;
    } else {
      assert (a + b)[1..] == a[1..] + b;
      if Execute(db, a[0]).Some? {
        RunConcat(Execute(db, a[0]).value, a[1..], b);
      }
    }
  }

  lemma RunOne(db: Db, a: Statement)
    ensures Run(db, [a]) == Execute(db, a)
  {
  }

  lemma RunTwo(db: Db, a: Statement, b: Statement)
    ensures Run(db, [a, b]) == if Execute(db, a).None? then None else Execute(Execute(db, a).value, b)
  {
    assert [a, b][1..] == [b];
    if Execute(db, a).Some? {
      RunOne(Execute(db, a).value, b);
    }
  }

  lemma RunThree(db: Db, a: Statement, b: Statement, c: Statement)
    ensures Run(db, [a, b, c]) == if Execute(db, a).None? then None else Run(Execute(db, a).value, [b, c])
  {
    assert [a, b, c][1..] == [b, c];
  }

  // ----- the rendering -----

  function RouteIdOf(client: string, r: Route): RouteId {
    RouteId(client, r.producer, r.source)
  }

  function ClientStatements(c: Client): seq<Statement> {
    [InsertClient(c.id, c.displayName, c.active), SetClient(c.id, c.active)]
  }

  function ProducerStatements(client: string, producers: seq<string>): seq<Statement> {
    if producers == [] then []
    else ProducerStatements(client, producers[..|producers| - 1])
         + [InsertProducer(producers[|producers| - 1]), InsertClientProducer(client, producers[|producers| - 1])]
  }

  function RouteStatements(client: string, routes: seq<Route>): seq<Statement> {
    if routes == [] then []
    else
      var r := routes[|routes| - 1];
      RouteStatements(client, routes[..|routes| - 1])
      + [InsertProducerSource(r.producer, r.source), InsertRoute(RouteIdOf(client, r), r.active),
         SetRoute(RouteIdOf(client, r), r.active)]
  }

  predicate RouteBefore(a: Route, b: Route) {
    if a.producer == b.producer then Before(a.source, b.source) else Before(a.producer, b.producer)
  }

  function PlaceRoute(r: Route, sorted: seq<Route>): (placed: seq<Route>)
    ensures multiset(placed) == multiset(sorted) + multiset{r}
  {
    if sorted == [] || RouteBefore(r, sorted[0]) then [r] + sorted
    else
      assert sorted == [sorted[0]] + sorted[1..];
      [sorted[0]] + PlaceRoute(r, sorted[1..])
  }

  function SortedRoutes(routes: seq<Route>): (sorted: seq<Route>)
    ensures multiset(sorted) == multiset(routes)
  {
    if routes == [] then []
    else
      assert routes == routes[..|routes| - 1] + [routes[|routes| - 1]];
      PlaceRoute(routes[|routes| - 1], SortedRoutes(routes[..|routes| - 1]))
  }

  function PlaceProducer(p: string, sorted: seq<string>): (placed: seq<string>)
    ensures forall q :: q in placed <==> q in sorted || q == p
  {
    if sorted == [] || Before(p, sorted[0]) then [p] + sorted
    else if p == sorted[0] then sorted
    else [sorted[0]] + PlaceProducer(p, sorted[1..])
  }

  /** The routes' distinct producers in order. */
  function SortedProducers(routes: seq<Route>): (sorted: seq<string>)
    ensures forall q :: q in sorted <==> exists i :: 0 <= i < |routes| && routes[i].producer == q
  {
    if routes == [] then []
    else PlaceProducer(routes[|routes| - 1].producer, SortedProducers(routes[..|routes| - 1]))
  }

  function ClientScript(c: Client): seq<Statement> {
    ClientStatements(c) + ProducerStatements(c.id, SortedProducers(c.routes)) + RouteStatements(c.id, SortedRoutes(c.routes))
  }

  function Script(clients: seq<Client>): seq<Statement> {
    if clients == [] then [] else Script(clients[..|clients| - 1]) + ClientScript(clients[|clients| - 1])
  }

  method RenderProducers(client: string, producers: seq<string>) returns (lines: seq<Statement>)
    ensures lines == ProducerStatements(client, producers)
  {
    lines := [];
    for j := 0 to |producers|
      invariant lines == ProducerStatements(client, producers[..j])
    {
      assert producers[..j + 1][..j] == producers[..j];
      lines := lines + [InsertProducer(producers[j]), InsertClientProducer(client, producers[j])];
    }
    assert producers[..|producers|] == producers;
  }

  method RenderRoutes(client: string, routes: seq<Route>) returns (lines: seq<Statement>)
    ensures lines == RouteStatements(client, routes)
  {
    lines := [];
    for j := 0 to |routes|
      invariant lines == RouteStatements(client, routes[..j])
    {
      var r := routes[j];
      assert routes[..j + 1][..j] == routes[..j];
      lines := lines + [InsertProducerSource(r.producer, r.source), InsertRoute(RouteIdOf(client, r), r.active),
                        SetRoute(RouteIdOf(client, r), r.active)];
    }
    assert routes[..|routes|] == routes;
  }

  method RenderIngestClientsSql(clients: seq<Client>) returns (lines: seq<Statement>)
    ensures lines == Script(clients)
  {
    lines := [];
    for i := 0 to |clients|
      invariant lines == Script(clients[..i])
    {
      var client := clients[i];
      var producers := RenderProducers(client.id, SortedProducers(client.routes));
      var routes := RenderRoutes(client.id, SortedRoutes(client.routes));
      assert clients[..i + 1][..i] == clients[..i];
      lines := lines + (ClientStatements(client) + producers + routes);
    }
    assert clients[..|clients|] == clients;
  }

  // ----- what the script does -----

  function WithClient(db: Db, c: Client): Db {
    db.(clients := db.clients[c.id := ClientRow(if c.id in db.clients then db.clients[c.id].displayName else c.displayName,
                                                c.active)])
  }

  function WithProducer(db: Db, client: string, p: string): Db {
    db.(producers := if p in db.producers then db.producers else db.producers[p := NewProducer(p)],
        clientProducers := if Pair(client, p) in db.clientProducers then db.clientProducers
                           else db.clientProducers[Pair(client, p) := true])
  }

  function WithProducers(db: Db, client: string, ps: seq<string>): Db {
    if ps == [] then db else WithProducer(WithProducers(db, client, ps[..|ps| - 1]), client, ps[|ps| - 1])
  }

  function WithRoute(db: Db, client: string, r: Route): Db {
    var pair := Pair(r.producer, r.source);
    db.(producerSources := if pair in db.producerSources then db.producerSources else db.producerSources[pair := true],
        routes := db.routes[RouteIdOf(client, r) := r.active])
  }

  function WithRoutes(db: Db, client: string, rs: seq<Route>): Db {
    if rs == [] then db else WithRoute(WithRoutes(db, client, rs[..|rs| - 1]), client, rs[|rs| - 1])
  }

  function ClientDeployed(db: Db, c: Client): Db {
    WithRoutes(WithProducers(WithClient(db, c), c.id, SortedProducers(c.routes)), c.id, SortedRoutes(c.routes))
  }

  function Deployed(db: Db, clients: seq<Client>): Db {
    if clients == [] then db else ClientDeployed(Deployed(db, clients[..|clients| - 1]), clients[|clients| - 1])
  }

  /** The pair exists, or the foreign keys let it be inserted. */
  predicate SourceKnown(db: Db, r: Route) {
    Pair(r.producer, r.source) in db.producerSources || r.source in db.sources
  }

  predicate Admissible(db: Db, c: Client) {
    (c.id in db.clients || !Blank(c.displayName)) && forall i :: 0 <= i < |c.routes| ==> SourceKnown(db, c.routes[i])
  }

  predicate AllAdmissible(db: Db, clients: seq<Client>) {
    forall i :: 0 <= i < |clients| ==> Admissible(db, clients[i])
  }

  lemma {:induction false} ProducersRun(db: Db, client: string, ps: seq<string>)
    requires client in db.clients
    ensures Run(db, ProducerStatements(client, ps)) == Some(WithProducers(db, client, ps))
    ensures var d := WithProducers(db, client, ps);
      && d == db.(producers := d.producers, clientProducers := d.clientProducers)
      && (forall p :: p in d.producers <==> p in db.producers || p in ps)
      && (forall p :: p in db.producers ==> d.producers[p] == db.producers[p])
      && (forall k :: k in d.clientProducers <==> k in db.clientProducers || (k.left == client && k.right in ps))
      && (forall k :: k in db.clientProducers ==> d.clientProducers[k] == db.clientProducers[k])
  {
    if ps != [] {
      var n := |ps| - 1;
      ProducersRun(db, client, ps[..n]);
      var d := WithProducers(db, client, ps[..n]);
      RunConcat(db, ProducerStatements(client, ps[..n]), [InsertProducer(ps[n]), InsertClientProducer(client, ps[n])]);
      ProducerRun(d, client, ps[n]);
      assert ps == ps[..n] + [ps[n]];
    }
  }

  lemma ProducerRun(db: Db, client: string, p: string)
    requires client in db.clients
    ensures Run(db, [InsertProducer(p), InsertClientProducer(client, p)]) == Some(WithProducer(db, client, p))
  {
    RunTwo(db, InsertProducer(p), InsertClientProducer(client, p));
  }

  /** With its pair there, a route is inserted or found, and then flagged. */
  lemma RouteInserted(db: Db, client: string, r: Route)
    requires Pair(client, r.producer) in db.clientProducers && Pair(r.producer, r.source) in db.producerSources
    ensures Run(db, [InsertRoute(RouteIdOf(client, r), r.active), SetRoute(RouteIdOf(client, r), r.active)])
            == Some(db.(routes := db.routes[RouteIdOf(client, r) := r.active]))
  {
    var k := RouteIdOf(client, r);
    RunTwo(db, InsertRoute(k, r.active), SetRoute(k, r.active));
    if k in db.routes && db.routes[k] == r.active {
      assert db.routes[k := r.active] == db.routes;
    }
  }

  lemma RouteRun(db: Db, client: string, r: Route)
    requires Pair(client, r.producer) in db.clientProducers && r.producer in db.producers
    ensures Run(db, [InsertProducerSource(r.producer, r.source), InsertRoute(RouteIdOf(client, r), r.active),
                     SetRoute(RouteIdOf(client, r), r.active)])
            == if SourceKnown(db, r) then Some(WithRoute(db, client, r)) else None
  {
    var k := RouteIdOf(client, r);
    var insertPair := InsertProducerSource(r.producer, r.source);
    RunThree(db, insertPair, InsertRoute(k, r.active), SetRoute(k, r.active));
    if SourceKnown(db, r) {
      RouteInserted(Execute(db, insertPair).value, client, r);
    }
  }

  /** Which pairs the routes add, and the flag each route's row ends with. */
  lemma {:induction false} RoutesAdded(db: Db, client: string, rs: seq<Route>)
    ensures var d := WithRoutes(db, client, rs);
      && d == db.(producerSources := d.producerSources, routes := d.routes)
      && (forall k :: k in d.producerSources <==>
            k in db.producerSources || exists r :: r in rs && k == Pair(r.producer, r.source))
      && (forall k :: k in db.producerSources ==> d.producerSources[k] == db.producerSources[k])
      && (forall k :: k in d.routes <==> k in db.routes || exists r :: r in rs && k == RouteIdOf(client, r))
      && (forall k :: k in db.routes && !(exists r :: r in rs && k == RouteIdOf(client, r)) ==> d.routes[k] == db.routes[k])
  {
    if rs != [] {
      RoutesAdded(db, client, rs[..|rs| - 1]);
      assert rs == rs[..|rs| - 1] + [rs[|rs| - 1]];
    }
  }

  /** When no two routes are the same, each keeps the flag it declares. */
  lemma {:induction false} RoutesFlagged(db: Db, client: string, rs: seq<Route>, i: nat)
    requires i < |rs| && forall j :: 0 <= j < |rs| && j != i ==> !SameRoute(rs[i], rs[j])
    ensures var d := WithRoutes(db, client, rs);
      RouteIdOf(client, rs[i]) in d.routes && d.routes[RouteIdOf(client, rs[i])] == rs[i].active
  {
    if i < |rs| - 1 {
      RoutesFlagged(db, client, rs[..|rs| - 1], i);
    }
  }

  ghost predicate AllKnown(db: Db, rs: seq<Route>) {
    forall r :: r in rs ==> SourceKnown(db, r)
  }

  /** Adding routes of known sources makes no other source known. */
  lemma KnownAfterRoutes(db: Db, client: string, rs: seq<Route>, r: Route)
    requires AllKnown(db, rs)
    ensures SourceKnown(WithRoutes(db, client, rs), r) <==> SourceKnown(db, r)
    ensures WithRoutes(db, client, rs).clientProducers == db.clientProducers
    ensures WithRoutes(db, client, rs).producers == db.producers
  {
    RoutesAdded(db, client, rs);
    if q :| q in rs && Pair(r.producer, r.source) == Pair(q.producer, q.source) {
      assert SourceKnown(db, q);
    }
  }

  lemma AllKnownSplit(db: Db, front: seq<Route>, r: Route)
    ensures AllKnown(db, front + [r]) <==> AllKnown(db, front) && SourceKnown(db, r)
  {
    assert r in front + [r];
    assert forall q :: q in front ==> q in front + [r];
  }

  /** The routes' statements run exactly when every source is known, and then do no more than this. */
  lemma {:induction false} RoutesRun(db: Db, client: string, rs: seq<Route>)
    requires forall r :: r in rs ==> Pair(client, r.producer) in db.clientProducers && r.producer in db.producers
    ensures Run(db, RouteStatements(client, rs)) == if AllKnown(db, rs) then Some(WithRoutes(db, client, rs)) else None
  {
    if rs != [] {
      var n := |rs| - 1;
      var front, r := rs[..n], rs[n];
      assert front + [r] == rs;
      RoutesRun(db, client, front);
      RunConcat(db, RouteStatements(client, front),
                [InsertProducerSource(r.producer, r.source), InsertRoute(RouteIdOf(client, r), r.active),
                 SetRoute(RouteIdOf(client, r), r.active)]);
      AllKnownSplit(db, front, r);
      if AllKnown(db, front) {
        KnownAfterRoutes(db, client, front, r);
        RouteRun(WithRoutes(db, client, front), client, r);
      }
    }
  }

  lemma HeadRuns(db: Db, c: Client)
    ensures Run(db, ClientStatements(c)) == if c.id in db.clients || !Blank(c.displayName) then Some(WithClient(db, c)) else None
  {
    RunTwo(db, InsertClient(c.id, c.displayName, c.active), SetClient(c.id, c.active));
    if c.id in db.clients || !Blank(c.displayName) {
      assert Run(db, ClientStatements(c)).value.clients == WithClient(db, c).clients;
    }
  }

  /** `ps` and `rs` list the routes' producers and the routes, in whatever order. */
  ghost predicate Lists(routes: seq<Route>, ps: seq<string>, rs: seq<Route>) {
    && (forall q :: q in ps <==> exists i :: 0 <= i < |routes| && routes[i].producer == q)
    && multiset(rs) == multiset(routes)
  }

  lemma ListsSame(routes: seq<Route>, ps: seq<string>, rs: seq<Route>)
    requires Lists(routes, ps, rs)
    ensures forall r :: r in rs <==> r in routes
    ensures forall r :: r in routes ==> r.producer in ps
  {
    forall r ensures r in rs <==> r in routes {
      assert r in multiset(rs) <==> r in multiset(routes);
    }
    forall r | r in routes ensures r.producer in ps {
      var i :| 0 <= i < |routes| && routes[i] == r;
    }
  }

  function ListedStatements(c: Client, ps: seq<string>, rs: seq<Route>): seq<Statement> {
    ClientStatements(c) + ProducerStatements(c.id, ps) + RouteStatements(c.id, rs)
  }

  function ListedDeployed(db: Db, c: Client, ps: seq<string>, rs: seq<Route>): Db {
    WithRoutes(WithProducers(WithClient(db, c), c.id, ps), c.id, rs)
  }

  lemma KnownAfterProducers(db: Db, c: Client, ps: seq<string>, rs: seq<Route>)
    requires Lists(c.routes, ps, rs)
    ensures AllKnown(WithProducers(WithClient(db, c), c.id, ps), rs) <==>
            forall i :: 0 <= i < |c.routes| ==> SourceKnown(db, c.routes[i])
  {
    var e := WithProducers(WithClient(db, c), c.id, ps);
    ListsSame(c.routes, ps, rs);
    ProducersRun(WithClient(db, c), c.id, ps);
    assert forall r :: SourceKnown(e, r) <==> SourceKnown(db, r);
    assert forall i :: 0 <= i < |c.routes| ==> c.routes[i] in c.routes;
  }

  /** One client's statements run exactly when it is admissible. */
  lemma ClientRuns(db: Db, c: Client, ps: seq<string>, rs: seq<Route>)
    requires Lists(c.routes, ps, rs)
    ensures Run(db, ListedStatements(c, ps, rs)) == if Admissible(db, c) then Some(ListedDeployed(db, c, ps, rs)) else None
  {
    var head := ClientStatements(c);
    RunConcat(db, head + ProducerStatements(c.id, ps), RouteStatements(c.id, rs));
    RunConcat(db, head, ProducerStatements(c.id, ps));
    HeadRuns(db, c);
    if c.id in db.clients || !Blank(c.displayName) {
      var e := WithProducers(WithClient(db, c), c.id, ps);
      ProducersRun(WithClient(db, c), c.id, ps);
      ListsSame(c.routes, ps, rs);
      RoutesRun(e, c.id, rs);
      KnownAfterProducers(db, c, ps, rs);
    }
  }

  predicate Declares(c: Client, k: RouteId) {
    exists i :: 0 <= i < |c.routes| && k == RouteIdOf(c.id, c.routes[i])
  }

  /** Rows are only added; of an existing row at most the flag of a client or route changes. */
  ghost predicate RowsKept(db: Db, d: Db) {
    && d.sources == db.sources
    && (forall p :: p in db.producers ==> p in d.producers && d.producers[p] == db.producers[p])
    && (forall k :: k in db.producerSources ==> k in d.producerSources && d.producerSources[k] == db.producerSources[k])
    && (forall k :: k in db.clientProducers ==> k in d.clientProducers && d.clientProducers[k] == db.clientProducers[k])
    && (forall id :: id in db.clients ==> id in d.clients && d.clients[id].displayName == db.clients[id].displayName)
    && (forall k :: k in db.routes ==> k in d.routes)
  }

  predicate IsDeclared(clients: seq<Client>, id: string) {
    exists i :: 0 <= i < |clients| && clients[i].id == id
  }

  predicate IsDeclaredRoute(clients: seq<Client>, k: RouteId) {
    exists i :: 0 <= i < |clients| && Declares(clients[i], k)
  }

  /** A client or route that is not declared is there as it was, or not there. */
  ghost predicate OthersKept(db: Db, d: Db, clients: seq<Client>) {
    && (forall id :: id in d.clients && !IsDeclared(clients, id) ==> id in db.clients && d.clients[id] == db.clients[id])
    && (forall k :: k in d.routes && !IsDeclaredRoute(clients, k) ==> k in db.routes && d.routes[k] == db.routes[k])
  }

  ghost predicate Grown(db: Db, d: Db, clients: seq<Client>) {
    RowsKept(db, d) && OthersKept(db, d, clients)
  }

  /** A declared client and its routes are present, with the declared flags. */
  ghost predicate Settled(d: Db, c: Client) {
    && c.id in d.clients && d.clients[c.id].active == c.active
    && forall i :: 0 <= i < |c.routes| ==> RouteSettled(d, c, c.routes[i])
  }

  ghost predicate RouteSettled(d: Db, c: Client, r: Route) {
    && r.producer in d.producers && Pair(c.id, r.producer) in d.clientProducers
    && Pair(r.producer, r.source) in d.producerSources
    && RouteIdOf(c.id, r) in d.routes && d.routes[RouteIdOf(c.id, r)] == r.active
  }

  lemma {:induction false} DistinctStaysDistinct(routes: seq<Route>, sorted: seq<Route>, i: nat)
    requires multiset(sorted) == multiset(routes) && DistinctRoutes(routes) && i < |sorted|
    ensures forall j :: 0 <= j < |sorted| && j != i ==> !SameRoute(sorted[i], sorted[j])
  {
    forall j | 0 <= j < |sorted| && j != i ensures !SameRoute(sorted[i], sorted[j]) {
      assert sorted[i] in multiset(routes) && sorted[j] in multiset(routes);
      var a :| 0 <= a < |routes| && routes[a] == sorted[i];
      var b :| 0 <= b < |routes| && routes[b] == sorted[j];
      if SameRoute(sorted[i], sorted[j]) {
        assert a == b;
        TwiceCounts(sorted, i, j);
        assert multiset(routes)[routes[a]] >= 2;
        OnceCounts(routes, a);
      }
    }
  }

  lemma TwiceCounts(s: seq<Route>, i: nat, j: nat)
    requires i < |s| && j < |s| && i != j && s[i] == s[j]
    ensures multiset(s)[s[i]] >= 2
  {
    var lo, hi := if i < j then i else j, if i < j then j else i;
    assert s == s[..lo] + [s[lo]] + s[lo + 1..hi] + [s[hi]] + s[hi + 1..];
  }

  lemma OnceCounts(s: seq<Route>, i: nat)
    requires i < |s| && forall j :: 0 <= j < |s| && j != i ==> s[j] != s[i]
    ensures multiset(s)[s[i]] == 1
  {
    assert s == s[..i] + [s[i]] + s[i + 1..];
    assert s[i] !in multiset(s[..i]) && s[i] !in multiset(s[i + 1..]);
  }

  lemma ClientGrows(db: Db, c: Client, ps: seq<string>, rs: seq<Route>)
    requires Lists(c.routes, ps, rs)
    ensures Grown(db, ListedDeployed(db, c, ps, rs), [c])
  {
    var e := WithProducers(WithClient(db, c), c.id, ps);
    var d := ListedDeployed(db, c, ps, rs);
    ProducersRun(WithClient(db, c), c.id, ps);
    RoutesAdded(e, c.id, rs);
    ListsSame(c.routes, ps, rs);
    OneDeclared(c);
  }

  lemma OneDeclared(c: Client)
    ensures forall id :: IsDeclared([c], id) <==> id == c.id
    ensures forall k :: IsDeclaredRoute([c], k) <==> Declares(c, k)
  {
    assert [c][0] == c;
  }

  lemma RouteSettles(e: Db, c: Client, rs: seq<Route>, j: nat)
    requires j < |rs| && forall i :: 0 <= i < |rs| && i != j ==> !SameRoute(rs[j], rs[i])
    requires rs[j].producer in e.producers && Pair(c.id, rs[j].producer) in e.clientProducers
    ensures RouteSettled(WithRoutes(e, c.id, rs), c, rs[j])
  {
    RoutesAdded(e, c.id, rs);
    RoutesFlagged(e, c.id, rs, j);
  }

  lemma ClientSettles(db: Db, c: Client, ps: seq<string>, rs: seq<Route>)
    requires DistinctRoutes(c.routes) && Lists(c.routes, ps, rs)
    ensures Settled(ListedDeployed(db, c, ps, rs), c)
  {
    var e := WithProducers(WithClient(db, c), c.id, ps);
    ProducersRun(WithClient(db, c), c.id, ps);
    assert ListedDeployed(db, c, ps, rs).clients == WithClient(db, c).clients by {
      RoutesAdded(e, c.id, rs);
    }
    ListsSame(c.routes, ps, rs);
    forall i | 0 <= i < |c.routes| ensures RouteSettled(ListedDeployed(db, c, ps, rs), c, c.routes[i]) {
      assert c.routes[i] in rs;
      var j :| 0 <= j < |rs| && rs[j] == c.routes[i];
      DistinctStaysDistinct(c.routes, rs, j);
      RouteSettles(e, c, rs, j);
    }
  }

  // ----- the whole script -----

  lemma SortedLists(routes: seq<Route>)
    ensures Lists(routes, SortedProducers(routes), SortedRoutes(routes))
  {
  }

  /** A row that an earlier client settled stays settled under a later, different client. */
  lemma StaysSettled(db: Db, d: Db, earlier: Client, later: Client)
    requires Settled(db, earlier) && Grown(db, d, [later]) && earlier.id != later.id
    ensures Settled(d, earlier)
  {
    OneDeclared(later);
    forall i | 0 <= i < |earlier.routes| ensures RouteSettled(d, earlier, earlier.routes[i]) {
      assert RouteSettled(db, earlier, earlier.routes[i]);
      assert !Declares(later, RouteIdOf(earlier.id, earlier.routes[i]));
    }
  }

  lemma DeclaredFurther(front: seq<Client>, last: Client)
    ensures forall id :: IsDeclared(front + [last], id) <==> IsDeclared(front, id) || IsDeclared([last], id)
    ensures forall k :: IsDeclaredRoute(front + [last], k) <==> IsDeclaredRoute(front, k) || IsDeclaredRoute([last], k)
  {
    var all := front + [last];
    assert all[|front|] == last && forall i :: 0 <= i < |front| ==> all[i] == front[i];
    OneDeclared(last);
  }

  lemma RowsKeptFurther(db: Db, d: Db, e: Db)
    requires RowsKept(db, d) && RowsKept(d, e)
    ensures RowsKept(db, e)
  {
  }

  lemma OthersKeptFurther(db: Db, d: Db, e: Db, front: seq<Client>, last: Client)
    requires OthersKept(db, d, front) && OthersKept(d, e, [last])
    ensures OthersKept(db, e, front + [last])
  {
    DeclaredFurther(front, last);
  }

  /** Every declared row ends present with its declared flag; every other row stays untouched. */
  lemma {:induction false} DeployedIsSettled(db: Db, clients: seq<Client>)
    requires DistinctIds(clients) && forall i :: 0 <= i < |clients| ==> DistinctRoutes(clients[i].routes)
    ensures Grown(db, Deployed(db, clients), clients)
    ensures forall i :: 0 <= i < |clients| ==> Settled(Deployed(db, clients), clients[i])
  {
    if clients != [] {
      var n := |clients| - 1;
      DeployedIsSettled(db, clients[..n]);
      assert clients[..n] + [clients[n]] == clients;
      ClientDeployedSettles(Deployed(db, clients[..n]), clients[n]);
      RowsKeptFurther(db, Deployed(db, clients[..n]), Deployed(db, clients));
      OthersKeptFurther(db, Deployed(db, clients[..n]), Deployed(db, clients), clients[..n], clients[n]);
      forall i | 0 <= i < n ensures Settled(Deployed(db, clients), clients[i]) {
        StaysSettled(Deployed(db, clients[..n]), Deployed(db, clients), clients[..n][i], clients[n]);
      }
    }
  }

  lemma ClientDeployedSettles(db: Db, c: Client)
    requires DistinctRoutes(c.routes)
    ensures Grown(db, ClientDeployed(db, c), [c]) && Settled(ClientDeployed(db, c), c)
  {
    SortedLists(c.routes);
    ClientGrows(db, c, SortedProducers(c.routes), SortedRoutes(c.routes));
    ClientSettles(db, c, SortedProducers(c.routes), SortedRoutes(c.routes));
  }

  /** `d` has the clients of `db` and the declared ones, and new pairs only of known sources. */
  ghost predicate Extends(db: Db, d: Db, clients: seq<Client>) {
    && d.sources == db.sources
    && (forall id :: id in d.clients <==> id in db.clients || exists i :: 0 <= i < |clients| && clients[i].id == id)
    && (forall k :: k in db.producerSources ==> k in d.producerSources)
    && (forall k :: k in d.producerSources ==> k in db.producerSources || k.right in db.sources)
  }

  lemma ExtendsKnows(db: Db, d: Db, clients: seq<Client>, r: Route)
    requires Extends(db, d, clients)
    ensures SourceKnown(d, r) <==> SourceKnown(db, r)
  {
  }

  /** Admissibility does not depend on which other clients were deployed before. */
  lemma AdmissibleAfter(db: Db, d: Db, front: seq<Client>, c: Client)
    requires Extends(db, d, front) && forall i :: 0 <= i < |front| ==> front[i].id != c.id
    ensures Admissible(d, c) <==> Admissible(db, c)
  {
    forall i | 0 <= i < |c.routes| ensures SourceKnown(d, c.routes[i]) <==> SourceKnown(db, c.routes[i]) {
      ExtendsKnows(db, d, front, c.routes[i]);
    }
  }

  lemma ClientExtends(db: Db, c: Client, ps: seq<string>, rs: seq<Route>)
    requires Lists(c.routes, ps, rs) && Admissible(db, c)
    ensures Extends(db, ListedDeployed(db, c, ps, rs), [c])
  {
    ProducersRun(WithClient(db, c), c.id, ps);
    RoutesAdded(WithProducers(WithClient(db, c), c.id, ps), c.id, rs);
    ListsSame(c.routes, ps, rs);
    forall r | r in rs ensures SourceKnown(db, r) {
      assert r in c.routes;
    }
    assert [c][0] == c;
  }

  lemma ExtendsFurther(db: Db, d: Db, e: Db, front: seq<Client>, last: Client)
    requires Extends(db, d, front) && Extends(d, e, [last])
    ensures Extends(db, e, front + [last])
  {
    var all := front + [last];
    assert all[|front|] == last && forall i :: 0 <= i < |front| ==> all[i] == front[i];
    assert [last][0] == last;
  }

  /** One client's part of the script, from any database. */
  lemma ClientStep(db: Db, c: Client)
    ensures Run(db, ClientScript(c)) == if Admissible(db, c) then Some(ClientDeployed(db, c)) else None
    ensures Admissible(db, c) ==> Extends(db, ClientDeployed(db, c), [c])
  {
    SortedLists(c.routes);
    ClientRuns(db, c, SortedProducers(c.routes), SortedRoutes(c.routes));
    if Admissible(db, c) {
      ClientExtends(db, c, SortedProducers(c.routes), SortedRoutes(c.routes));
    }
  }

  /**
    The script runs through exactly when every absent client has a name that is not
    blank and every route's source is known; otherwise a statement is refused.
   */
  lemma {:induction false} ScriptRuns(db: Db, clients: seq<Client>)
    requires DistinctIds(clients)
    ensures Run(db, Script(clients)) == if AllAdmissible(db, clients) then Some(Deployed(db, clients)) else None
    ensures AllAdmissible(db, clients) ==> Extends(db, Deployed(db, clients), clients)
  {
    if clients != [] {
      var n := |clients| - 1;
      var front, c := clients[..n], clients[n];
      ScriptRuns(db, front);
      assert front + [c] == clients;
      ScriptStep(db, front, c);
    }
  }

  lemma ScriptStep(db: Db, front: seq<Client>, c: Client)
    requires forall i :: 0 <= i < |front| ==> front[i].id != c.id
    requires Run(db, Script(front)) == if AllAdmissible(db, front) then Some(Deployed(db, front)) else None
    requires AllAdmissible(db, front) ==> Extends(db, Deployed(db, front), front)
    ensures Run(db, Script(front + [c])) == if AllAdmissible(db, front + [c]) then Some(Deployed(db, front + [c])) else None
    ensures AllAdmissible(db, front + [c]) ==> Extends(db, Deployed(db, front + [c]), front + [c])
  {
    var all := front + [c];
    assert all[..|all| - 1] == front;
    AllAdmissibleSplit(db, front, c);
    RunConcat(db, Script(front), ClientScript(c));
    if AllAdmissible(db, front) {
      var d := Deployed(db, front);
      ClientStep(d, c);
      AdmissibleAfter(db, d, front, c);
      if Admissible(d, c) {
        ExtendsFurther(db, d, ClientDeployed(d, c), front, c);
      }
    }
  }

  lemma AllAdmissibleSplit(db: Db, front: seq<Client>, c: Client)
    ensures AllAdmissible(db, front + [c]) <==> AllAdmissible(db, front) && Admissible(db, c)
  {
    var all := front + [c];
    assert all[|front|] == c && forall i :: 0 <= i < |front| ==> all[i] == front[i];
  }

  /** A statement with nothing left to do. */
  predicate NoOp(db: Db, s: Statement) {
    Execute(db, s) == Some(db)
  }

  lemma {:induction false} ProducersNoOp(db: Db, client: string, ps: seq<string>)
    requires forall p :: p in ps ==> p in db.producers && Pair(client, p) in db.clientProducers
    ensures forall s :: s in ProducerStatements(client, ps) ==> NoOp(db, s)
  {
    if ps != [] {
      ProducersNoOp(db, client, ps[..|ps| - 1]);
      assert ps[|ps| - 1] in ps;
    }
  }

  lemma {:induction false} RoutesNoOp(db: Db, c: Client, rs: seq<Route>)
    requires forall r :: r in rs ==> RouteSettled(db, c, r)
    ensures forall s :: s in RouteStatements(c.id, rs) ==> NoOp(db, s)
  {
    if rs != [] {
      RoutesNoOp(db, c, rs[..|rs| - 1]);
      assert RouteSettled(db, c, rs[|rs| - 1]);
    }
  }

  lemma SettledNoOp(db: Db, c: Client)
    requires Settled(db, c)
    ensures forall s :: s in ClientScript(c) ==> NoOp(db, s)
  {
    var ps, rs := SortedProducers(c.routes), SortedRoutes(c.routes);
    SortedLists(c.routes);
    ListsSame(c.routes, ps, rs);
    forall r | r in c.routes ensures RouteSettled(db, c, r) {
      var i :| 0 <= i < |c.routes| && c.routes[i] == r;
    }
    ProducersNoOp(db, c.id, ps);
    RoutesNoOp(db, c, rs);
  }

  lemma {:induction false} ScriptNoOp(db: Db, clients: seq<Client>)
    requires forall i :: 0 <= i < |clients| ==> Settled(db, clients[i])
    ensures forall s :: s in Script(clients) ==> NoOp(db, s)
  {
    if clients != [] {
      ScriptNoOp(db, clients[..|clients| - 1]);
      SettledNoOp(db, clients[|clients| - 1]);
    }
  }

  /** After one run every statement of the script is a no-op, so running it again changes nothing. */
  lemma SecondRunChangesNothing(db: Db, clients: seq<Client>)
    requires ValidClients(clients) && Run(db, Script(clients)).Some?
    ensures var d := Run(db, Script(clients)).value;
      (forall s :: s in Script(clients) ==> NoOp(d, s)) && Run(d, Script(clients)) == Some(d)
  {
    ScriptRuns(db, clients);
    DeployedIsSettled(db, clients);
    var d := Deployed(db, clients);
    ScriptNoOp(d, clients);
    AllNoOps(d, Script(clients));
  }

  lemma {:induction false} AllNoOps(db: Db, script: seq<Statement>)
    requires forall s :: s in script ==> NoOp(db, s)
    ensures Run(db, script) == Some(db)
  {
    if script != [] {
      assert NoOp(db, script[0]);
      AllNoOps(db, script[1..]);
    }
  }

  /** What one run leaves: the declared rows with their declared flags, and every undeclared row as it was. */
  lemma FirstRunConverges(db: Db, clients: seq<Client>)
    requires ValidClients(clients) && AllAdmissible(db, clients)
    ensures Run(db, Script(clients)).Some?
    ensures var d := Run(db, Script(clients)).value;
      Grown(db, d, clients) && forall i :: 0 <= i < |clients| ==> Settled(d, clients[i])
  {
    ScriptRuns(db, clients);
    DeployedIsSettled(db, clients);
  }

  /** The parse lets a display name of spaces through, which the table refuses: the script then stops at that client. */
  lemma BlankNameIsRefused(db: Db)
    requires "a" !in db.clients
    ensures ValidClients([Client("a", " ", true, [])]) && Run(db, Script([Client("a", " ", true, [])])).None?
  {
    var c := Client("a", " ", true, []);
    assert [c][0] == c && !Admissible(db, c);
    ScriptRuns(db, [c]);
  }
}
