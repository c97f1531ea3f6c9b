/** The route query of the rendered gateway script against the search the documentation describes. */
module RouteQuery {
  import opened Common
  import opened DialPlan
  import opened Refinement
  import Like

  // ---- matching a called number ----

  /** The stored pattern's condition in the query: equality, or `LIKE` on the part before "...". */
  predicate SqlMatches(pattern: string, number: string) {
    || pattern == number
    || (&& Like.EndsWith(pattern, "...")
        && Like.Matches(number, pattern[..|pattern| - 3] + "%"))
  }

  /** What the pattern means: the whole number, or any number that starts with its stem. */
  predicate RouteMatches(pattern: string, number: string) {
    || pattern == number
    || (&& |pattern| >= 3 && pattern[|pattern| - 3..] == "..."
        && pattern[..|pattern| - 3] <= number)
  }

  lemma MatchIsPrefixTest(pattern: string, number: string)
    requires Dialable(pattern)
    ensures SqlMatches(pattern, number) <==> RouteMatches(pattern, number)
  {
    if Like.EndsWith(pattern, "...") {
      Like.PrefixPattern(number, pattern[..|pattern| - 3]);
    }
  }

  // ---- the query ----

  /** One row of the five-way join. Users and trunks are joined on their primary key, so a joined
      row is determined by its scope row, its route and its mailbox, if any. */
  datatype Joined = Joined(scope: Name, route: Name, mailbox: Option<Name>)

  /** The left join with the mailboxes: the matching ones, or one row without a mailbox. */
  function MailboxesFor(t: Tables, r: RouteRow): set<Option<Name>> {
    var hits := set m | m in t.mailboxes && ServesUser(t.mailboxes[m], r) :: Some(m);
    if hits == {} then {None} else hits
  }

  predicate ServesUser(m: MailboxRow, r: RouteRow) {
    r.kind == SIPUser && m.gateway == r.gateway && m.sipUser == r.targetRef && m.fallbackEnabled == 1
  }

  predicate Eligible(r: RouteRow, gateway: Name, scope: Name, number: string) {
    r.scope == scope && r.gateway == gateway && SqlMatches(r.calledNumber, number)
  }

  function Join(t: Tables, gateway: Name, policy: Name, number: string): set<Joined> {
    set k, n, m | k in t.policyScopes && k.0 == policy && n in t.routes && Eligible(t.routes[n], gateway, k.1, number)
                  && m in MailboxesFor(t, t.routes[n]) :: Joined(k.1, n, m)
  }

  /** `order by d.position, r.priority, r.name`. */
  predicate AtMost(t: Tables, rank: Collation, policy: Name, a: Joined, b: Joined)
    requires (policy, a.scope) in t.policyScopes && (policy, b.scope) in t.policyScopes
    requires a.route in t.routes && b.route in t.routes
  {
    var p, q := t.policyScopes[(policy, a.scope)], t.policyScopes[(policy, b.scope)];
    var x, y := t.routes[a.route].priority, t.routes[b.route].priority;
    p < q || (p == q && (x < y || (x == y && rank(a.route) <= rank(b.route))))
  }

  /** A row that `limit 1` may return: none sorts before it. Rows that tie are all allowed. */
  ghost predicate MayComeFirst(t: Tables, rank: Collation, gateway: Name, policy: Name, number: string, j: Joined) {
    && j in Join(t, gateway, policy, number)
    && forall o :: o in Join(t, gateway, policy, number) ==> AtMost(t, rank, policy, j, o)
  }

  /** The selected columns, with the query's defaults for missing joined rows. */
  datatype Answer = Answer(
    kind: TargetKind, targetRef: Name, targetExtension: string, targetHost: string, authUsername: string,
    terminationUri: string, callerId: string, digestUsername: string, digestRealm: string, digestHa1: string,
    mailbox: string, mailboxHost: string, mailboxExtension: string,
    timeout: int, onBusy: int, onUnavailable: int, onNoAnswer: int)

  function Select(t: Tables, r: RouteRow, mailbox: Option<Name>): Answer {
    var user := if r.kind == SIPUser then Lookup(t.users, r.targetRef) else None;
    var trunk := if r.kind == SIPTrunk then Lookup(t.trunks, r.targetRef) else None;
    var box := if mailbox.Some? then Lookup(t.mailboxes, mailbox.value) else None;
    Answer(r.kind, r.targetRef, OrEmpty(r.targetExtension), OrEmpty(r.targetHost),
           if user.Some? then user.value.authUsername else "",
           if trunk.Some? then trunk.value.terminationUri else "",
           if trunk.Some? then OrEmpty(trunk.value.outboundCallerId) else "",
           if trunk.Some? then OrEmpty(trunk.value.digestUsername) else "",
           if trunk.Some? then OrEmpty(trunk.value.digestRealm) else "",
           if trunk.Some? then OrEmpty(trunk.value.digestHa1) else "",
           if box.Some? then box.value.mailbox else "",
           if box.Some? then box.value.targetHost else "",
           if box.Some? then box.value.targetExtension else "",
           if box.Some? then box.value.timeoutSeconds else 0,
           if box.Some? then box.value.onBusy else 0,
           if box.Some? then box.value.onUnavailable else 0,
           if box.Some? then box.value.onNoAnswer else 0)
  }

  /** What the database may answer. */
  ghost predicate MayAnswer(t: Tables, rank: Collation, gateway: Name, policy: Name, number: string,
                            answer: Option<Answer>) {
    match answer
    case None => Join(t, gateway, policy, number) == {}
    case Some(a) =>
      exists j :: MayComeFirst(t, rank, gateway, policy, number, j) && a == Select(t, t.routes[j.route], j.mailbox)
  }

  // ---- the documented search ----

  function RoutesIn(routes: map<Name, RouteRow>, gateway: Name, scope: Name): set<Name> {
    set n | n in routes && routes[n].gateway == gateway && routes[n].scope == scope
  }

  predicate Before(routes: map<Name, RouteRow>, rank: Collation, a: Name, b: Name)
    requires a in routes && b in routes
  {
    routes[a].priority < routes[b].priority || (routes[a].priority == routes[b].priority && rank(a) < rank(b))
  }

  lemma {:induction false} LeastExists(routes: map<Name, RouteRow>, rank: Collation, names: set<Name>)
    requires names <= routes.Keys && names != {}
    ensures exists n :: n in names && forall m :: m in names ==> !Before(routes, rank, m, n)
  {
    var x :| x in names;
    var rest := names - {x};
    if rest == {} {
      assert names == {x};
    } else {
      LeastExists(routes, rank, rest);
      var y :| y in rest && forall m :: m in rest ==> !Before(routes, rank, m, y);
      var least := if Before(routes, rank, x, y) then x else y;
      forall m | m in names ensures !Before(routes, rank, m, least) {
        assert m == x || m in rest;
      }
    }
  }

  /** A scope's routes by priority, then by name. */
  ghost function InOrder(routes: map<Name, RouteRow>, rank: Collation, names: set<Name>): seq<Name>
    requires names <= routes.Keys
    decreases |names|
  {
    if names == {} then []
    else
      LeastExists(routes, rank, names);
      var n :| n in names && forall m :: m in names ==> !Before(routes, rank, m, n);
      [n] + InOrder(routes, rank, names - {n})
  }

  function FirstMatch(routes: map<Name, RouteRow>, number: string, list: seq<Name>): Option<Name>
    requires forall n :: n in list ==> n in routes
  {
    if list == [] then None
    else if RouteMatches(routes[list[0]].calledNumber, number) then Some(list[0])
    else FirstMatch(routes, number, list[1..])
  }

  lemma InOrderLists(routes: map<Name, RouteRow>, rank: Collation, names: set<Name>)
    requires names <= routes.Keys
    ensures forall n :: n in InOrder(routes, rank, names) <==> n in names
    decreases |names|
  {
    if names != {} {
      var first := InOrder(routes, rank, names)[0];
      InOrderLists(routes, rank, names - {first});
    }
  }

  ghost predicate Sorted(routes: map<Name, RouteRow>, rank: Collation, list: seq<Name>)
    requires forall n :: n in list ==> n in routes
  {
    list != [] ==> (forall m :: m in list[1..] ==> !Before(routes, rank, m, list[0])) && Sorted(routes, rank, list[1..])
  }

  /** The list holds exactly the given routes, each once, and no route sorts before an earlier one. */
  lemma {:induction false} InOrderIsSorted(routes: map<Name, RouteRow>, rank: Collation, names: set<Name>)
    requires names <= routes.Keys
    ensures |InOrder(routes, rank, names)| == |names|
    ensures forall n :: n in InOrder(routes, rank, names) <==> n in names
    ensures Sorted(routes, rank, InOrder(routes, rank, names))
    decreases |names|
  {
    InOrderLists(routes, rank, names);
    if names != {} {
      var list := InOrder(routes, rank, names);
      var rest := names - {list[0]};
      assert list[1..] == InOrder(routes, rank, rest);
      InOrderLists(routes, rank, rest);
      InOrderIsSorted(routes, rank, rest);
    }
  }

  /** Scopes in the order the policy lists them; in each, the gateway's routes in order; the first
      that matches the number. */
  ghost function Search(routes: map<Name, RouteRow>, rank: Collation, gateway: Name, number: string,
                        scopes: seq<Name>): Option<Name>
  {
    if scopes == [] then None
    else
      var names := RoutesIn(routes, gateway, scopes[0]);
      InOrderLists(routes, rank, names);
      var hit := FirstMatch(routes, number, InOrder(routes, rank, names));
      if hit.Some? then hit else Search(routes, rank, gateway, number, scopes[1..])
  }

  /** The documented route selection, on the plan: a policy nobody wrote has no scopes. */
  ghost function FindRoute(p: Plan, rank: Collation, gateway: Name, policy: Name, number: string): Option<Name> {
    Search(p.routes, rank, gateway, number, if policy in p.policies then p.policies[policy].scopes else [])
  }

  // ---- the search finds a least match ----

  predicate Fits(r: RouteRow, gateway: Name, scope: Name, number: string) {
    r.gateway == gateway && r.scope == scope && RouteMatches(r.calledNumber, number)
  }

  lemma {:induction false} FirstMatchIsLeast(routes: map<Name, RouteRow>, rank: Collation, number: string,
                                             names: set<Name>)
    requires names <= routes.Keys
    requires forall n :: n in InOrder(routes, rank, names) <==> n in names
    ensures match FirstMatch(routes, number, InOrder(routes, rank, names))
      case Some(n) =>
        && n in names && RouteMatches(routes[n].calledNumber, number)
        && (forall m :: m in names && RouteMatches(routes[m].calledNumber, number) ==> !Before(routes, rank, m, n))
      case None => forall m :: m in names ==> !RouteMatches(routes[m].calledNumber, number)
    decreases |names|
  {
    if names != {} {
      var list := InOrder(routes, rank, names);
      var rest := names - {list[0]};
      InOrderLists(routes, rank, rest);
      assert list[1..] == InOrder(routes, rank, rest);
      FirstMatchIsLeast(routes, rank, number, rest);
      assert forall m :: m in names ==> m == list[0] || m in rest;
    }
  }

  /** The scope at which the search stops, with nothing to find in the scopes before it. */
  lemma {:induction false} SearchIsLeast(routes: map<Name, RouteRow>, rank: Collation, gateway: Name, number: string,
                                         scopes: seq<Name>) returns (at: nat)
    ensures match Search(routes, rank, gateway, number, scopes)
      case Some(n) =>
        && at < |scopes| && n in routes && Fits(routes[n], gateway, scopes[at], number)
        && (forall m :: m in routes && Fits(routes[m], gateway, scopes[at], number) ==> !Before(routes, rank, m, n))
        && (forall i, m :: 0 <= i < at && m in routes ==> !Fits(routes[m], gateway, scopes[i], number))
      case None => forall i, m :: 0 <= i < |scopes| && m in routes ==> !Fits(routes[m], gateway, scopes[i], number)
    decreases |scopes|
  {
    at := 0;
    if scopes != [] {
      var names := RoutesIn(routes, gateway, scopes[0]);
      InOrderLists(routes, rank, names);
      FirstMatchIsLeast(routes, rank, number, names);
      if FirstMatch(routes, number, InOrder(routes, rank, names)).None? {
        forall m | m in routes ensures !Fits(routes[m], gateway, scopes[0], number) {
          assert m in names || routes[m].gateway != gateway || routes[m].scope != scopes[0];
        }
        at := SearchIsLeast(routes, rank, gateway, number, scopes[1..]);
        at := at + 1;
        var found := Search(routes, rank, gateway, number, scopes);
        forall i, m | 0 <= i < |scopes| && m in routes && (found.Some? ==> i < at)
          ensures !Fits(routes[m], gateway, scopes[i], number)
        {
          if i > 0 {
            assert scopes[i] == scopes[1..][i - 1];
          }
        }
      }
    }
  }

  // ---- the query is the search ----

  ghost predicate DialableRoutes(p: Plan) {
    forall n :: n in p.routes ==> Dialable(p.routes[n].calledNumber)
  }

  /** A joined row is a route that fits a scope of the policy, at the scope's position in the spec. */
  lemma JoinedRowFits(md5: Md5, t: Tables, p: Plan, gateway: Name, policy: Name, number: string, j: Joined)
    returns (at: nat)
    requires Stands(md5, t, p) && DialableRoutes(p) && j in Join(t, gateway, policy, number)
    ensures policy in p.policies && at < |p.policies[policy].scopes| && p.policies[policy].scopes[at] == j.scope
    ensures t.policyScopes[(policy, j.scope)] == at
    ensures j.route in p.routes && Fits(p.routes[j.route], gateway, j.scope, number)
  {
    assert (policy, j.scope) in t.policyScopes && j.route in t.routes;
    at :| 0 <= at < |p.policies[policy].scopes| && p.policies[policy].scopes[at] == j.scope;
    MatchIsPrefixTest(p.routes[j.route].calledNumber, number);
  }

  /** Conversely a fitting route of a listed scope is joined, once for each of its mailboxes. */
  lemma FittingRouteIsJoined(md5: Md5, t: Tables, p: Plan, gateway: Name, policy: Name, number: string, at: nat,
                             n: Name, m: Option<Name>)
    requires Stands(md5, t, p) && DialableRoutes(p) && policy in p.policies && at < |p.policies[policy].scopes|
    requires n in p.routes && Fits(p.routes[n], gateway, p.policies[policy].scopes[at], number)
    requires m in MailboxesFor(t, t.routes[n])
    ensures Joined(p.policies[policy].scopes[at], n, m) in Join(t, gateway, policy, number)
  {
    MatchIsPrefixTest(p.routes[n].calledNumber, number);
    assert (policy, p.policies[policy].scopes[at]) in t.policyScopes;
  }

  lemma NoMailboxServes(t: Tables, r: RouteRow)
    requires None in MailboxesFor(t, r)
    ensures forall m :: m in t.mailboxes ==> !ServesUser(t.mailboxes[m], r)
  {
    var hits := set m | m in t.mailboxes && ServesUser(t.mailboxes[m], r) :: Some(m);
    forall m | m in t.mailboxes ensures !ServesUser(t.mailboxes[m], r) {
      assert ServesUser(t.mailboxes[m], r) ==> Some(m) in hits;
    }
  }

  lemma SomeMailboxRow(t: Tables, r: RouteRow) returns (m: Option<Name>)
    ensures m in MailboxesFor(t, r)
  {
    m :| m in MailboxesFor(t, r);
  }

  /** In every store that pictures a plan: any row the database may put first is the route the
      documented search finds, and there is a row exactly when the search finds one. */
  lemma FirstRowIsFoundRoute(md5: Md5, t: Tables, p: Plan, rank: Collation, gateway: Name, policy: Name, number: string,
                             j: Joined)
    requires Stands(md5, t, p) && DialableRoutes(p) && Deterministic(rank)
    requires MayComeFirst(t, rank, gateway, policy, number, j)
    ensures FindRoute(p, rank, gateway, policy, number) == Some(j.route)
    ensures policy in p.policies && p.routes[j.route].scope in p.policies[policy].scopes
  {
    var i := JoinedRowFits(md5, t, p, gateway, policy, number, j);
    var scopes := p.policies[policy].scopes;
    var at := SearchIsLeast(p.routes, rank, gateway, number, scopes);
    var found := FindRoute(p, rank, gateway, policy, number);
    assert found.Some? by {
      assert Fits(p.routes[j.route], gateway, scopes[i], number);
    }
    var n := found.value;
    var m := SomeMailboxRow(t, t.routes[n]);
    FittingRouteIsJoined(md5, t, p, gateway, policy, number, at, n, m);
    assert AtMost(t, rank, policy, j, Joined(scopes[at], n, m));
    assert i == at;
    assert !Before(p.routes, rank, j.route, n);
  }

  lemma EmptyJoinMeansNoRoute(md5: Md5, t: Tables, p: Plan, rank: Collation, gateway: Name, policy: Name,
                              number: string)
    requires Stands(md5, t, p) && DialableRoutes(p)
    ensures Join(t, gateway, policy, number) == {} <==> FindRoute(p, rank, gateway, policy, number).None?
  {
    var scopes := if policy in p.policies then p.policies[policy].scopes else [];
    var at := SearchIsLeast(p.routes, rank, gateway, number, scopes);
    if FindRoute(p, rank, gateway, policy, number).Some? {
      var n := FindRoute(p, rank, gateway, policy, number).value;
      var m := SomeMailboxRow(t, t.routes[n]);
      FittingRouteIsJoined(md5, t, p, gateway, policy, number, at, n, m);
    } else {
      forall j | j in Join(t, gateway, policy, number) ensures false {
        var i := JoinedRowFits(md5, t, p, gateway, policy, number, j);
      }
    }
  }

  /** Whatever the database answers is the documented choice: its target columns are the plan's. */
  lemma QueryRefinesSearch(md5: Md5, t: Tables, p: Plan, rank: Collation, gateway: Name, policy: Name, number: string,
                           answer: Option<Answer>)
    requires Stands(md5, t, p) && DialableRoutes(p) && Deterministic(rank)
    requires MayAnswer(t, rank, gateway, policy, number, answer)
    ensures answer.None? <==> FindRoute(p, rank, gateway, policy, number).None?
    ensures answer.Some? ==>
      var n := FindRoute(p, rank, gateway, policy, number).value;
      && n in p.routes && policy in p.policies && p.routes[n].scope in p.policies[policy].scopes
      && exists m :: m in MailboxesFor(t, p.routes[n]) && answer.value == Select(t, p.routes[n], m)
  {
    EmptyJoinMeansNoRoute(md5, t, p, rank, gateway, policy, number);
    if answer.Some? {
      var j :| && MayComeFirst(t, rank, gateway, policy, number, j)
               && answer.value == Select(t, t.routes[j.route], j.mailbox);
      FirstRowIsFoundRoute(md5, t, p, rank, gateway, policy, number, j);
      assert j.mailbox in MailboxesFor(t, t.routes[j.route]);
    }
  }

  /** Every mailbox of the found route may be the one selected: with two fallback mailboxes for a
      user, either can answer; with one or none, the answer is determined. */
  lemma EveryMailboxMayAnswer(md5: Md5, t: Tables, p: Plan, rank: Collation, gateway: Name, policy: Name,
                              number: string, n: Name, m: Option<Name>)
    requires Stands(md5, t, p) && DialableRoutes(p)
    requires FindRoute(p, rank, gateway, policy, number) == Some(n)
    requires n in p.routes && m in MailboxesFor(t, p.routes[n])
    ensures MayAnswer(t, rank, gateway, policy, number, Some(Select(t, p.routes[n], m)))
  {
    var scopes := if policy in p.policies then p.policies[policy].scopes else [];
    var at := SearchIsLeast(p.routes, rank, gateway, number, scopes);
    FittingRouteIsJoined(md5, t, p, gateway, policy, number, at, n, m);
    var j := Joined(scopes[at], n, m);
    forall o | o in Join(t, gateway, policy, number) ensures AtMost(t, rank, policy, j, o) {
      var i := JoinedRowFits(md5, t, p, gateway, policy, number, o);
      assert !(i < at);
      assert i == at ==> !Before(p.routes, rank, o.route, n);
    }
    assert MayComeFirst(t, rank, gateway, policy, number, j);
  }

  /** The database always has an answer. */
  lemma AnAnswerExists(md5: Md5, t: Tables, p: Plan, rank: Collation, gateway: Name, policy: Name, number: string)
    returns (answer: Option<Answer>)
    requires Stands(md5, t, p) && DialableRoutes(p)
    ensures MayAnswer(t, rank, gateway, policy, number, answer)
  {
    EmptyJoinMeansNoRoute(md5, t, p, rank, gateway, policy, number);
    answer := None;
    if Join(t, gateway, policy, number) != {} {
      var scopes := if policy in p.policies then p.policies[policy].scopes else [];
      var at := SearchIsLeast(p.routes, rank, gateway, number, scopes);
      var n := FindRoute(p, rank, gateway, policy, number).value;
      var m := SomeMailboxRow(t, t.routes[n]);
      EveryMailboxMayAnswer(md5, t, p, rank, gateway, policy, number, n, m);
      answer := Some(Select(t, p.routes[n], m));
    }
  }
}
