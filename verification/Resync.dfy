/** What the periodic re-sync may rely on: reconciling is order independent and idempotent for the
    resources that no unique constraint ties together. */
module Resync {
  import opened Common
  import opened DialPlan
  import opened Refinement

  // ---- scopes, policies, trunks and routes ----

  datatype Kind = ScopeKind | PolicyKind | TrunkKind | RouteKind

  /** All the rows that belong to one resource. */
  datatype Slice =
    | ScopeSlice(scope: Option<OwnedRow>)
    | PolicySlice(policy: Option<OwnedRow>, positions: map<Name, int>)
    | TrunkSlice(trunk: Option<TrunkRow>, sources: set<Cidr>)
    | RouteSlice(route: Option<RouteRow>)

  function ScopesOf(rows: map<(Name, Name), int>, n: Name): map<Name, int> {
    map s | s in (set k | k in rows && k.0 == n :: k.1) && (n, s) in rows :: rows[(n, s)]
  }

  function SourcesOf(rows: set<(Name, Cidr)>, n: Name): set<Cidr> {
    set k | k in rows && k.0 == n :: k.1
  }

  function Numbered(scopes: seq<Name>): map<Name, int>
    requires Distinct(scopes)
  {
    map i | 0 <= i < |scopes| :: scopes[i] := i
  }

  function SliceOf(t: Tables, kind: Kind, n: Name): Slice {
    match kind
    case ScopeKind => ScopeSlice(Lookup(t.scopes, n))
    case PolicyKind => PolicySlice(Lookup(t.policies, n), ScopesOf(t.policyScopes, n))
    case TrunkKind => TrunkSlice(Lookup(t.trunks, n), SourcesOf(t.cidrs, n))
    case RouteKind => RouteSlice(Lookup(t.routes, n))
  }

  /** A reconcile of one of these four kinds that the resource models accept. */
  predicate Simple(op: Op) {
    match op
    case OnScope(c) => c.Put?
    case OnPolicy(c) => c.Put? && Distinct(c.spec.scopes)
    case OnTrunk(c) => c.Put? && Distinct(c.spec.sources)
    case OnRoute(c) => c.Put?
    case _ => false
  }

  function KeyOf(op: Op): (Kind, Name)
    requires Simple(op)
  {
    match op
    case OnScope(c) => (ScopeKind, c.name)
    case OnPolicy(c) => (PolicyKind, c.name)
    case OnTrunk(c) => (TrunkKind, c.name)
    case OnRoute(c) => (RouteKind, c.name)
  }

  /** The rows a spec asks for, and no others. */
  function Requested(op: Op): Slice
    requires Simple(op)
  {
    match op
    case OnScope(c) => ScopeSlice(Some(c.spec))
    case OnPolicy(c) =>
      PolicySlice(Some(OwnedRow(c.spec.gateway, c.spec.uid)), Numbered(c.spec.scopes))
    case OnTrunk(c) => TrunkSlice(Some(c.spec.row), set s | s in c.spec.sources)
    case OnRoute(c) => RouteSlice(Some(c.spec))
  }

  ghost predicate SameElsewhere(t: Tables, t': Tables) {
    && t'.users == t.users && t'.subscribers == t.subscribers && t'.mailboxes == t.mailboxes
    && t'.voicemail == t.voicemail && t'.nextUniqueId == t.nextUniqueId
  }

  lemma ScopesOfAt(rows: map<(Name, Name), int>, n: Name, s: Name)
    ensures Lookup(ScopesOf(rows, n), s) == Lookup(rows, (n, s))
  {
    if (n, s) in rows {
      assert (n, s).1 in set k | k in rows && k.0 == n :: k.1;
    }
  }

  lemma NumberedAt(scopes: seq<Name>, s: Name)
    requires Distinct(scopes)
    ensures s in Numbered(scopes) <==> s in scopes
    ensures forall i :: 0 <= i < |scopes| && scopes[i] == s ==> Lookup(Numbered(scopes), s) == Some(i)
  {
    if s in scopes {
      var i :| 0 <= i < |scopes| && scopes[i] == s;
      assert scopes[i] in Numbered(scopes);
    }
  }

  lemma ScopesAfterPut(rows: map<(Name, Name), int>, n: Name, scopes: seq<Name>, other: Name)
    requires Distinct(scopes)
    ensures ScopesOf(WithoutPolicy(rows, n) + Positions(n, scopes), other)
         == if other == n then Numbered(scopes) else ScopesOf(rows, other)
  {
    PositionsAt(n, scopes);
    var after := WithoutPolicy(rows, n) + Positions(n, scopes);
    var expected := if other == n then Numbered(scopes) else ScopesOf(rows, other);
    forall s ensures Lookup(ScopesOf(after, other), s) == Lookup(expected, s) {
      ScopesOfAt(after, other, s);
      ScopesOfAt(rows, other, s);
      NumberedAt(scopes, s);
    }
    SameLookupsSameMap(ScopesOf(after, other), expected);
  }

  lemma SourcesAfterPut(rows: set<(Name, Cidr)>, n: Name, sources: seq<Cidr>, other: Name)
    ensures SourcesOf(WithoutTrunk(rows, n) + Sources(n, sources), other)
         == if other == n then set s | s in sources else SourcesOf(rows, other)
  {
    var after := WithoutTrunk(rows, n) + Sources(n, sources);
    forall s ensures (other, s) in after <==> if other == n then s in sources else (other, s) in rows {
    }
    forall s | (other, s) in after ensures s in SourcesOf(after, other) {
      assert (other, s).1 == s;
    }
    forall s | (other, s) in rows ensures s in SourcesOf(rows, other) {
      assert (other, s).1 == s;
    }
  }

  /** One reconcile gives its resource exactly the requested rows and leaves every other alone. */
  lemma PutSettlesOneResource(md5: Md5, t: Tables, op: Op, kind: Kind, n: Name)
    requires Simple(op)
    ensures SameElsewhere(t, Apply(md5, t, op).tables)
    ensures SliceOf(Apply(md5, t, op).tables, kind, n)
         == if KeyOf(op) == (kind, n) then Requested(op) else SliceOf(t, kind, n)
  {
    match op
    case OnPolicy(c) => ScopesAfterPut(t.policyScopes, c.name, c.spec.scopes, n);
    case OnTrunk(c) => SourcesAfterPut(t.cidrs, c.name, c.spec.sources, n);
    case _ =>
  }

  /** The slices and the other tables together are the whole store. */
  lemma SlicesDetermineTables(t: Tables, t': Tables)
    requires SameElsewhere(t, t')
    requires forall kind, n :: SliceOf(t, kind, n) == SliceOf(t', kind, n)
    ensures t == t'
  {
    forall n ensures Lookup(t.scopes, n) == Lookup(t'.scopes, n) && Lookup(t.routes, n) == Lookup(t'.routes, n) {
      assert SliceOf(t, ScopeKind, n) == SliceOf(t', ScopeKind, n);
      assert SliceOf(t, RouteKind, n) == SliceOf(t', RouteKind, n);
    }
    SameLookupsSameMap(t.scopes, t'.scopes);
    SameLookupsSameMap(t.routes, t'.routes);
    forall n ensures Lookup(t.policies, n) == Lookup(t'.policies, n) && Lookup(t.trunks, n) == Lookup(t'.trunks, n) {
      assert SliceOf(t, PolicyKind, n) == SliceOf(t', PolicyKind, n);
      assert SliceOf(t, TrunkKind, n) == SliceOf(t', TrunkKind, n);
    }
    SameLookupsSameMap(t.policies, t'.policies);
    SameLookupsSameMap(t.trunks, t'.trunks);
    PolicySlicesDetermine(t, t');
    TrunkSlicesDetermine(t, t');
  }

  lemma PolicySlicesDetermine(t: Tables, t': Tables)
    requires forall n :: SliceOf(t, PolicyKind, n) == SliceOf(t', PolicyKind, n)
    ensures t.policyScopes == t'.policyScopes
  {
    forall k | k in t.policyScopes || k in t'.policyScopes
      ensures k in t.policyScopes && k in t'.policyScopes && t.policyScopes[k] == t'.policyScopes[k]
    {
      assert SliceOf(t, PolicyKind, k.0) == SliceOf(t', PolicyKind, k.0);
      ScopesOfAt(t.policyScopes, k.0, k.1);
      ScopesOfAt(t'.policyScopes, k.0, k.1);
    }
  }

  lemma TrunkSlicesDetermine(t: Tables, t': Tables)
    requires forall n :: SliceOf(t, TrunkKind, n) == SliceOf(t', TrunkKind, n)
    ensures t.cidrs == t'.cidrs
  {
    forall k | k in t.cidrs || k in t'.cidrs ensures k in t.cidrs && k in t'.cidrs {
      assert SliceOf(t, TrunkKind, k.0) == SliceOf(t', TrunkKind, k.0);
      assert k.1 in SourcesOf(t.cidrs, k.0) && k.1 in SourcesOf(t'.cidrs, k.0);
    }
  }

  // ---- a pass over many resources ----

  /** A pass: simple reconciles of pairwise different resources. */
  ghost predicate Pass(ops: seq<Op>) {
    && (forall i :: 0 <= i < |ops| ==> Simple(ops[i]))
    && (forall i, j :: 0 <= i < j < |ops| ==> KeyOf(ops[i]) != KeyOf(ops[j]))
  }

  ghost predicate Settled(t: Tables, t': Tables, ops: seq<Op>)
    requires Pass(ops)
  {
    && SameElsewhere(t, t')
    && (forall i :: 0 <= i < |ops| ==> SliceOf(t', KeyOf(ops[i]).0, KeyOf(ops[i]).1) == Requested(ops[i]))
    && (forall kind, n :: (forall i :: 0 <= i < |ops| ==> KeyOf(ops[i]) != (kind, n)) ==>
          SliceOf(t', kind, n) == SliceOf(t, kind, n))
  }

  /** After a pass each resource's rows are exactly those of its spec, and all others are untouched. */
  lemma {:induction false} PassSettles(md5: Md5, t: Tables, ops: seq<Op>)
    requires Pass(ops)
    ensures Settled(t, Run(md5, t, ops), ops)
    decreases |ops|
  {
    if ops != [] {
      var rest, t1 := ops[1..], Apply(md5, t, ops[0]).tables;
      var t' := Run(md5, t1, rest);
      assert forall i :: 0 <= i < |rest| ==> rest[i] == ops[i + 1];
      PassSettles(md5, t1, rest);
      PutSettlesOneResource(md5, t, ops[0], KeyOf(ops[0]).0, KeyOf(ops[0]).1);
      forall kind, n | (forall i :: 0 <= i < |ops| ==> KeyOf(ops[i]) != (kind, n))
        ensures SliceOf(t', kind, n) == SliceOf(t, kind, n)
      {
        PutSettlesOneResource(md5, t, ops[0], kind, n);
        assert KeyOf(ops[0]) != (kind, n);
      }
    }
  }

  lemma SettledTablesAgree(t: Tables, t1: Tables, t2: Tables, ops1: seq<Op>, ops2: seq<Op>)
    requires Pass(ops1) && Pass(ops2)
    requires forall op :: op in ops1 <==> op in ops2
    requires Settled(t, t1, ops1) && Settled(t, t2, ops2)
    ensures t1 == t2
  {
    forall kind, n ensures SliceOf(t1, kind, n) == SliceOf(t2, kind, n) {
      if exists i :: 0 <= i < |ops1| && KeyOf(ops1[i]) == (kind, n) {
        var i :| 0 <= i < |ops1| && KeyOf(ops1[i]) == (kind, n);
        assert ops1[i] in ops2;
      } else {
        forall j | 0 <= j < |ops2| ensures KeyOf(ops2[j]) != (kind, n) {
          assert ops2[j] in ops1;
        }
      }
    }
    SlicesDetermineTables(t1, t2);
  }

  /** From any tables, a pass in any order ends in the same tables. */
  lemma PassIsOrderIndependent(md5: Md5, t: Tables, ops: seq<Op>, shuffled: seq<Op>)
    requires Pass(ops) && Pass(shuffled) && multiset(ops) == multiset(shuffled)
    ensures Run(md5, t, ops) == Run(md5, t, shuffled)
  {
    PassSettles(md5, t, ops);
    PassSettles(md5, t, shuffled);
    forall op ensures op in ops <==> op in shuffled {
      assert op in ops <==> op in multiset(ops);
      assert op in shuffled <==> op in multiset(shuffled);
    }
    SettledTablesAgree(t, Run(md5, t, ops), Run(md5, t, shuffled), ops, shuffled);
  }

  /** A second pass changes nothing. */
  lemma PassIsIdempotent(md5: Md5, t: Tables, ops: seq<Op>)
    requires Pass(ops)
    ensures Run(md5, Run(md5, t, ops), ops) == Run(md5, t, ops)
  {
    var t1 := Run(md5, t, ops);
    PassSettles(md5, t, ops);
    PassSettles(md5, t1, ops);
    SettledTablesAgree(t1, t1, Run(md5, t1, ops), ops, ops);
  }

  // ---- the timer on a settled store ----

  /** The request that repeats what the plan already says about one resource, mailboxes aside. */
  ghost predicate Repeats(p: Plan, op: Op) {
    match op
    case OnScope(Put(n, s)) => Lookup(p.scopes, n) == Some(s)
    case OnPolicy(Put(n, s)) => Lookup(p.policies, n) == Some(s)
    case OnUser(Put(n, s)) => Lookup(p.users, n) == Some(s)
    case OnTrunk(Put(n, s)) => Lookup(p.trunks, n) == Some(s)
    case OnRoute(Put(n, s)) => Lookup(p.routes, n) == Some(s)
    case _ => false
  }

  /** In every store that pictures a plan, the timer's reconcile of a live scope, policy, user,
      trunk or route commits and leaves every table as it is, credentials included. */
  lemma TimerChangesNothing(md5: Md5, t: Tables, p: Plan, op: Op)
    requires Stands(md5, t, p) && Repeats(p, op)
    ensures Apply(md5, t, op) == Txn(t, true)
  {
    match op
    case OnPolicy(c) => RepeatedPolicy(md5, t, p.policies, c.name);
    case OnUser(c) => RepeatedUser(md5, t, p.users, c.name);
    case OnTrunk(c) => RepeatedTrunk(md5, t, p.trunks, c.name);
    case OnScope(c) => RepeatedRow(t.scopes, c.name);
    case OnRoute(c) => RepeatedRow(t.routes, c.name);
  }

  lemma RepeatedRow<V>(rows: map<Name, V>, n: Name)
    ensures n in rows ==> rows[n := rows[n]] == rows
  {
  }

  lemma RepeatedPolicy(md5: Md5, t: Tables, specs: map<Name, PolicySpec>, n: Name)
    requires PoliciesStand(t.policies, t.policyScopes, specs)
    ensures n in specs ==> Apply(md5, t, OnPolicy(Put(n, specs[n]))) == Txn(t, true)
  {
    if n in specs {
      RepeatedPositions(t.policies, t.policyScopes, specs, n);
    }
  }

  lemma RepeatedPositions(rows: map<Name, OwnedRow>, positions: map<(Name, Name), int>, specs: map<Name, PolicySpec>,
                          n: Name)
    requires PoliciesStand(rows, positions, specs) && n in specs
    ensures PolicyRows(rows, Put(n, specs[n])) == rows && ScopeRows(positions, Put(n, specs[n])) == positions
  {
    PositionsAt(n, specs[n].scopes);
  }

  lemma RepeatedUser(md5: Md5, t: Tables, specs: map<Name, UserSpec>, n: Name)
    requires UsersStand(md5, t.users, t.subscribers, specs)
    ensures n in specs ==> Apply(md5, t, OnUser(Put(n, specs[n]))) == Txn(t, true)
  {
    if n in specs {
      TakenMeansRefused(t.users, specs, n, specs[n]);
      assert Holds(md5, t.subscribers, n, specs[n]);
    }
  }

  lemma RepeatedTrunk(md5: Md5, t: Tables, specs: map<Name, TrunkSpec>, n: Name)
    requires TrunksStand(t.trunks, t.cidrs, specs)
    ensures n in specs ==> Apply(md5, t, OnTrunk(Put(n, specs[n]))) == Txn(t, true)
  {
    if n in specs {
      assert SourceRows(t.cidrs, Put(n, specs[n])) == t.cidrs;
    }
  }
}
