/** The database as the operator drives it: each method is one transaction over mutable tables, and
    `Serve` a history of them. */
module Store {
  import opened Common
  import opened DialPlan
  import opened Refinement
  import opened Voicemail

  ghost predicate StoreInvariant(md5: Md5, t: Tables, p: Plan) {
    Stands(md5, t, p) && IdsSound(t.voicemail, t.nextUniqueId) && t.nextUniqueId >= 1
  }

  lemma RequestKeepsInvariant(md5: Md5, t: Tables, p: Plan, op: Op, done: Txn)
    requires StoreInvariant(md5, t, p) && done == Apply(md5, t, op)
    ensures StoreInvariant(md5, done.tables, Advance(p, op)) && done.committed == Accepts(p, op)
  {
    ApplyStands(md5, t, p, op);
    RequestKeepsIds(md5, t, op);
  }

  class Database {
    const md5: Md5
    var scopes: map<Name, OwnedRow>
    var policies: map<Name, OwnedRow>
    var policyScopes: map<(Name, Name), int>
    var users: map<Name, UserRow>
    var subscribers: map<(string, Name), SubscriberRow>
    var trunks: map<Name, TrunkRow>
    var cidrs: set<(Name, Cidr)>
    var routes: map<Name, RouteRow>
    var mailboxes: map<Name, MailboxRow>
    var voicemail: map<(string, string), VoicemailRow>
    var nextUniqueId: nat
    ghost var plan: Plan

    /** The tables are the picture of the plan, and voicemail users are soundly numbered. */
    ghost predicate Valid()
      reads this
    {
      StoreInvariant(md5, View(), plan)
    }

    ghost function View(): Tables
      reads this
    {
      Tables(scopes, policies, policyScopes, users, subscribers, trunks, cidrs, routes, mailboxes, voicemail,
             nextUniqueId)
    }

    /** The schema the first migration creates. */
    constructor (hash: Md5)
      ensures Valid() && md5 == hash && View() == EMPTY_TABLES && plan == EMPTY_PLAN
    {
      md5 := hash;
      scopes, policies, policyScopes := map[], map[], map[];
      users, subscribers := map[], map[];
      trunks, cidrs, routes := map[], {}, map[];
      mailboxes, voicemail, nextUniqueId := map[], map[], 1;
      plan := EMPTY_PLAN;
    }

    /** A history of requests: which of them are accepted, and the plan they leave. */
    method Serve(ops: seq<Op>) returns (accepted: seq<bool>)
      requires Valid()
      modifies this
      ensures Valid() && plan == Pursue(old(plan), ops) && View() == Run(md5, old(View()), ops)
      ensures accepted == Verdicts(old(plan), ops)
    {
      accepted := [];
      for i := 0 to |ops|
        invariant Valid() && plan == Pursue(old(plan), ops[..i]) && View() == Run(md5, old(View()), ops[..i])
        invariant accepted == Verdicts(old(plan), ops[..i])
      {
        RunGrows(md5, old(View()), ops, i);
        PursueGrows(old(plan), ops, i);
        var committed := Perform(ops[i]);
        accepted := accepted + [committed];
      }
      assert ops[..|ops|] == ops;
    }

    /** One request: it commits exactly when the plan accepts it, and the tables stay its picture. */
    method Perform(op: Op) returns (committed: bool)
      requires Valid()
      modifies this
      ensures Valid() && plan == Advance(old(plan), op)
      ensures committed == Accepts(old(plan), op)
      ensures View() == Apply(md5, old(View()), op).tables
    {
      ghost var before := View();
      committed := Dispatch(op);
      RequestKeepsInvariant(md5, before, plan, op, Txn(View(), committed));
      plan := Advance(plan, op);
      assert View() == Apply(md5, before, op).tables;
    }

    method Dispatch(op: Op) returns (committed: bool)
      modifies this
      ensures plan == old(plan)
      ensures Txn(View(), committed) == Apply(md5, old(View()), op)
    {
      committed := true;
      match op {
        case OnScope(Put(n, s)) => ReconcileCallScope(n, s);
        case OnScope(Drop(n)) => DeleteCallScope(n);
        case OnPolicy(Put(n, s)) => committed := ReconcileDialPolicy(n, s);
        case OnPolicy(Drop(n)) => DeleteDialPolicy(n);
        case OnUser(Put(n, s)) => committed := ReconcileSipUser(n, s);
        case OnUser(Drop(n)) => DeleteSipUser(n);
        case OnTrunk(Put(n, s)) => committed := ReconcileSipTrunk(n, s);
        case OnTrunk(Drop(n)) => DeleteSipTrunk(n);
        case OnRoute(Put(n, s)) => ReconcileCallRoute(n, s);
        case OnRoute(Drop(n)) => DeleteCallRoute(n);
        case _ => DispatchVoicemail(op);
      }
    }

    method DispatchVoicemail(op: Op)
      requires op.OnMailbox? || op.ChangePin?
      modifies `mailboxes, `voicemail, `nextUniqueId
      ensures Txn(View(), true) == Apply(md5, old(View()), op)
    {
      match op {
        case OnMailbox(Put(n, s)) => ReconcileVoicemailMailbox(n, s);
        case OnMailbox(Drop(n)) => DeleteVoicemailMailbox(n);
        case ChangePin(key, pin) => ChangeVoicemailPin(key, pin);
      }
    }

    method ReconcileCallScope(name: Name, row: OwnedRow)
      modifies `scopes
      ensures View() == Apply(md5, old(View()), OnScope(Put(name, row))).tables
    {
      scopes := scopes[name := row];
    }

    method DeleteCallScope(name: Name)
      modifies `scopes
      ensures View() == Apply(md5, old(View()), OnScope(Drop(name))).tables
    {
      scopes := scopes - {name};
    }

    /** Upserts the policy, clears its scope rows and inserts one row per scope with its position. */
    method ReconcileDialPolicy(name: Name, spec: PolicySpec) returns (committed: bool)
      modifies `policies, `policyScopes
      ensures Txn(View(), committed) == Apply(md5, old(View()), OnPolicy(Put(name, spec)))
    {
      var savedPolicies, savedScopes := policies, policyScopes;
      policies := policies[name := OwnedRow(spec.gateway, spec.uid)];
      policyScopes := map k | k in policyScopes && k.0 != name :: policyScopes[k];
      committed := InsertScopes(name, spec.scopes);
      if !committed {
        policies, policyScopes := savedPolicies, savedScopes;
      }
    }

    /** Inserts the enumerated scopes until a primary key repeats. */
    method InsertScopes(name: Name, list: seq<Name>) returns (inserted: bool)
      requires forall k :: k in policyScopes ==> k.0 != name
      modifies `policyScopes
      ensures inserted == Distinct(list)
      ensures inserted ==> policyScopes == old(policyScopes) + Positions(name, list)
    {
      for position := 0 to |list|
        invariant Distinct(list[..position])
        invariant policyScopes == old(policyScopes) + Positions(name, list[..position])
      {
        PositionsGrow(name, list, position);
        DistinctGrows(list, position);
        var key := (name, list[position]);
        if key in policyScopes {
          return false;
        }
        policyScopes := policyScopes[key := position];
      }
      assert list[..|list|] == list;
      return true;
    }

    method DeleteDialPolicy(name: Name)
      modifies `policies, `policyScopes
      ensures View() == Apply(md5, old(View()), OnPolicy(Drop(name))).tables
    {
      policyScopes := map k | k in policyScopes && k.0 != name :: policyScopes[k];
      policies := policies - {name};
    }

    /** Upserts the subscriber first; when the user row then meets a unique constraint, both go back. */
    method ReconcileSipUser(name: Name, spec: UserSpec) returns (committed: bool)
      modifies `users, `subscribers
      ensures Txn(View(), committed) == Apply(md5, old(View()), OnUser(Put(name, spec)))
    {
      var saved := subscribers;
      subscribers := subscribers[(spec.username, spec.domain) := SubscriberOf(md5, name, spec)];
      var row := UserOf(spec);
      if exists other :: other in users && other != name && Clash(users[other], row) {
        subscribers := saved;
        return false;
      }
      users := users[name := row];
      return true;
    }

    method DeleteSipUser(name: Name)
      modifies `users, `subscribers
      ensures View() == Apply(md5, old(View()), OnUser(Drop(name))).tables
      ensures name !in users && forall k :: k in subscribers ==> subscribers[k].owner != name
      ensures forall n :: n != name ==> Lookup(users, n) == old(Lookup(users, n))
      ensures forall k :: k in old(subscribers) && old(subscribers[k].owner) != name ==>
        Lookup(subscribers, k) == old(Lookup(subscribers, k))
    {
      users := users - {name};
      subscribers := map k | k in subscribers && subscribers[k].owner != name :: subscribers[k];
    }

    /** Upserts the trunk, clears its source networks and inserts the new ones. */
    method ReconcileSipTrunk(name: Name, spec: TrunkSpec) returns (committed: bool)
      modifies `trunks, `cidrs
      ensures Txn(View(), committed) == Apply(md5, old(View()), OnTrunk(Put(name, spec)))
    {
      var savedTrunks, savedCidrs := trunks, cidrs;
      trunks := trunks[name := spec.row];
      cidrs := set k | k in cidrs && k.0 != name;
      committed := InsertSources(name, spec.sources);
      if !committed {
        trunks, cidrs := savedTrunks, savedCidrs;
      }
    }

    /** Inserts the source networks until a primary key repeats. */
    method InsertSources(name: Name, list: seq<Cidr>) returns (inserted: bool)
      requires forall k :: k in cidrs ==> k.0 != name
      modifies `cidrs
      ensures inserted == Distinct(list)
      ensures inserted ==> cidrs == old(cidrs) + Sources(name, list)
    {
      for i := 0 to |list|
        invariant Distinct(list[..i])
        invariant cidrs == old(cidrs) + Sources(name, list[..i])
      {
        var key := (name, list[i]);
        if key in cidrs {
          assert list[i] in list[..i];
          return false;
        }
        assert list[i] !in list[..i];
        cidrs := cidrs + {key};
        assert list[..i+1] == list[..i] + [list[i]];
        assert Sources(name, list[..i+1]) == Sources(name, list[..i]) + {key};
      }
      assert list[..|list|] == list;
      return true;
    }

    method DeleteSipTrunk(name: Name)
      modifies `trunks, `cidrs
      ensures View() == Apply(md5, old(View()), OnTrunk(Drop(name))).tables
    {
      cidrs := set k | k in cidrs && k.0 != name;
      trunks := trunks - {name};
    }

    method ReconcileCallRoute(name: Name, row: RouteRow)
      modifies `routes
      ensures View() == Apply(md5, old(View()), OnRoute(Put(name, row))).tables
    {
      routes := routes[name := row];
    }

    method DeleteCallRoute(name: Name)
      modifies `routes
      ensures View() == Apply(md5, old(View()), OnRoute(Drop(name))).tables
    {
      routes := routes - {name};
    }

    method ReconcileVoicemailMailbox(name: Name, spec: MailboxSpec)
      modifies `mailboxes, `voicemail, `nextUniqueId
      ensures View() == Apply(md5, old(View()), OnMailbox(Put(name, spec))).tables
      ensures Upserted(old(voicemail), voicemail, spec)
      ensures old(AllServed(View())) ==> AllServed(View())
    {
      UpsertServes(md5, View(), name, spec);
      UpsertVoicemailUser(name, spec);
      mailboxes := mailboxes[name := MailboxOf(spec)];
    }

    /** Draws the next `uniqueid` whether or not a row is inserted, as PostgreSQL does when it
        evaluates the column default before it sees the conflict. */
    method UpsertVoicemailUser(name: Name, spec: MailboxSpec)
      modifies `voicemail, `nextUniqueId
      ensures voicemail == VoicemailRows(old(voicemail), mailboxes, old(nextUniqueId), Put(name, spec))
      ensures nextUniqueId == old(nextUniqueId) + 1
    {
      var key := ("default", spec.mailbox);
      var id := nextUniqueId;
      nextUniqueId := nextUniqueId + 1;
      if key in voicemail {
        voicemail := voicemail[key := voicemail[key].(fullname := FullName(spec), email := Email(spec))];
      } else {
        voicemail := voicemail[key := VoicemailRow(id, spec.mailbox, FullName(spec), Email(spec))];
      }
    }

    method DeleteVoicemailMailbox(name: Name)
      modifies `mailboxes, `voicemail
      ensures View() == Apply(md5, old(View()), OnMailbox(Drop(name))).tables
      ensures name !in mailboxes
      ensures old(AllServed(View())) ==> (AllServed(View()) <==> !old(SharesNumber(View(), name)))
    {
      DeletionServes(md5, View(), name);
      if name in mailboxes {
        voicemail := voicemail - {("default", mailboxes[name].mailbox)};
      }
      mailboxes := mailboxes - {name};
    }

    /** Asterisk's own write, when a caller changes the PIN. */
    method ChangeVoicemailPin(key: (string, string), pin: string)
      modifies `voicemail
      ensures View() == Apply(md5, old(View()), ChangePin(key, pin)).tables
    {
      if key in voicemail {
        voicemail := voicemail[key := voicemail[key].(password := pin)];
      }
    }
  }

  lemma PositionsGrow(name: Name, list: seq<Name>, i: nat)
    requires i < |list|
    ensures (name, list[i]) in Positions(name, list[..i]) <==> list[i] in list[..i]
    ensures Positions(name, list[..i+1]) == Positions(name, list[..i])[(name, list[i]) := i]
  {
    PositionsAt(name, list[..i]);
    assert list[..i+1][..i] == list[..i];
  }

  lemma DistinctGrows<T>(list: seq<T>, i: nat)
    requires i < |list| && Distinct(list[..i])
    ensures list[i] in list[..i] ==> !Distinct(list)
    ensures list[i] !in list[..i] ==> Distinct(list[..i+1])
  {
    if list[i] in list[..i] {
      var j :| 0 <= j < i && list[..i][j] == list[i];
      assert list[j] == list[i];
    }
  }
}
