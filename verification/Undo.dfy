/** What deleting a resource undoes: all of its creation, unless it took over somebody's old login or
    somebody's voicemail number. */
module Undo {
  import opened Common
  import opened DialPlan
  import opened Refinement

  /** An accepted request for a resource that is not there yet. */
  ghost predicate Creates(p: Plan, op: Op) {
    && Accepts(p, op)
    && match op
       case OnScope(c) => c.Put? && c.name !in p.scopes
       case OnPolicy(c) => c.Put? && c.name !in p.policies
       case OnUser(c) => c.Put? && c.name !in p.users
       case OnTrunk(c) => c.Put? && c.name !in p.trunks
       case OnRoute(c) => c.Put? && c.name !in p.routes
       case OnMailbox(c) => c.Put? && c.name !in p.mailboxes
       case ChangePin(_, _) => false
  }

  function Deletion(op: Op): Op {
    match op
    case OnScope(c) => OnScope(Drop(c.name))
    case OnPolicy(c) => OnPolicy(Drop(c.name))
    case OnUser(c) => OnUser(Drop(c.name))
    case OnTrunk(c) => OnTrunk(Drop(c.name))
    case OnRoute(c) => OnRoute(Drop(c.name))
    case OnMailbox(c) => OnMailbox(Drop(c.name))
    case ChangePin(_, _) => op
  }

  function CreatedAndDeleted(md5: Md5, t: Tables, op: Op): Tables {
    Apply(md5, Apply(md5, t, op).tables, Deletion(op)).tables
  }

  lemma RowUndone<V>(rows: map<Name, V>, n: Name, row: V)
    ensures n !in rows ==> rows[n := row] - {n} == rows
  {
  }

  lemma PolicyUndone(rows: map<Name, OwnedRow>, positions: map<(Name, Name), int>, specs: map<Name, PolicySpec>,
                     n: Name, q: PolicySpec)
    requires PoliciesStand(rows, positions, specs)
    ensures n !in specs ==>
      && PolicyRows(PolicyRows(rows, Put(n, q)), Drop(n)) == rows
      && ScopeRows(ScopeRows(positions, Put(n, q)), Drop(n)) == positions
  {
    PositionsAt(n, q.scopes);
    if n !in specs {
      assert WithoutPolicy(positions, n) == positions;
    }
  }

  lemma TrunkUndone(trunks: map<Name, TrunkRow>, cidrs: set<(Name, Cidr)>, specs: map<Name, TrunkSpec>, n: Name,
                    k: TrunkSpec)
    requires TrunksStand(trunks, cidrs, specs)
    ensures n !in specs ==>
      && TrunkRows(TrunkRows(trunks, Put(n, k)), Drop(n)) == trunks
      && SourceRows(SourceRows(cidrs, Put(n, k)), Drop(n)) == cidrs
  {
    if n !in specs {
      assert WithoutTrunk(cidrs, n) == cidrs;
    }
  }

  /** The deleted user's credential goes with it, also when it was another user's before. */
  lemma LoginUndone(md5: Md5, subscribers: map<(string, Name), SubscriberRow>, owners: set<Name>, n: Name, u: UserSpec)
    requires NoOrphans(subscribers, owners)
    ensures n !in owners ==>
      (Credentials(md5, Credentials(md5, subscribers, Put(n, u)), Drop(n)) == subscribers
       <==> (u.username, u.domain) !in subscribers)
  {
    var after := Credentials(md5, Credentials(md5, subscribers, Put(n, u)), Drop(n));
    assert (u.username, u.domain) !in after;
    if n !in owners && (u.username, u.domain) !in subscribers {
      assert after == subscribers;
    }
  }

  lemma NumberUndone(rows: map<(string, string), VoicemailRow>, boxes: map<Name, MailboxRow>, id: nat, n: Name,
                     m: MailboxSpec)
    ensures VoicemailRows(VoicemailRows(rows, boxes, id, Put(n, m)), boxes[n := MailboxOf(m)], id, Drop(n)) == rows
       <==> NumberOf(m) !in rows
  {
    var after := VoicemailRows(VoicemailRows(rows, boxes, id, Put(n, m)), boxes[n := MailboxOf(m)], id, Drop(n));
    assert NumberOf(m) !in after;
    if NumberOf(m) !in rows {
      assert after == rows;
    }
  }

  lemma UserUndone(md5: Md5, t: Tables, p: Plan, n: Name, u: UserSpec)
    requires Stands(md5, t, p) && Creates(p, OnUser(Put(n, u)))
    ensures CreatedAndDeleted(md5, t, OnUser(Put(n, u))) == t <==> (u.username, u.domain) !in p.logins
  {
    CommitMeansAccepted(t, p, OnUser(Put(n, u)));
    RowUndone(t.users, n, UserOf(u));
    LoginUndone(md5, t.subscribers, t.users.Keys, n, u);
  }

  lemma MailboxUndone(md5: Md5, t: Tables, p: Plan, n: Name, m: MailboxSpec)
    requires Stands(md5, t, p) && Creates(p, OnMailbox(Put(n, m)))
    ensures CreatedAndDeleted(md5, t, OnMailbox(Put(n, m))) == t.(nextUniqueId := t.nextUniqueId + 1)
       <==> NumberOf(m) !in p.numbers
  {
    RowUndone(t.mailboxes, n, MailboxOf(m));
    NumberUndone(t.voicemail, t.mailboxes, t.nextUniqueId, n, m);
  }

  lemma PolicyRequestUndone(md5: Md5, t: Tables, p: Plan, n: Name, q: PolicySpec)
    requires Stands(md5, t, p) && Creates(p, OnPolicy(Put(n, q)))
    ensures CreatedAndDeleted(md5, t, OnPolicy(Put(n, q))) == t
  {
    PolicyUndone(t.policies, t.policyScopes, p.policies, n, q);
  }

  lemma TrunkRequestUndone(md5: Md5, t: Tables, p: Plan, n: Name, k: TrunkSpec)
    requires Stands(md5, t, p) && Creates(p, OnTrunk(Put(n, k)))
    ensures CreatedAndDeleted(md5, t, OnTrunk(Put(n, k))) == t
  {
    TrunkUndone(t.trunks, t.cidrs, p.trunks, n, k);
  }

  lemma OneRowUndone(md5: Md5, t: Tables, p: Plan, op: Op)
    requires Stands(md5, t, p) && Creates(p, op) && (op.OnScope? || op.OnRoute?)
    ensures CreatedAndDeleted(md5, t, op) == t
  {
    match op
    case OnScope(Put(n, row)) => RowUndone(t.scopes, n, row);
    case OnRoute(Put(n, row)) => RowUndone(t.routes, n, row);
  }

  /** Creating and then deleting a resource leaves the tables as they were: always for scopes, policies,
      trunks and routes; for a user exactly when no live user ever had its username, and for a mailbox,
      the drawn row number aside, exactly when nobody had its number. */
  lemma DeletingUndoesCreating(md5: Md5, t: Tables, p: Plan, op: Op)
    requires Stands(md5, t, p) && Creates(p, op)
    ensures match op
      case OnUser(c) => CreatedAndDeleted(md5, t, op) == t <==> (c.spec.username, c.spec.domain) !in p.logins
      case OnMailbox(c) =>
        CreatedAndDeleted(md5, t, op) == t.(nextUniqueId := t.nextUniqueId + 1) <==> NumberOf(c.spec) !in p.numbers
      case _ => CreatedAndDeleted(md5, t, op) == t
  {
    match op
    case OnUser(c) => UserUndone(md5, t, p, c.name, c.spec);
    case OnMailbox(c) => MailboxUndone(md5, t, p, c.name, c.spec);
    case OnPolicy(c) => PolicyRequestUndone(md5, t, p, c.name, c.spec);
    case OnTrunk(c) => TrunkRequestUndone(md5, t, p, c.name, c.spec);
    case _ => OneRowUndone(md5, t, p, op);
  }

  /** The plan after a user is created and renamed: the old login is still the user's. */
  lemma RenamedUser(a: Name, u: UserSpec, username: string)
    requires username != u.username
    ensures var p := Pursue(EMPTY_PLAN, [OnUser(Put(a, u)), OnUser(Put(a, u.(username := username)))]);
      p.users == map[a := u.(username := username)] && (u.username, u.domain) in p.logins
  {
    var first, second := OnUser(Put(a, u)), OnUser(Put(a, u.(username := username)));
    var p1 := Advance(EMPTY_PLAN, first);
    assert p1.users == map[a := u] && p1.logins == map[(u.username, u.domain) := (a, u)];
    assert [first, second][1..] == [second];
    assert Pursue(p1, [second]) == Advance(p1, second);
  }

  /** A username that its owner gave up may be given to a new user, whose deletion then takes the
      credential along. */
  lemma TakenLoginIsReachable(md5: Md5, a: Name, b: Name, u: UserSpec, username: string, v: UserSpec)
    requires a != b && u.domain == v.domain && u.username == v.username && u.extension != v.extension
    requires username != u.username
    ensures var ops := [OnUser(Put(a, u)), OnUser(Put(a, u.(username := username)))];
      && Creates(Pursue(EMPTY_PLAN, ops), OnUser(Put(b, v)))
      && CreatedAndDeleted(md5, Run(md5, EMPTY_TABLES, ops), OnUser(Put(b, v))) != Run(md5, EMPTY_TABLES, ops)
  {
    var ops := [OnUser(Put(a, u)), OnUser(Put(a, u.(username := username)))];
    RenamedUser(a, u, username);
    assert Creates(Pursue(EMPTY_PLAN, ops), OnUser(Put(b, v)));
    ReachableStands(md5, ops);
    UserUndone(md5, Run(md5, EMPTY_TABLES, ops), Pursue(EMPTY_PLAN, ops), b, v);
  }

  /** A number that another mailbox has may be given to a new mailbox, whose deletion then takes the
      voicemail user along. */
  lemma TakenNumberIsReachable(md5: Md5, a: Name, b: Name, m: MailboxSpec, m': MailboxSpec)
    requires a != b && m.mailbox == m'.mailbox
    ensures var t, op := Run(md5, EMPTY_TABLES, [OnMailbox(Put(a, m))]), OnMailbox(Put(b, m'));
      && Creates(Pursue(EMPTY_PLAN, [OnMailbox(Put(a, m))]), op)
      && CreatedAndDeleted(md5, t, op) != t.(nextUniqueId := t.nextUniqueId + 1)
  {
    var ops := [OnMailbox(Put(a, m))];
    var p := Pursue(EMPTY_PLAN, ops);
    assert ops[1..] == [];
    assert p == Pursue(Advance(EMPTY_PLAN, ops[0]), []);
    assert p.mailboxes == map[a := m] && NumberOf(m') in p.numbers;
    ReachableStands(md5, ops);
    MailboxUndone(md5, Run(md5, EMPTY_TABLES, ops), p, b, m');
  }
}
