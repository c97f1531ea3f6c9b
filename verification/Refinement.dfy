/** The tables are a faithful picture of the plan, after any run of transactions: each table is
    determined by it, but for the row numbers of voicemail users. */
module Refinement {
  import opened Common
  import opened DialPlan

  /** Policies and their scope rows: positions count up in spec order, and no row lacks its policy. */
  ghost predicate PoliciesStand(rows: map<Name, OwnedRow>, positions: map<(Name, Name), int>,
                                specs: map<Name, PolicySpec>) {
    && rows.Keys == specs.Keys
    && (forall n :: n in specs ==> rows[n] == OwnedRow(specs[n].gateway, specs[n].uid) && Distinct(specs[n].scopes))
    && (forall n, i :: n in specs && 0 <= i < |specs[n].scopes| ==>
         (n, specs[n].scopes[i]) in positions && positions[(n, specs[n].scopes[i])] == i)
    && (forall k :: k in positions ==> k.0 in specs && k.1 in specs[k.0].scopes)
  }

  ghost predicate Holds(md5: Md5, subscribers: map<(string, Name), SubscriberRow>, n: Name, u: UserSpec) {
    && (u.username, u.domain) in subscribers
    && subscribers[(u.username, u.domain)] == SubscriberOf(md5, n, u)
  }

  /** Users and credentials: every user's credential row is the one its last committed reconcile
      wrote, and no two users share an identity. */
  ghost predicate UsersStand(md5: Md5, users: map<Name, UserRow>, subscribers: map<(string, Name), SubscriberRow>,
                             specs: map<Name, UserSpec>) {
    && users.Keys == specs.Keys
    && (forall n {:trigger users[n]} {:trigger specs[n]} :: n in specs ==> users[n] == UserOf(specs[n]))
    && (forall n, m :: n in specs && m in specs && n != m ==> !SameIdentity(specs[n], specs[m]))
    && (forall n {:trigger specs[n]} :: n in specs ==> Holds(md5, subscribers, n, specs[n]))
  }

  /** No credential outlives its owner, and none holds a raw password. */
  ghost predicate NoOrphans(subscribers: map<(string, Name), SubscriberRow>, owners: set<Name>) {
    forall k :: k in subscribers ==> subscribers[k].password == "" && subscribers[k].owner in owners
  }

  /** Every credential, old names included, is the one its last claimant wrote. */
  ghost predicate LoginsStand(md5: Md5, subscribers: map<(string, Name), SubscriberRow>,
                              logins: map<(string, Name), (Name, UserSpec)>) {
    && subscribers.Keys == logins.Keys
    && forall k :: k in logins ==>
         && k == (logins[k].1.username, logins[k].1.domain)
         && subscribers[k] == SubscriberOf(md5, logins[k].0, logins[k].1)
  }

  /** Voicemail users: name and e-mail are of the mailbox that set the number up last, and the PIN is
      the caller's choice or else the number. */
  ghost predicate NumbersStand(voicemail: map<(string, string), VoicemailRow>,
                               numbers: map<(string, string), MailboxSpec>, pins: map<(string, string), string>) {
    && voicemail.Keys == numbers.Keys && pins.Keys <= numbers.Keys
    && forall k :: k in numbers ==>
         && k == NumberOf(numbers[k])
         && voicemail[k].fullname == FullName(numbers[k]) && voicemail[k].email == Email(numbers[k])
         && voicemail[k].password == if k in pins then pins[k] else k.1
  }

  /** Trunks and source networks: the networks of a trunk are those of its spec. */
  ghost predicate TrunksStand(trunks: map<Name, TrunkRow>, cidrs: set<(Name, Cidr)>, specs: map<Name, TrunkSpec>) {
    && trunks.Keys == specs.Keys
    && (forall n :: n in specs ==> trunks[n] == specs[n].row && Distinct(specs[n].sources))
    && (forall k :: k in cidrs ==> k.0 in specs && k.1 in specs[k.0].sources)
    && (forall n, c :: n in specs && c in specs[n].sources ==> (n, c) in cidrs)
  }

  ghost predicate MailboxesStand(rows: map<Name, MailboxRow>, specs: map<Name, MailboxSpec>) {
    && rows.Keys == specs.Keys
    && forall n :: n in specs ==> rows[n] == MailboxOf(specs[n])
  }

  ghost predicate Stands(md5: Md5, t: Tables, p: Plan) {
    && t.scopes == p.scopes
    && t.routes == p.routes
    && PoliciesStand(t.policies, t.policyScopes, p.policies)
    && UsersStand(md5, t.users, t.subscribers, p.users)
    && NoOrphans(t.subscribers, t.users.Keys)
    && TrunksStand(t.trunks, t.cidrs, p.trunks)
    && MailboxesStand(t.mailboxes, p.mailboxes)
    && LoginsStand(md5, t.subscribers, p.logins)
    && NumbersStand(t.voicemail, p.numbers, p.pins)
  }

  lemma PoliciesAreDetermined(rows: map<Name, OwnedRow>, positions: map<(Name, Name), int>, rows': map<Name, OwnedRow>,
                              positions': map<(Name, Name), int>, specs: map<Name, PolicySpec>)
    requires PoliciesStand(rows, positions, specs) && PoliciesStand(rows', positions', specs)
    ensures rows == rows' && positions == positions'
  {
    forall k | k in positions || k in positions'
      ensures k in positions && k in positions' && positions[k] == positions'[k]
    {
      var i :| 0 <= i < |specs[k.0].scopes| && specs[k.0].scopes[i] == k.1;
      assert k == (k.0, specs[k.0].scopes[i]);
    }
  }

  lemma UsersAreDetermined(md5: Md5, t: Tables, t': Tables, p: Plan)
    requires UsersStand(md5, t.users, t.subscribers, p.users) && UsersStand(md5, t'.users, t'.subscribers, p.users)
    ensures t.users == t'.users
  {
    forall n | n in p.users ensures t.users[n] == t'.users[n] {
      assert t.users[n] == UserOf(p.users[n]);
    }
  }

  lemma LoginsAreDetermined(md5: Md5, subscribers: map<(string, Name), SubscriberRow>,
                            subscribers': map<(string, Name), SubscriberRow>,
                            logins: map<(string, Name), (Name, UserSpec)>)
    requires LoginsStand(md5, subscribers, logins) && LoginsStand(md5, subscribers', logins)
    ensures subscribers == subscribers'
  {
  }

  lemma TrunksAreDetermined(trunks: map<Name, TrunkRow>, cidrs: set<(Name, Cidr)>, trunks': map<Name, TrunkRow>,
                            cidrs': set<(Name, Cidr)>, specs: map<Name, TrunkSpec>)
    requires TrunksStand(trunks, cidrs, specs) && TrunksStand(trunks', cidrs', specs)
    ensures trunks == trunks' && cidrs == cidrs'
  {
    forall k ensures k in cidrs <==> k in cidrs' {
      assert k == (k.0, k.1);
    }
  }

  lemma MailboxesAreDetermined(t: Tables, t': Tables, p: Plan)
    requires MailboxesStand(t.mailboxes, p.mailboxes) && MailboxesStand(t'.mailboxes, p.mailboxes)
    requires NumbersStand(t.voicemail, p.numbers, p.pins) && NumbersStand(t'.voicemail, p.numbers, p.pins)
    ensures t.mailboxes == t'.mailboxes && t.voicemail.Keys == t'.voicemail.Keys
    ensures forall k :: k in t.voicemail ==> t'.voicemail[k] == t.voicemail[k].(uniqueid := t'.voicemail[k].uniqueid)
  {
  }

  /** A plan has one picture: two stores that stand for it differ at most in the row numbers of
      voicemail users and in how far the sequence has advanced. */
  lemma PlanDeterminesTables(md5: Md5, t: Tables, t': Tables, p: Plan)
    requires Stands(md5, t, p) && Stands(md5, t', p)
    ensures t' == t.(voicemail := t'.voicemail, nextUniqueId := t'.nextUniqueId)
    ensures t.voicemail.Keys == t'.voicemail.Keys
    ensures forall k :: k in t.voicemail ==> t'.voicemail[k] == t.voicemail[k].(uniqueid := t'.voicemail[k].uniqueid)
  {
    PoliciesAreDetermined(t.policies, t.policyScopes, t'.policies, t'.policyScopes, p.policies);
    UsersAreDetermined(md5, t, t', p);
    LoginsAreDetermined(md5, t.subscribers, t'.subscribers, p.logins);
    TrunksAreDetermined(t.trunks, t.cidrs, t'.trunks, t'.cidrs, p.trunks);
    MailboxesAreDetermined(t, t', p);
  }

  // ---- one transaction ----

  lemma PoliciesFollow(rows: map<Name, OwnedRow>, positions: map<(Name, Name), int>, specs: map<Name, PolicySpec>,
                       c: Change<PolicySpec>)
    requires PoliciesStand(rows, positions, specs)
    requires c.Put? ==> Distinct(c.spec.scopes)
    ensures PoliciesStand(PolicyRows(rows, c), ScopeRows(positions, c), Changed(specs, c))
  {
    if c.Put? {
      PositionsAt(c.name, c.spec.scopes);
    }
  }

  lemma TrunksFollow(trunks: map<Name, TrunkRow>, cidrs: set<(Name, Cidr)>, specs: map<Name, TrunkSpec>,
                     c: Change<TrunkSpec>)
    requires TrunksStand(trunks, cidrs, specs)
    requires c.Put? ==> Distinct(c.spec.sources)
    ensures TrunksStand(TrunkRows(trunks, c), SourceRows(cidrs, c), Changed(specs, c))
  {
  }

  /** The unique constraints refuse a user exactly when another live user has its identity. */
  lemma TakenMeansRefused(users: map<Name, UserRow>, specs: map<Name, UserSpec>, n: Name, u: UserSpec)
    requires users.Keys == specs.Keys && forall m :: m in specs ==> users[m] == UserOf(specs[m])
    ensures Taken(users, n, UserOf(u)) <==> exists m :: m in specs && m != n && SameIdentity(specs[m], u)
  {
    forall m | m in specs ensures Clash(users[m], UserOf(u)) == SameIdentity(specs[m], u) {
      assert users[m] == UserOf(specs[m]);
    }
  }

  /** The credential row a reconcile writes belonged to no other live user, whoever owned it before;
      a delete removes only the rows its user owns. */
  lemma CredentialFollows(md5: Md5, subscribers: map<(string, Name), SubscriberRow>, c: Change<UserSpec>,
                          m: Name, u: UserSpec)
    requires Holds(md5, subscribers, m, u) && m != c.name
    requires c.Put? ==> !SameIdentity(u, c.spec)
    ensures Holds(md5, Credentials(md5, subscribers, c), m, u)
  {
  }

  lemma UsersFollow(md5: Md5, users: map<Name, UserRow>, subscribers: map<(string, Name), SubscriberRow>,
                    specs: map<Name, UserSpec>, c: Change<UserSpec>)
    requires UsersStand(md5, users, subscribers, specs)
    requires c.Put? ==> forall m :: m in specs && m != c.name ==> !SameIdentity(specs[m], c.spec)
    ensures UsersStand(md5, UserRows(users, c), Credentials(md5, subscribers, c), Changed(specs, c))
  {
    var specs', credentials := Changed(specs, c), Credentials(md5, subscribers, c);
    forall m | m in specs' ensures Holds(md5, credentials, m, specs'[m]) {
      if m in specs && m != c.name {
        CredentialFollows(md5, subscribers, c, m, specs[m]);
      }
    }
    forall n, m | n in specs' && m in specs' && n != m ensures !SameIdentity(specs'[n], specs'[m]) {
      if n in specs && m in specs {
        assert !SameIdentity(specs[n], specs[m]);
      }
    }
  }

  lemma NoOrphansFollow(md5: Md5, users: map<Name, UserRow>, subscribers: map<(string, Name), SubscriberRow>,
                        c: Change<UserSpec>)
    requires NoOrphans(subscribers, users.Keys)
    ensures NoOrphans(Credentials(md5, subscribers, c), UserRows(users, c).Keys)
  {
  }

  lemma MailboxesFollow(rows: map<Name, MailboxRow>, specs: map<Name, MailboxSpec>, c: Change<MailboxSpec>)
    requires MailboxesStand(rows, specs)
    ensures MailboxesStand(MailboxRows(rows, c), Changed(specs, c))
  {
  }

  lemma LoginsFollow(md5: Md5, subscribers: map<(string, Name), SubscriberRow>,
                     logins: map<(string, Name), (Name, UserSpec)>, c: Change<UserSpec>)
    requires LoginsStand(md5, subscribers, logins)
    ensures LoginsStand(md5, Credentials(md5, subscribers, c), LoginsAfter(logins, c))
  {
  }

  lemma NumberSetUp(rows: map<(string, string), VoicemailRow>, numbers: map<(string, string), MailboxSpec>,
                    pins: map<(string, string), string>, m: MailboxSpec, id: nat)
    requires NumbersStand(rows, numbers, pins)
    ensures NumbersStand(rows[NumberOf(m) := VoicemailOf(m, Lookup(rows, NumberOf(m)), id)],
                         numbers[NumberOf(m) := m], pins)
  {
  }

  lemma NumbersFollow(rows: map<(string, string), VoicemailRow>, numbers: map<(string, string), MailboxSpec>,
                      pins: map<(string, string), string>, boxes: map<Name, MailboxRow>, specs: map<Name, MailboxSpec>,
                      id: nat, c: Change<MailboxSpec>)
    requires NumbersStand(rows, numbers, pins) && MailboxesStand(boxes, specs)
    ensures NumbersStand(VoicemailRows(rows, boxes, id, c), NumbersAfter(numbers, specs, c), pins - GivenUp(specs, c))
  {
    match c
    case Put(_, m) =>
      NumberSetUp(rows, numbers, pins, m, id);
      assert pins - GivenUp(specs, c) == pins;
    case Drop(_) =>
  }

  lemma CommitMeansAccepted(t: Tables, p: Plan, op: Op)
    requires t.users.Keys == p.users.Keys && forall n :: n in p.users ==> t.users[n] == UserOf(p.users[n])
    ensures Commits(t, op) == Accepts(p, op)
  {
    match op
    case OnUser(Put(n, u)) => TakenMeansRefused(t.users, p.users, n, u);
    case _ =>
  }

  lemma PolicyRequestStands(md5: Md5, t: Tables, p: Plan, c: Change<PolicySpec>)
    requires Stands(md5, t, p) && Accepts(p, OnPolicy(c))
    ensures Stands(md5, Effect(md5, t, OnPolicy(c)), Advance(p, OnPolicy(c)))
  {
    PoliciesFollow(t.policies, t.policyScopes, p.policies, c);
  }

  lemma TrunkRequestStands(md5: Md5, t: Tables, p: Plan, c: Change<TrunkSpec>)
    requires Stands(md5, t, p) && Accepts(p, OnTrunk(c))
    ensures Stands(md5, Effect(md5, t, OnTrunk(c)), Advance(p, OnTrunk(c)))
  {
    TrunksFollow(t.trunks, t.cidrs, p.trunks, c);
  }

  lemma UserRequestStands(md5: Md5, t: Tables, p: Plan, c: Change<UserSpec>)
    requires Stands(md5, t, p) && Accepts(p, OnUser(c))
    ensures Stands(md5, Effect(md5, t, OnUser(c)), Advance(p, OnUser(c)))
  {
    UsersFollow(md5, t.users, t.subscribers, p.users, c);
    NoOrphansFollow(md5, t.users, t.subscribers, c);
    LoginsFollow(md5, t.subscribers, p.logins, c);
  }

  lemma MailboxRequestStands(md5: Md5, t: Tables, p: Plan, c: Change<MailboxSpec>)
    requires Stands(md5, t, p)
    ensures Stands(md5, Effect(md5, t, OnMailbox(c)), Advance(p, OnMailbox(c)))
  {
    MailboxesFollow(t.mailboxes, p.mailboxes, c);
    NumbersFollow(t.voicemail, p.numbers, p.pins, t.mailboxes, p.mailboxes, t.nextUniqueId, c);
  }

  lemma PinsFollow(rows: map<(string, string), VoicemailRow>, numbers: map<(string, string), MailboxSpec>,
                   pins: map<(string, string), string>, key: (string, string), pin: string)
    requires NumbersStand(rows, numbers, pins) && key in rows
    ensures NumbersStand(rows[key := rows[key].(password := pin)], numbers, pins[key := pin])
  {
  }

  /** One transaction commits exactly when the plan accepts the request, and keeps the picture true. */
  lemma ApplyStands(md5: Md5, t: Tables, p: Plan, op: Op)
    requires Stands(md5, t, p)
    ensures Apply(md5, t, op).committed == Accepts(p, op)
    ensures Stands(md5, Apply(md5, t, op).tables, Advance(p, op))
  {
    CommitMeansAccepted(t, p, op);
    if Accepts(p, op) {
      match op
      case OnPolicy(c) => PolicyRequestStands(md5, t, p, c);
      case OnUser(c) => UserRequestStands(md5, t, p, c);
      case OnTrunk(c) => TrunkRequestStands(md5, t, p, c);
      case OnMailbox(c) => MailboxRequestStands(md5, t, p, c);
      case ChangePin(key, pin) => if key in t.voicemail { PinsFollow(t.voicemail, p.numbers, p.pins, key, pin); }
      case _ =>
    }
  }

  /** Every run of reconciles, deletes and PIN changes from a store that pictures a plan ends in one
      that pictures the plan so advanced. */
  lemma {:induction false} RunStands(md5: Md5, t: Tables, p: Plan, ops: seq<Op>)
    requires Stands(md5, t, p)
    ensures Stands(md5, Run(md5, t, ops), Pursue(p, ops))
    decreases |ops|
  {
    if ops != [] {
      ApplyStands(md5, t, p, ops[0]);
      RunStands(md5, Apply(md5, t, ops[0]).tables, Advance(p, ops[0]), ops[1..]);
    }
  }

  /** The store the migrations create pictures the empty plan, so every reachable store stands for
      the plan of its history. */
  lemma ReachableStands(md5: Md5, ops: seq<Op>)
    ensures Stands(md5, Run(md5, EMPTY_TABLES, ops), Pursue(EMPTY_PLAN, ops))
  {
    RunStands(md5, EMPTY_TABLES, EMPTY_PLAN, ops);
  }

  // ---- what an administrator may rely on in every reachable store ----

  /** Credentials: each user row has a subscriber row at its username and gateway, owned by that user
      and holding the hash of the password it was last reconciled with; no other user has that
      username there, and no raw password is ever stored. */
  lemma UsersOwnTheirCredentials(md5: Md5, ops: seq<Op>, t: Tables, p: Plan, n: Name)
    requires t == Run(md5, EMPTY_TABLES, ops) && p == Pursue(EMPTY_PLAN, ops)
    requires n in t.users
    ensures n in p.users && (t.users[n].authUsername, t.users[n].gateway) in t.subscribers
    ensures var row := t.subscribers[(t.users[n].authUsername, t.users[n].gateway)];
      && row.owner == n
      && row.ha1 == md5(t.users[n].authUsername + ":" + t.users[n].gateway + ":" + p.users[n].password)
      && row.ha1b == md5(t.users[n].authUsername + "@" + t.users[n].gateway + ":" + t.users[n].gateway + ":"
                         + p.users[n].password)
      && row.callerId == t.users[n].callerId == p.users[n].callerId
    ensures forall m :: m in t.users && m != n && t.users[m].gateway == t.users[n].gateway ==>
      t.users[m].extension != t.users[n].extension && t.users[m].authUsername != t.users[n].authUsername
    ensures forall k :: k in t.subscribers ==> t.subscribers[k].password == "" && t.subscribers[k].owner in t.users
  {
    ReachableStands(md5, ops);
    assert t.users[n] == UserOf(p.users[n]);
    forall m | m in t.users && m != n && t.users[m].gateway == t.users[n].gateway
      ensures t.users[m].extension != t.users[n].extension && t.users[m].authUsername != t.users[n].authUsername
    {
      assert t.users[m] == UserOf(p.users[m]) && !SameIdentity(p.users[n], p.users[m]);
    }
  }

  /** The rows of users and mailboxes, column by column: each says what its resource's last accepted spec
      says, with flags as 0 and 1 and no e-mail provider unless e-mail is enabled. */
  lemma ColumnsAreTheSpecs(md5: Md5, ops: seq<Op>, t: Tables, p: Plan, n: Name)
    requires t == Run(md5, EMPTY_TABLES, ops) && p == Pursue(EMPTY_PLAN, ops)
    ensures n in t.users <==> n in p.users
    ensures n in t.users ==>
      && t.users[n].gateway == p.users[n].domain && t.users[n].extension == p.users[n].extension
      && t.users[n].authUsername == p.users[n].username && t.users[n].callerId == p.users[n].callerId
      && t.users[n].policy == p.users[n].policy && t.users[n].uid == p.users[n].uid
    ensures n in t.mailboxes <==> n in p.mailboxes
    ensures n in t.mailboxes ==> var row, m := t.mailboxes[n], p.mailboxes[n];
      && row.gateway == m.gateway && row.sipUser == m.sipUser && row.sipAuthUsername == m.sipAuthUsername
      && row.sipExtension == m.sipExtension && row.pool == m.pool && row.targetHost == m.targetHost
      && row.targetExtension == m.targetExtension && row.mailbox == m.mailbox
      && (row.fallbackEnabled == 1 <==> m.fallback.enabled) && row.timeoutSeconds == m.fallback.timeoutSeconds
      && (row.onBusy == 1 <==> m.fallback.onBusy) && (row.onUnavailable == 1 <==> m.fallback.onUnavailable)
      && (row.onNoAnswer == 1 <==> m.fallback.onNoAnswer) && (row.emailEnabled == 1 <==> m.emailEnabled)
      && {row.fallbackEnabled, row.onBusy, row.onUnavailable, row.onNoAnswer, row.emailEnabled} <= {0, 1}
      && row.emailTo == m.emailTo && row.emailFrom == m.emailFrom && row.uid == m.uid
      && row.emailProvider == if m.emailEnabled then Some(m.emailProvider) else None
  {
    ReachableStands(md5, ops);
    if n in t.users {
      assert t.users[n] == UserOf(p.users[n]);
    }
    if n in t.mailboxes {
      assert t.mailboxes[n] == MailboxOf(p.mailboxes[n]);
    }
  }

  /** The scope rows of a policy are numbered 0..k-1 without gap or repeat, in spec order, and every
      scope row has its policy. */
  lemma ScopePositionsAreABijection(md5: Md5, ops: seq<Op>, t: Tables, p: Plan, n: Name)
    requires t == Run(md5, EMPTY_TABLES, ops) && p == Pursue(EMPTY_PLAN, ops)
    requires n in t.policies
    ensures n in p.policies
    ensures forall i :: 0 <= i < |p.policies[n].scopes| ==>
      Lookup(t.policyScopes, (n, p.policies[n].scopes[i])) == Some(i)
    ensures forall s :: (n, s) in t.policyScopes ==>
      && 0 <= t.policyScopes[(n, s)] < |p.policies[n].scopes|
      && p.policies[n].scopes[t.policyScopes[(n, s)]] == s
    ensures forall k :: k in t.policyScopes ==> k.0 in t.policies
  {
    ReachableStands(md5, ops);
    forall s | (n, s) in t.policyScopes
      ensures 0 <= t.policyScopes[(n, s)] < |p.policies[n].scopes|
      ensures p.policies[n].scopes[t.policyScopes[(n, s)]] == s
    {
      var i :| 0 <= i < |p.policies[n].scopes| && p.policies[n].scopes[i] == s;
      assert t.policyScopes[(n, p.policies[n].scopes[i])] == i;
    }
  }

  // ---- validated requests ----

  /** What the resource models have checked before a request reaches the database. */
  ghost predicate Validated(op: Op) {
    match op
    case OnTrunk(Put(_, k)) => k.sources != [] ==> k.row.inboundPolicy.Some?
    case OnRoute(Put(_, r)) => r.kind != Unset && r.calledNumber != "" && Dialable(r.calledNumber)
    case OnMailbox(Put(_, m)) => m.mailbox != "" && 1 <= m.fallback.timeoutSeconds <= 120
    case _ => true
  }

  predicate DialCharacter(c: char) { c == '+' || '0' <= c <= '9' || c == '.' || c == '*' }

  /** The alphabet of called numbers, in route specs and in the routing script alike. */
  predicate Dialable(number: string) {
    forall i :: 0 <= i < |number| ==> DialCharacter(number[i])
  }

  ghost predicate ValidPlan(p: Plan) {
    && (forall n :: n in p.trunks ==> Validated(OnTrunk(Put(n, p.trunks[n]))))
    && (forall n :: n in p.routes ==> Validated(OnRoute(Put(n, p.routes[n]))))
    && (forall n :: n in p.mailboxes ==> Validated(OnMailbox(Put(n, p.mailboxes[n]))))
  }

  lemma ValidRequestKeepsPlanValid(p: Plan, op: Op)
    requires ValidPlan(p) && Validated(op)
    ensures ValidPlan(Advance(p, op))
  {
  }

  lemma {:induction false} ValidRequestsMakeValidPlans(p: Plan, ops: seq<Op>)
    requires ValidPlan(p)
    requires forall i :: 0 <= i < |ops| ==> Validated(ops[i])
    ensures ValidPlan(Pursue(p, ops))
    decreases |ops|
  {
    if ops != [] {
      ValidRequestKeepsPlanValid(p, ops[0]);
      ValidRequestsMakeValidPlans(Advance(p, ops[0]), ops[1..]);
    }
  }

  /** After any run of validated requests, each source network has its trunk and that trunk names an
      inbound dial policy. */
  lemma TrustedNetworksHavePolicies(md5: Md5, ops: seq<Op>, t: Tables, n: Name, c: Cidr)
    requires forall i :: 0 <= i < |ops| ==> Validated(ops[i])
    requires t == Run(md5, EMPTY_TABLES, ops)
    requires (n, c) in t.cidrs
    ensures n in t.trunks && t.trunks[n].inboundPolicy.Some?
  {
    ReachableStands(md5, ops);
    ValidRequestsMakeValidPlans(EMPTY_PLAN, ops);
    var p := Pursue(EMPTY_PLAN, ops);
    assert Validated(OnTrunk(Put(n, p.trunks[n])));
  }
}
