/** From the administrator's plan to the fate of a call: the store, the three queries and the call
    machine put together. */
module EndToEnd {
  import opened Common
  import opened DialPlan
  import opened Refinement
  import opened RouteQuery
  import opened CallFlow

  /** Whether a network contains an address; PostgreSQL's `>>=`. */
  type Covers = (Cidr, Address) -> bool

  // ---- what the queries may answer ----

  ghost predicate TrustRow(t: Tables, covers: Covers, gateway: Name, source: Address, n: Name) {
    && n in t.trunks && t.trunks[n].gateway == gateway
    && exists c :: (n, c) in t.cidrs && covers(c, source)
  }

  /** `order by t.name limit 1` over the trunks with a network containing the source. */
  ghost predicate MayTrust(t: Tables, rank: Collation, covers: Covers, gateway: Name, source: Address,
                           row: Option<TrustedRow>) {
    match row
    case None => forall n :: n in t.trunks ==> !TrustRow(t, covers, gateway, source, n)
    case Some(r) =>
      && TrustRow(t, covers, gateway, source, r.name)
      && r.policy == t.trunks[r.name].inboundPolicy
      && forall n :: n in t.trunks && TrustRow(t, covers, gateway, source, n) ==> rank(r.name) <= rank(n)
  }

  predicate CallerRow(t: Tables, gateway: Name, username: string, n: Name) {
    n in t.users && t.users[n].gateway == gateway && t.users[n].authUsername == username
  }

  ghost predicate MayLoad(t: Tables, gateway: Name, username: string, policy: Option<Name>) {
    match policy
    case None => forall n :: n in t.users ==> !CallerRow(t, gateway, username, n)
    case Some(p) => exists n :: CallerRow(t, gateway, username, n) && t.users[n].policy == p
  }

  /** A database that answers each query as SQL allows. */
  ghost predicate Faithful(db: Db, t: Tables, rank: Collation, covers: Covers, gateway: Name) {
    && (forall source :: MayTrust(t, rank, covers, gateway, source, db.trusted(source)))
    && (forall username :: MayLoad(t, gateway, username, db.caller(username)))
    && (forall policy, number :: MayAnswer(t, rank, gateway, policy, number, db.route(policy, number)))
  }

  lemma {:induction false} LeastRanked(rank: Collation, names: set<Name>)
    requires names != {}
    ensures exists n :: n in names && forall m :: m in names ==> rank(n) <= rank(m)
  {
    var x :| x in names;
    var rest := names - {x};
    if rest == {} {
      assert names == {x};
    } else {
      LeastRanked(rank, rest);
      var y :| y in rest && forall m :: m in rest ==> rank(y) <= rank(m);
      var least := if rank(x) < rank(y) then x else y;
      forall m | m in names ensures rank(least) <= rank(m) {
        assert m == x || m in rest;
      }
    }
  }

  lemma TrustedAnswerExists(t: Tables, rank: Collation, covers: Covers, gateway: Name, source: Address)
    ensures exists row :: MayTrust(t, rank, covers, gateway, source, row)
  {
    var names := set n | n in t.trunks && TrustRow(t, covers, gateway, source, n);
    if names == {} {
      forall n | n in t.trunks ensures !TrustRow(t, covers, gateway, source, n) {
        assert n !in names;
      }
      assert MayTrust(t, rank, covers, gateway, source, None);
    } else {
      LeastRanked(rank, names);
      var n :| n in names && forall m :: m in names ==> rank(n) <= rank(m);
      assert MayTrust(t, rank, covers, gateway, source, Some(TrustedRow(n, t.trunks[n].inboundPolicy)));
    }
  }

  lemma CallerAnswerExists(t: Tables, gateway: Name, username: string)
    ensures exists policy :: MayLoad(t, gateway, username, policy)
  {
    if n :| n in t.users && CallerRow(t, gateway, username, n) {
      assert MayLoad(t, gateway, username, Some(t.users[n].policy));
    } else {
      assert MayLoad(t, gateway, username, None);
    }
  }

  ghost function SomeTrustedRow(t: Tables, rank: Collation, covers: Covers, gateway: Name, source: Address):
    (row: Option<TrustedRow>)
    ensures MayTrust(t, rank, covers, gateway, source, row)
  {
    TrustedAnswerExists(t, rank, covers, gateway, source);
    var row :| MayTrust(t, rank, covers, gateway, source, row);
    row
  }

  ghost function SomeCallerPolicy(t: Tables, gateway: Name, username: string): (policy: Option<Name>)
    ensures MayLoad(t, gateway, username, policy)
  {
    CallerAnswerExists(t, gateway, username);
    var policy :| MayLoad(t, gateway, username, policy);
    policy
  }

  ghost function SomeAnswer(md5: Md5, t: Tables, p: Plan, rank: Collation, gateway: Name, policy: Name, number: string):
    (answer: Option<Answer>)
    requires Stands(md5, t, p) && DialableRoutes(p)
    ensures MayAnswer(t, rank, gateway, policy, number, answer)
  {
    assert exists a :: MayAnswer(t, rank, gateway, policy, number, a) by {
      var a := AnAnswerExists(md5, t, p, rank, gateway, policy, number);
    }
    var answer :| MayAnswer(t, rank, gateway, policy, number, answer);
    answer
  }

  /** Every store that pictures a plan has a faithful database: the results about all of them are
      never about none. */
  lemma FaithfulDatabaseExists(md5: Md5, t: Tables, p: Plan, rank: Collation, covers: Covers, gateway: Name)
    returns (db: Db)
    requires Stands(md5, t, p) && DialableRoutes(p)
    ensures Faithful(db, t, rank, covers, gateway)
  {
    db := Db(source => SomeTrustedRow(t, rank, covers, gateway, source),
             username => SomeCallerPolicy(t, gateway, username),
             (policy, number) => SomeAnswer(md5, t, p, rank, gateway, policy, number));
  }

  // ---- who the caller is, in the plan ----

  ghost predicate Trusts(p: Plan, covers: Covers, gateway: Name, source: Address, n: Name) {
    && n in p.trunks && p.trunks[n].row.gateway == gateway
    && exists c :: c in p.trunks[n].sources && covers(c, source)
  }

  ghost predicate TrustedSource(p: Plan, covers: Covers, gateway: Name, source: Address) {
    exists n :: Trusts(p, covers, gateway, source, n)
  }

  /** The trunk whose policy a trusted call uses: the first by name that trusts the source. */
  ghost predicate InboundTrunk(p: Plan, rank: Collation, covers: Covers, gateway: Name, source: Address, n: Name) {
    && Trusts(p, covers, gateway, source, n)
    && forall m :: Trusts(p, covers, gateway, source, m) ==> rank(n) <= rank(m)
  }

  predicate IsUser(p: Plan, gateway: Name, username: string, n: Name) {
    n in p.users && p.users[n].domain == gateway && p.users[n].username == username
  }

  /** The policy the documentation gives a caller: the inbound trunk's for a trusted source, else the
      authenticated user's. */
  ghost predicate HasPolicy(p: Plan, rank: Collation, covers: Covers, gateway: Name, invite: Invite, policy: Name) {
    if TrustedSource(p, covers, gateway, invite.source) then
      exists n ::
        InboundTrunk(p, rank, covers, gateway, invite.source, n) && p.trunks[n].row.inboundPolicy == Some(policy)
    else
      invite.auth.Some? && exists n :: IsUser(p, gateway, invite.auth.value, n) && p.users[n].policy == policy
  }

  lemma TrustRowsAreThePlans(md5: Md5, t: Tables, p: Plan, covers: Covers, gateway: Name, source: Address, n: Name)
    requires Stands(md5, t, p)
    ensures TrustRow(t, covers, gateway, source, n) <==> Trusts(p, covers, gateway, source, n)
  {
    if Trusts(p, covers, gateway, source, n) {
      var c :| c in p.trunks[n].sources && covers(c, source);
      assert (n, c) in t.cidrs;
    }
    if TrustRow(t, covers, gateway, source, n) {
      var c :| (n, c) in t.cidrs && covers(c, source);
      assert (n, c).1 in p.trunks[n].sources;
    }
  }

  /** The trusted-trunk query names the plan's inbound trunk, and its policy is never null. */
  lemma TrustedQueryFollowsPlan(md5: Md5, t: Tables, p: Plan, rank: Collation, covers: Covers, gateway: Name,
                                source: Address, row: Option<TrustedRow>)
    requires Stands(md5, t, p) && ValidPlan(p) && MayTrust(t, rank, covers, gateway, source, row)
    ensures row.Some? <==> TrustedSource(p, covers, gateway, source)
    ensures row.Some? ==>
      && InboundTrunk(p, rank, covers, gateway, source, row.value.name)
      && row.value.policy.Some? && row.value.policy == p.trunks[row.value.name].row.inboundPolicy
  {
    forall n ensures TrustRow(t, covers, gateway, source, n) <==> Trusts(p, covers, gateway, source, n) {
      TrustRowsAreThePlans(md5, t, p, covers, gateway, source, n);
    }
    if row.Some? {
      var n := row.value.name;
      assert Trusts(p, covers, gateway, source, n);
      assert Validated(OnTrunk(Put(n, p.trunks[n])));
    }
  }

  /** The authenticated-policy query gives the policy of the one user with that name. */
  lemma CallerQueryFollowsPlan(md5: Md5, t: Tables, p: Plan, gateway: Name, username: string, policy: Option<Name>)
    requires Stands(md5, t, p) && MayLoad(t, gateway, username, policy)
    ensures policy.None? <==> forall n :: !IsUser(p, gateway, username, n)
    ensures policy.Some? ==> exists n :: IsUser(p, gateway, username, n) && p.users[n].policy == policy.value
  {
    forall n ensures CallerRow(t, gateway, username, n) <==> IsUser(p, gateway, username, n) {
    }
    if policy.Some? {
      var n :| CallerRow(t, gateway, username, n) && t.users[n].policy == policy.value;
      assert IsUser(p, gateway, username, n);
    }
  }

  /** Whoever gets a policy by authenticating did so against the credential of the user whose policy
      it is: the row at that name and gateway holds the hash of that user's last accepted password. */
  lemma PolicyBelongsToCredential(md5: Md5, t: Tables, p: Plan, gateway: Name, username: string, policy: Name)
    requires Stands(md5, t, p)
    ensures MayLoad(t, gateway, username, Some(policy)) ==>
      && (username, gateway) in t.subscribers
      && var row := t.subscribers[(username, gateway)];
         && IsUser(p, gateway, username, row.owner) && p.users[row.owner].policy == policy
         && row.ha1 == md5(username + ":" + gateway + ":" + p.users[row.owner].password)
  {
    if MayLoad(t, gateway, username, Some(policy)) {
      CallerQueryFollowsPlan(md5, t, p, gateway, username, Some(policy));
      var n :| IsUser(p, gateway, username, n) && p.users[n].policy == policy;
      assert Holds(md5, t.subscribers, n, p.users[n]);
    }
  }

  /** A caller has at most one policy. */
  lemma PolicyIsUnique(p: Plan, rank: Collation, covers: Covers, gateway: Name, invite: Invite, q: Name, q': Name)
    requires Deterministic(rank)
    requires forall n, m :: n in p.users && m in p.users && n != m ==> !SameIdentity(p.users[n], p.users[m])
    requires HasPolicy(p, rank, covers, gateway, invite, q) && HasPolicy(p, rank, covers, gateway, invite, q')
    ensures q == q'
  {
    if TrustedSource(p, covers, gateway, invite.source) {
      var n :| InboundTrunk(p, rank, covers, gateway, invite.source, n) && p.trunks[n].row.inboundPolicy == Some(q);
      var m :| InboundTrunk(p, rank, covers, gateway, invite.source, m) && p.trunks[m].row.inboundPolicy == Some(q');
      assert rank(n) == rank(m);
    } else {
      var n :| IsUser(p, gateway, invite.auth.value, n) && p.users[n].policy == q;
      var m :| IsUser(p, gateway, invite.auth.value, m) && p.users[m].policy == q';
    }
  }

  /** The policy the script ends up with is the plan's: none exactly when the plan gives none. */
  lemma ScriptPolicyIsThePlans(md5: Md5, t: Tables, p: Plan, rank: Collation, covers: Covers, gateway: Name, db: Db,
                               invite: Invite)
    requires Stands(md5, t, p) && ValidPlan(p) && Faithful(db, t, rank, covers, gateway)
    ensures db.trusted(invite.source).Some? <==> TrustedSource(p, covers, gateway, invite.source)
    ensures CallerPolicy(db, invite).Some? ==>
      HasPolicy(p, rank, covers, gateway, invite, CallerPolicy(db, invite).value)
    ensures CallerPolicy(db, invite).None? ==> !TrustedSource(p, covers, gateway, invite.source)
    ensures CallerPolicy(db, invite).None? && invite.auth.Some? ==>
      forall n :: !IsUser(p, gateway, invite.auth.value, n)
  {
    TrustedQueryFollowsPlan(md5, t, p, rank, covers, gateway, invite.source, db.trusted(invite.source));
    if invite.auth.Some? {
      CallerQueryFollowsPlan(md5, t, p, gateway, invite.auth.value, db.caller(invite.auth.value));
    }
  }

  // ---- where the call goes, in the plan ----

  function UserName(p: Plan, n: Name): string { if n in p.users then p.users[n].username else "" }

  /** A mailbox that takes calls for a route's user. */
  predicate TakesCallsFor(p: Plan, r: RouteRow, m: Name) {
    && r.kind == SIPUser && m in p.mailboxes && p.mailboxes[m].gateway == r.gateway
    && p.mailboxes[m].sipUser == r.targetRef && p.mailboxes[m].fallback.enabled
  }

  function FallbackFor(m: MailboxSpec): Fallback {
    Fallback(m.mailbox, m.targetHost, m.targetExtension, m.fallback.timeoutSeconds, Int(m.fallback.onBusy),
             Int(m.fallback.onUnavailable), Int(m.fallback.onNoAnswer))
  }

  /** The mailbox that takes a call to the route: one of the user's, or none if it has none. */
  ghost predicate Serving(p: Plan, r: RouteRow, box: Option<Name>) {
    match box
    case None => forall m :: !TakesCallsFor(p, r, m)
    case Some(m) => TakesCallsFor(p, r, m)
  }

  function FallbackBy(p: Plan, box: Option<Name>): Fallback {
    if box.Some? && box.value in p.mailboxes then FallbackFor(p.mailboxes[box.value]) else NO_FALLBACK
  }

  /** The call goes to the route's target as the plan describes it, with this mailbox to fall back on if
      the target is a user. */
  ghost predicate GoesVia(p: Plan, registered: string -> bool, r: RouteRow, box: Option<Name>, d: Decision) {
    match r.kind
    case SIPUser =>
      var user, f := UserName(p, r.targetRef), FallbackBy(p, box);
      && Serving(p, r, box)
      && d == if registered(user) then ToUser(user, f)
              else if f.mailbox != "" && f.onUnavailable == 1 then ToVoicemail(f)
              else Refused(404, "Not registered")
    case AsteriskPool => d == ToPool(OrEmpty(r.targetHost), OrEmpty(r.targetExtension))
    case SIPTrunk =>
      if r.targetRef in p.trunks then
        var k := p.trunks[r.targetRef].row;
        d == ToTrunk(k.terminationUri, OrEmpty(k.outboundCallerId),
                     Credentials(OrEmpty(k.digestUsername), OrEmpty(k.digestRealm), OrEmpty(k.digestHa1)))
      else d == ToTrunk("", "", NO_CREDENTIALS)
    case Unset => d == Refused(500, "Unsupported route target")
  }

  ghost predicate GoesTo(p: Plan, registered: string -> bool, r: RouteRow, d: Decision) {
    exists box :: GoesVia(p, registered, r, box, d)
  }

  lemma MailboxRowsServe(md5: Md5, t: Tables, p: Plan, r: RouteRow, m: Name)
    requires MailboxesStand(t.mailboxes, p.mailboxes)
    ensures TakesCallsFor(p, r, m) <==> m in t.mailboxes && ServesUser(t.mailboxes[m], r)
    ensures TakesCallsFor(p, r, m) ==> FallbackOf(Select(t, r, Some(m))) == FallbackFor(p.mailboxes[m])
  {
    if m in p.mailboxes {
      assert t.mailboxes[m] == MailboxOf(p.mailboxes[m]);
    }
  }

  lemma SelectedFallback(md5: Md5, t: Tables, p: Plan, r: RouteRow, m: Option<Name>)
    requires MailboxesStand(t.mailboxes, p.mailboxes) && r.kind == SIPUser
    ensures m in MailboxesFor(t, r) ==> Serving(p, r, m) && FallbackOf(Select(t, r, m)) == FallbackBy(p, m)
    ensures Serving(p, r, m) ==> m in MailboxesFor(t, r)
  {
    forall b ensures TakesCallsFor(p, r, b) <==> Some(b) in MailboxesFor(t, r) {
      MailboxRowsServe(md5, t, p, r, b);
      MailboxesForARoute(t, r, b);
    }
    if m.Some? {
      MailboxRowsServe(md5, t, p, r, m.value);
    } else if m in MailboxesFor(t, r) {
      NoMailboxServes(t, r);
    }
  }

  lemma MailboxesForARoute(t: Tables, r: RouteRow, b: Name)
    ensures Some(b) in MailboxesFor(t, r) <==> b in t.mailboxes && ServesUser(t.mailboxes[b], r)
  {
    var hits := set m | m in t.mailboxes && ServesUser(t.mailboxes[m], r) :: Some(m);
    if b in t.mailboxes && ServesUser(t.mailboxes[b], r) {
      assert Some(b) in hits;
    }
  }

  lemma SelectedRouteGoesToTarget(md5: Md5, t: Tables, p: Plan, r: RouteRow, m: Option<Name>,
                                  registered: string -> bool)
    requires UsersStand(md5, t.users, t.subscribers, p.users) && TrunksStand(t.trunks, t.cidrs, p.trunks)
    requires MailboxesStand(t.mailboxes, p.mailboxes)
    requires m in MailboxesFor(t, r)
    ensures GoesVia(p, registered, r, m, DecideTarget(Select(t, r, m), registered))
  {
    match r.kind
    case SIPUser =>
      SelectedFallback(md5, t, p, r, m);
      if r.targetRef in p.users {
        assert t.users[r.targetRef] == UserOf(p.users[r.targetRef]);
      }
    case SIPTrunk =>
      if r.targetRef in p.trunks {
        assert t.trunks[r.targetRef] == p.trunks[r.targetRef].row;
      }
    case _ =>
  }

  // ---- the fate of an initial INVITE ----

  /** The numbers that can be dialled. */
  predicate PermittedNumber(number: string) {
    number != "" && forall i :: 0 <= i < |number| ==> number[i] in "+0123456789.*"
  }

  lemma DigitsAreListed(c: char)
    ensures c in "0123456789" <==> '0' <= c <= '9'
  {
    var digits := "0123456789";
    if '0' <= c <= '9' {
      assert digits[c as int - '0' as int] == c;
    }
  }

  lemma PermittedMeansWellDialled(number: string)
    ensures PermittedNumber(number) <==> WellDialled(number)
  {
    forall i | 0 <= i < |number| ensures number[i] in "+0123456789.*" <==> DialCharacter(number[i]) {
      DigitsAreListed(number[i]);
      assert "+0123456789.*" == "+" + "0123456789" + ".*";
    }
  }

  /** The gateway's decision, as the plan and the documentation would have it. */
  ghost predicate Documented(p: Plan, rank: Collation, covers: Covers, gateway: Name, registered: string -> bool,
                             invite: Invite, d: Decision)
  {
    var trusted := TrustedSource(p, covers, gateway, invite.source);
    if !invite.hops then d == Refused(483, "Too Many Hops")
    else if !trusted && invite.auth.None? then d == Challenged
    else if !trusted && (forall n :: !IsUser(p, gateway, invite.auth.value, n)) then d == Refused(403, "No dial policy")
    else if !PermittedNumber(invite.number) then d == Refused(404, "No route")
    else
      exists policy :: HasPolicy(p, rank, covers, gateway, invite, policy) &&
        match FindRoute(p, rank, gateway, policy, invite.number)
        case None => d == Refused(403, "No permitted route")
        case Some(n) =>
          && n in p.routes && policy in p.policies && p.routes[n].scope in p.policies[policy].scopes
          && GoesTo(p, registered, p.routes[n], d)
  }

  /** In every store that pictures a valid plan, whatever the database answers within SQL, the
      gateway decides as documented: a challenge, a refusal, or the target of the first permitted
      route of the caller's own policy. */
  lemma InvitesFollowThePlan(md5: Md5, t: Tables, p: Plan, rank: Collation, covers: Covers, gateway: Name, db: Db,
                             registered: string -> bool, invite: Invite)
    requires Stands(md5, t, p) && ValidPlan(p) && Deterministic(rank) && Faithful(db, t, rank, covers, gateway)
    ensures Documented(p, rank, covers, gateway, registered, invite, Decide(db, registered, invite))
  {
    ScriptPolicyIsThePlans(md5, t, p, rank, covers, gateway, db, invite);
    var policy := CallerPolicy(db, invite);
    PermittedMeansWellDialled(invite.number);
    if invite.hops && policy.Some? && WellDialled(invite.number) {
      RoutedAsDocumented(md5, t, p, rank, gateway, policy.value, invite.number, db.route(policy.value, invite.number),
                         registered);
    }
  }

  lemma ValidRoutesAreDialable(p: Plan)
    requires ValidPlan(p)
    ensures DialableRoutes(p) && forall n :: n in p.routes ==> p.routes[n].kind != Unset
  {
    forall n | n in p.routes ensures Dialable(p.routes[n].calledNumber) && p.routes[n].kind != Unset {
      assert Validated(OnRoute(Put(n, p.routes[n])));
    }
  }

  lemma RoutedAsDocumented(md5: Md5, t: Tables, p: Plan, rank: Collation, gateway: Name, policy: Name, number: string,
                           row: Option<Answer>, registered: string -> bool)
    requires Stands(md5, t, p) && ValidPlan(p) && Deterministic(rank)
    ensures MayAnswer(t, rank, gateway, policy, number, row) ==>
      match FindRoute(p, rank, gateway, policy, number)
      case None => DecideRoute(row, registered) == Refused(403, "No permitted route")
      case Some(n) =>
        && n in p.routes && policy in p.policies && p.routes[n].scope in p.policies[policy].scopes
        && GoesTo(p, registered, p.routes[n], DecideRoute(row, registered))
  {
    if !MayAnswer(t, rank, gateway, policy, number, row) { return; }
    ValidRoutesAreDialable(p);
    QueryRefinesSearch(md5, t, p, rank, gateway, policy, number, row);
    if row.Some? {
      var n := FindRoute(p, rank, gateway, policy, number).value;
      var m :| m in MailboxesFor(t, p.routes[n]) && row.value == Select(t, p.routes[n], m);
      SelectedRouteGoesToTarget(md5, t, p, p.routes[n], m, registered);
    }
  }

  /** The same for every history of validated requests, from the empty store. */
  lemma EveryHistoryIsRoutedAsDocumented(md5: Md5, ops: seq<Op>, rank: Collation, covers: Covers, gateway: Name, db: Db,
                                         registered: string -> bool, invite: Invite)
    requires forall i :: 0 <= i < |ops| ==> Validated(ops[i])
    requires Deterministic(rank) && Faithful(db, Run(md5, EMPTY_TABLES, ops), rank, covers, gateway)
    ensures Documented(Pursue(EMPTY_PLAN, ops), rank, covers, gateway, registered, invite,
                       Decide(db, registered, invite))
    ensures Decide(db, registered, invite) != Refused(500, "Unsupported route target")
  {
    ReachableStands(md5, ops);
    ValidRequestsMakeValidPlans(EMPTY_PLAN, ops);
    InvitesFollowThePlan(md5, Run(md5, EMPTY_TABLES, ops), Pursue(EMPTY_PLAN, ops), rank, covers, gateway, db,
                         registered, invite);
    TargetsAreSupported(Pursue(EMPTY_PLAN, ops), rank, covers, gateway, registered, invite,
                        Decide(db, registered, invite));
  }

  lemma TargetsAreSupported(p: Plan, rank: Collation, covers: Covers, gateway: Name, registered: string -> bool,
                            invite: Invite, d: Decision)
    requires ValidPlan(p) && Documented(p, rank, covers, gateway, registered, invite, d)
    ensures d != Refused(500, "Unsupported route target")
  {
    ValidRoutesAreDialable(p);
  }
}
