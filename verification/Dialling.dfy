/** Whom a call is sent to: the plan's list of destinations, and that every call follows it. */
module Dialling {
  import opened Common
  import opened DialPlan
  import opened Refinement
  import opened RouteQuery
  import opened CallFlow
  import opened EndToEnd

  // ---- why a user is not reached ----

  /** Why the user could not be reached. */
  datatype Cause = Busy | NoAnswer | Unavailable

  function CauseOf(status: int): Option<Cause> {
    if status in {486, 600} then Some(Busy)
    else if status == 408 then Some(NoAnswer)
    else if status in {404, 480, 503} then Some(Unavailable)
    else None
  }

  /** The cause an uncanceled call to a user meets first; none when the relay to the phone fails, which
      ends the call. */
  function Observed(isRegistered: bool, relayed: bool, inputs: seq<Input>): Option<Cause> {
    if !isRegistered then Some(Unavailable)
    else if !relayed then None
    else
      match FirstFinal(inputs)
      case Some(Failed(status, false, _, _)) => CauseOf(status)
      case _ => None
  }

  predicate Flagged(f: FallbackSpec, cause: Option<Cause>) {
    match cause
    case Some(Busy) => f.onBusy
    case Some(NoAnswer) => f.onNoAnswer
    case Some(Unavailable) => f.onUnavailable
    case None => false
  }

  // ---- whom the plan has a call sent to ----

  /** The mailbox, if its spec covers the cause. */
  function VoicemailCalls(p: Plan, box: Option<Name>, cause: Option<Cause>): seq<Destination> {
    if box.Some? && box.value in p.mailboxes && Flagged(p.mailboxes[box.value].fallback, cause) then
      var m := p.mailboxes[box.value];
      [Mailbox(m.targetHost, m.targetExtension, m.mailbox)]
    else []
  }

  /** Whether the provider asks for credentials while the call still stands, and they can be computed. */
  predicate AsksForDigest(final: Option<Input>) {
    match final
    case Some(Failed(status, canceled, digestAnswered, _)) =>
      !canceled && digestAnswered && (status == 401 || status == 407)
    case _ => false
  }

  /** The retry of a trunk call, with the login of the trunk's spec. */
  function RetryCalls(row: TrunkRow, final: Option<Input>): seq<Destination> {
    if Truthy(row.digestUsername) && Truthy(row.digestHa1) && AsksForDigest(final) then
      [TrunkWithDigest(row.terminationUri,
                       Credentials(row.digestUsername.value, OrEmpty(row.digestRealm), row.digestHa1.value))]
    else []
  }

  /** Everybody a call over this route is sent to, in order. */
  function PlannedCalls(p: Plan, registered: string -> bool, r: RouteRow, box: Option<Name>, relayed: bool,
                        inputs: seq<Input>): seq<Destination> {
    match r.kind
    case SIPUser =>
      var user := UserName(p, r.targetRef);
      (if registered(user) then [Phone(user)] else [])
      + VoicemailCalls(p, box, Observed(registered(user), relayed, inputs))
    case AsteriskPool => [Pool(OrEmpty(r.targetHost), OrEmpty(r.targetExtension))]
    case SIPTrunk =>
      if r.targetRef in p.trunks then
        var k := p.trunks[r.targetRef].row;
        [Trunk(k.terminationUri, OrEmpty(k.outboundCallerId))]
        + if relayed then RetryCalls(k, FirstFinal(inputs)) else []
      else [Trunk("", "")]
    case Unset => []
  }

  lemma FallbackWanted(p: Plan, r: RouteRow, box: Option<Name>, status: int)
    requires ValidPlan(p) && Serving(p, r, box)
    ensures (if WantsVoicemail(FallbackBy(p, box), status) then [BoxOf(FallbackBy(p, box))] else [])
         == VoicemailCalls(p, box, CauseOf(status))
  {
    if box.Some? {
      assert Validated(OnMailbox(Put(box.value, p.mailboxes[box.value])));
    }
  }

  lemma UserStart(sdp: bool, user: string, f: Fallback, relayed: bool)
    ensures var c := Start(sdp, ToUser(user, f), relayed);
      && c.open == relayed && c.fallback == f
      && c.armed == if f.mailbox != "" then VoicemailFallback else NoHandler
  {
  }

  lemma TrunkStart(sdp: bool, uri: string, callerId: string, k: Credentials, relayed: bool)
    ensures var c := Start(sdp, ToTrunk(uri, callerId, k), relayed);
      c.open == relayed && c.uri == uri && c.credentials == k && c.armed == TrunkAuth
  {
  }

  lemma FallbackDestination(p: Plan, r: RouteRow, box: Option<Name>, c: Call, inputs: seq<Input>)
    requires ValidPlan(p) && Serving(p, r, box) && c.fallback == FallbackBy(p, box)
    requires c.armed == if c.fallback.mailbox != "" then VoicemailFallback else NoHandler
    ensures (if c.open then SecondDestination(c, FirstFinal(inputs)) else [])
         == VoicemailCalls(p, box, Observed(true, c.open, inputs))
  {
    match FirstFinal(inputs)
    case Some(Failed(status, false, _, _)) => FallbackWanted(p, r, box, status);
    case _ =>
  }

  lemma RegisteredDials(p: Plan, r: RouteRow, box: Option<Name>, user: string, sdp: bool, relayed: bool,
                        inputs: seq<Input>)
    requires ValidPlan(p) && Serving(p, r, box)
    ensures Dialled(Continue(Start(sdp, ToUser(user, FallbackBy(p, box)), relayed), inputs).events)
         == [Phone(user)] + VoicemailCalls(p, box, Observed(true, relayed, inputs))
  {
    var d := ToUser(user, FallbackBy(p, box));
    StartDials(sdp, d, relayed);
    UserStart(sdp, user, FallbackBy(p, box), relayed);
    DestinationsAreExact(Start(sdp, d, relayed), inputs);
    FallbackDestination(p, r, box, Start(sdp, d, relayed), inputs);
  }

  lemma StartUnarmed(sdp: bool, d: Decision, relayed: bool)
    ensures !d.ToUser? && !d.ToTrunk? ==> Start(sdp, d, relayed).armed == NoHandler
  {
  }

  lemma UnregisteredDials(p: Plan, r: RouteRow, box: Option<Name>, d: Decision, sdp: bool, relayed: bool,
                          inputs: seq<Input>)
    requires ValidPlan(p) && Serving(p, r, box)
    requires var f := FallbackBy(p, box);
      d == if f.mailbox != "" && f.onUnavailable == 1 then ToVoicemail(f) else Refused(404, "Not registered")
    ensures Dialled(Continue(Start(sdp, d, relayed), inputs).events) == VoicemailCalls(p, box, Some(Unavailable))
  {
    StartDials(sdp, d, relayed);
    StartUnarmed(sdp, d, relayed);
    NobodyElseIsDialled(Start(sdp, d, relayed), inputs);
    FallbackWanted(p, r, box, 404);
  }

  /** The retry as the script makes it, from the variables it has loaded. */
  function Retry(uri: string, k: Credentials, final: Option<Input>): seq<Destination> {
    if k.username != "" && k.ha1 != "" && AsksForDigest(final) then [TrunkWithDigest(uri, k)] else []
  }

  lemma RetryDestination(c: Call, final: Option<Input>)
    requires c.armed == TrunkAuth
    ensures SecondDestination(c, final) == Retry(c.uri, c.credentials, final)
  {
  }

  lemma LoginRetry(row: TrunkRow, final: Option<Input>)
    ensures Retry(row.terminationUri,
                  Credentials(OrEmpty(row.digestUsername), OrEmpty(row.digestRealm), OrEmpty(row.digestHa1)), final)
         == RetryCalls(row, final)
  {
  }

  lemma TrunkCallDials(sdp: bool, uri: string, callerId: string, k: Credentials, relayed: bool, inputs: seq<Input>)
    ensures Dialled(Continue(Start(sdp, ToTrunk(uri, callerId, k), relayed), inputs).events)
         == [Trunk(uri, callerId)] + if relayed then Retry(uri, k, FirstFinal(inputs)) else []
  {
    var c := Start(sdp, ToTrunk(uri, callerId, k), relayed);
    StartDials(sdp, ToTrunk(uri, callerId, k), relayed);
    TrunkStart(sdp, uri, callerId, k, relayed);
    DestinationsAreExact(c, inputs);
    RetryDestination(c, FirstFinal(inputs));
  }

  lemma TrunkDials(p: Plan, registered: string -> bool, r: RouteRow, box: Option<Name>, d: Decision, sdp: bool,
                   relayed: bool, inputs: seq<Input>)
    requires r.kind == SIPTrunk && GoesVia(p, registered, r, box, d)
    ensures Dialled(Continue(Start(sdp, d, relayed), inputs).events)
         == PlannedCalls(p, registered, r, box, relayed, inputs)
  {
    TrunkCallDials(sdp, d.uri, d.callerId, d.credentials, relayed, inputs);
    if r.targetRef in p.trunks {
      LoginRetry(p.trunks[r.targetRef].row, FirstFinal(inputs));
    }
  }

  /** A call is sent to exactly whom the plan says, once each and in order, whatever the route's kind
      and whatever is answered. */
  lemma DialsAsPlanned(p: Plan, registered: string -> bool, r: RouteRow, box: Option<Name>, d: Decision, sdp: bool,
                       relayed: bool, inputs: seq<Input>)
    requires ValidPlan(p) && GoesVia(p, registered, r, box, d)
    ensures Dialled(Continue(Start(sdp, d, relayed), inputs).events)
         == PlannedCalls(p, registered, r, box, relayed, inputs)
  {
    match r.kind
    case SIPUser =>
      if registered(UserName(p, r.targetRef)) {
        RegisteredDials(p, r, box, UserName(p, r.targetRef), sdp, relayed, inputs);
      } else {
        UnregisteredDials(p, r, box, d, sdp, relayed, inputs);
      }
    case AsteriskPool =>
      StartDials(sdp, d, relayed);
      NobodyElseIsDialled(Start(sdp, d, relayed), inputs);
    case Unset =>
      StartDials(sdp, d, relayed);
      NobodyElseIsDialled(Start(sdp, d, relayed), inputs);
    case SIPTrunk => TrunkDials(p, registered, r, box, d, sdp, relayed, inputs);
  }

  /** A mailbox is reached for this cause at this destination. */
  predicate SendsTo(p: Plan, m: Name, cause: Option<Cause>, to: Destination) {
    && m in p.mailboxes && Flagged(p.mailboxes[m].fallback, cause)
    && to == Mailbox(p.mailboxes[m].targetHost, p.mailboxes[m].targetExtension, p.mailboxes[m].mailbox)
  }

  /** A call to a user is sent to a mailbox exactly when it is the one that takes the call and the flag
      for the cause is set; that one is always a fallback mailbox of the user. */
  lemma VoicemailIsExact(p: Plan, registered: string -> bool, r: RouteRow, box: Option<Name>, d: Decision, sdp: bool,
                         relayed: bool, inputs: seq<Input>, to: Destination)
    requires ValidPlan(p) && r.kind == SIPUser && GoesVia(p, registered, r, box, d) && to.Mailbox?
    ensures box.Some? ==> TakesCallsFor(p, r, box.value)
    ensures Relay(to) in Continue(Start(sdp, d, relayed), inputs).events <==>
      box.Some? && SendsTo(p, box.value, Observed(registered(UserName(p, r.targetRef)), relayed, inputs), to)
  {
    DialsAsPlanned(p, registered, r, box, d, sdp, relayed, inputs);
    DialledIsRelayed(Continue(Start(sdp, d, relayed), inputs).events, to);
  }

  /** A registered user's phone rings for as long as the spec of the mailbox that takes the call says, in
      milliseconds, and without a limit of the script's own when there is no fallback. */
  lemma RingingTimeIsThePlans(p: Plan, registered: string -> bool, r: RouteRow, box: Option<Name>, d: Decision,
                              sdp: bool, relayed: bool)
    requires ValidPlan(p) && r.kind == SIPUser && GoesVia(p, registered, r, box, d)
    requires registered(UserName(p, r.targetRef))
    ensures match box
      case Some(m) =>
        && m in p.mailboxes
        && Start(sdp, d, relayed).timer == Some(p.mailboxes[m].fallback.timeoutSeconds * 1000)
        && 1000 <= Start(sdp, d, relayed).timer.value <= 120_000
      case None => Start(sdp, d, relayed).timer == None
  {
    if box.Some? {
      assert Validated(OnMailbox(Put(box.value, p.mailboxes[box.value])));
    }
  }

  /** A trunk with digest credentials, at this address. */
  predicate HasLogin(row: TrunkRow, uri: string, k: Credentials) {
    && Truthy(row.digestUsername) && Truthy(row.digestHa1) && uri == row.terminationUri
    && k == Credentials(row.digestUsername.value, OrEmpty(row.digestRealm), row.digestHa1.value)
  }

  /** A trunk call is retried with digest exactly when it was relayed, the provider asks for it, the
      call still stands, and the trunk's plan has a username and hash; the retry carries those. */
  lemma DigestRetryIsExact(p: Plan, registered: string -> bool, r: RouteRow, d: Decision, sdp: bool, relayed: bool,
                           inputs: seq<Input>, uri: string, k: Credentials)
    requires r.kind == SIPTrunk && GoesTo(p, registered, r, d)
    ensures Relay(TrunkWithDigest(uri, k)) in Continue(Start(sdp, d, relayed), inputs).events <==>
      && relayed && r.targetRef in p.trunks && HasLogin(p.trunks[r.targetRef].row, uri, k)
      && AsksForDigest(FirstFinal(inputs))
  {
    var box :| GoesVia(p, registered, r, box, d);
    TrunkDials(p, registered, r, box, d, sdp, relayed, inputs);
    DialledIsRelayed(Continue(Start(sdp, d, relayed), inputs).events, TrunkWithDigest(uri, k));
  }

  // ---- from the history of requests to whom a call is sent ----

  /** A well-formed INVITE's caller has this policy, whose search finds this route. */
  ghost predicate FirstPermittedRoute(p: Plan, rank: Collation, covers: Covers, gateway: Name, invite: Invite,
                                      policy: Name, n: Name) {
    && invite.hops && PermittedNumber(invite.number)
    && HasPolicy(p, rank, covers, gateway, invite, policy)
    && FindRoute(p, rank, gateway, policy, invite.number) == Some(n) && n in p.routes
  }

  lemma KnownPolicyDecides(p: Plan, rank: Collation, covers: Covers, gateway: Name, registered: string -> bool,
                           invite: Invite, d: Decision, policy: Name, n: Name)
    requires Deterministic(rank)
    requires forall i, j :: i in p.users && j in p.users && i != j ==> !SameIdentity(p.users[i], p.users[j])
    requires Documented(p, rank, covers, gateway, registered, invite, d)
    ensures FirstPermittedRoute(p, rank, covers, gateway, invite, policy, n) ==> GoesTo(p, registered, p.routes[n], d)
  {
    if !FirstPermittedRoute(p, rank, covers, gateway, invite, policy, n) { return; }
    if !TrustedSource(p, covers, gateway, invite.source) {
      var u :| IsUser(p, gateway, invite.auth.value, u) && p.users[u].policy == policy;
    }
    forall q | HasPolicy(p, rank, covers, gateway, invite, q) ensures q == policy {
      PolicyIsUnique(p, rank, covers, gateway, invite, q, policy);
    }
  }

  /** A decision to relay comes from a permitted route. */
  lemma OnlyRoutesRelay(p: Plan, rank: Collation, covers: Covers, gateway: Name, registered: string -> bool,
                        invite: Invite, d: Decision)
    requires Documented(p, rank, covers, gateway, registered, invite, d)
    ensures d.Challenged? || d.Refused? ||
      exists policy, n :: FirstPermittedRoute(p, rank, covers, gateway, invite, policy, n)
  {
    if !d.Challenged? && !d.Refused? {
      var policy :| HasPolicy(p, rank, covers, gateway, invite, policy)
        && FindRoute(p, rank, gateway, policy, invite.number).Some?
        && FindRoute(p, rank, gateway, policy, invite.number).value in p.routes;
      var n := FindRoute(p, rank, gateway, policy, invite.number).value;
      assert FirstPermittedRoute(p, rank, covers, gateway, invite, policy, n);
    }
  }

  /** Whatever happens to the call, it dials whom the plan says when this mailbox takes it. */
  ghost predicate FollowsPlan(p: Plan, registered: string -> bool, r: RouteRow, box: Option<Name>, sdp: bool,
                              d: Decision) {
    && GoesVia(p, registered, r, box, d)
    && forall relayed, inputs :: Dialled(Continue(Start(sdp, d, relayed), inputs).events)
                              == PlannedCalls(p, registered, r, box, relayed, inputs)
  }

  lemma TargetFollowsPlan(p: Plan, registered: string -> bool, r: RouteRow, box: Option<Name>, sdp: bool, d: Decision)
    requires ValidPlan(p) && GoesVia(p, registered, r, box, d)
    ensures FollowsPlan(p, registered, r, box, sdp, d)
  {
    forall relayed, inputs ensures Dialled(Continue(Start(sdp, d, relayed), inputs).events)
      == PlannedCalls(p, registered, r, box, relayed, inputs)
    {
      DialsAsPlanned(p, registered, r, box, d, sdp, relayed, inputs);
    }
  }

  lemma RoutedCallsFollowThePlan(md5: Md5, t: Tables, p: Plan, rank: Collation, covers: Covers, gateway: Name, db: Db,
                                 registered: string -> bool, invite: Invite, policy: Name, n: Name)
    requires Stands(md5, t, p) && ValidPlan(p) && Deterministic(rank) && Faithful(db, t, rank, covers, gateway)
    requires FirstPermittedRoute(p, rank, covers, gateway, invite, policy, n)
    ensures exists box :: FollowsPlan(p, registered, p.routes[n], box, invite.sdp, Decide(db, registered, invite))
  {
    var d := Decide(db, registered, invite);
    InvitesFollowThePlan(md5, t, p, rank, covers, gateway, db, registered, invite);
    KnownPolicyDecides(p, rank, covers, gateway, registered, invite, d, policy, n);
    var box :| GoesVia(p, registered, p.routes[n], box, d);
    TargetFollowsPlan(p, registered, p.routes[n], box, invite.sdp, d);
  }

  /** After every history of validated requests, an INVITE whose caller has a permitted route is sent to
      exactly whom the last accepted specs say, once each and in order, with one of the user's fallback
      mailboxes taking the call if there is any. */
  lemma EveryHistoryDialsAsPlanned(md5: Md5, ops: seq<Op>, rank: Collation, covers: Covers, gateway: Name, db: Db,
                                   registered: string -> bool, invite: Invite, p: Plan, policy: Name, n: Name)
    requires forall i :: 0 <= i < |ops| ==> Validated(ops[i])
    requires Deterministic(rank) && Faithful(db, Run(md5, EMPTY_TABLES, ops), rank, covers, gateway)
    requires p == Pursue(EMPTY_PLAN, ops)
    ensures FirstPermittedRoute(p, rank, covers, gateway, invite, policy, n) ==>
      exists box :: FollowsPlan(p, registered, p.routes[n], box, invite.sdp, Decide(db, registered, invite))
  {
    if FirstPermittedRoute(p, rank, covers, gateway, invite, policy, n) {
      ReachableStands(md5, ops);
      ValidRequestsMakeValidPlans(EMPTY_PLAN, ops);
      RoutedCallsFollowThePlan(md5, Run(md5, EMPTY_TABLES, ops), p, rank, covers, gateway, db, registered, invite,
                               policy, n);
    }
  }

  /** So a call to a user reaches a mailbox exactly when it takes the call and the flag for the observed
      cause is set in its last accepted spec. */
  lemma FallbackFollowsTheLastSpec(md5: Md5, ops: seq<Op>, rank: Collation, covers: Covers, gateway: Name, db: Db,
                                   registered: string -> bool, invite: Invite, p: Plan, policy: Name, n: Name)
    returns (box: Option<Name>)
    requires forall i :: 0 <= i < |ops| ==> Validated(ops[i])
    requires Deterministic(rank) && Faithful(db, Run(md5, EMPTY_TABLES, ops), rank, covers, gateway)
    requires p == Pursue(EMPTY_PLAN, ops)
    requires FirstPermittedRoute(p, rank, covers, gateway, invite, policy, n) && p.routes[n].kind == SIPUser
    ensures Serving(p, p.routes[n], box)
    ensures forall relayed, inputs, to: Destination :: to.Mailbox? ==>
      (Relay(to) in Continue(Start(invite.sdp, Decide(db, registered, invite), relayed), inputs).events <==>
         && box.Some?
         && SendsTo(p, box.value, Observed(registered(UserName(p, p.routes[n].targetRef)), relayed, inputs), to))
  {
    var d := Decide(db, registered, invite);
    EveryHistoryDialsAsPlanned(md5, ops, rank, covers, gateway, db, registered, invite, p, policy, n);
    box :| FollowsPlan(p, registered, p.routes[n], box, invite.sdp, d);
    ValidRequestsMakeValidPlans(EMPTY_PLAN, ops);
    forall relayed, inputs, to: Destination | to.Mailbox?
      ensures Relay(to) in Continue(Start(invite.sdp, d, relayed), inputs).events <==>
        && box.Some?
        && SendsTo(p, box.value, Observed(registered(UserName(p, p.routes[n].targetRef)), relayed, inputs), to)
    {
      VoicemailIsExact(p, registered, p.routes[n], box, d, invite.sdp, relayed, inputs, to);
    }
  }

  // ---- with several fallback mailboxes, each may take the call ----

  /** The same database, but for one answer to the route query. */
  function Answering(db: Db, policy: Name, number: string, answer: Option<Answer>): Db {
    db.(route := (q, n) => if q == policy && n == number then answer else db.route(q, n))
  }

  lemma OtherAnswerIsFaithful(db: Db, t: Tables, rank: Collation, covers: Covers, gateway: Name, policy: Name,
                              number: string, answer: Option<Answer>)
    requires Faithful(db, t, rank, covers, gateway) && MayAnswer(t, rank, gateway, policy, number, answer)
    ensures Faithful(Answering(db, policy, number, answer), t, rank, covers, gateway)
  {
  }

  lemma ScriptUsesPolicy(md5: Md5, t: Tables, p: Plan, rank: Collation, covers: Covers, gateway: Name, db: Db,
                         invite: Invite, policy: Name)
    requires Stands(md5, t, p) && ValidPlan(p) && Deterministic(rank) && Faithful(db, t, rank, covers, gateway)
    requires HasPolicy(p, rank, covers, gateway, invite, policy)
    ensures CallerPolicy(db, invite) == Some(policy)
    ensures db.trusted(invite.source).Some? || invite.auth.Some?
  {
    ScriptPolicyIsThePlans(md5, t, p, rank, covers, gateway, db, invite);
    if CallerPolicy(db, invite).Some? {
      PolicyIsUnique(p, rank, covers, gateway, invite, CallerPolicy(db, invite).value, policy);
    }
  }

  /** Every fallback mailbox of the user takes the call for some database that answers as SQL allows. */
  lemma EveryMailboxMayTakeTheCall(md5: Md5, t: Tables, p: Plan, rank: Collation, covers: Covers, gateway: Name,
                                   registered: string -> bool, invite: Invite, policy: Name, n: Name,
                                   box: Option<Name>) returns (db: Db)
    requires Stands(md5, t, p) && ValidPlan(p) && Deterministic(rank)
    requires FirstPermittedRoute(p, rank, covers, gateway, invite, policy, n)
    requires p.routes[n].kind == SIPUser && Serving(p, p.routes[n], box)
    ensures Faithful(db, t, rank, covers, gateway)
    ensures FollowsPlan(p, registered, p.routes[n], box, invite.sdp, Decide(db, registered, invite))
  {
    ValidRoutesAreDialable(p);
    db := FaithfulDatabaseExists(md5, t, p, rank, covers, gateway);
    db := DatabaseWithMailbox(md5, t, p, rank, covers, gateway, db, policy, invite.number, n, box);
    ScriptUsesPolicy(md5, t, p, rank, covers, gateway, db, invite, policy);
    PermittedMeansWellDialled(invite.number);
    SelectedFallback(md5, t, p, p.routes[n], box);
    SelectedRouteGoesToTarget(md5, t, p, p.routes[n], box, registered);
    RouteAnswerDecides(db, registered, invite, policy, Select(t, p.routes[n], box));
    TargetFollowsPlan(p, registered, p.routes[n], box, invite.sdp, Decide(db, registered, invite));
  }

  lemma DatabaseWithMailbox(md5: Md5, t: Tables, p: Plan, rank: Collation, covers: Covers, gateway: Name, db: Db,
                            policy: Name, number: string, n: Name, box: Option<Name>) returns (db': Db)
    requires Stands(md5, t, p) && DialableRoutes(p) && Faithful(db, t, rank, covers, gateway)
    requires FindRoute(p, rank, gateway, policy, number) == Some(n) && n in p.routes
    requires p.routes[n].kind == SIPUser && Serving(p, p.routes[n], box)
    ensures Faithful(db', t, rank, covers, gateway)
    ensures db'.route(policy, number) == Some(Select(t, p.routes[n], box))
  {
    var answer := Some(Select(t, p.routes[n], box));
    SelectedFallback(md5, t, p, p.routes[n], box);
    EveryMailboxMayAnswer(md5, t, p, rank, gateway, policy, number, n, box);
    OtherAnswerIsFaithful(db, t, rank, covers, gateway, policy, number, answer);
    db' := Answering(db, policy, number, answer);
  }

  lemma RouteAnswerDecides(db: Db, registered: string -> bool, invite: Invite, policy: Name, answer: Answer)
    requires invite.hops && WellDialled(invite.number) && CallerPolicy(db, invite) == Some(policy)
    requires db.trusted(invite.source).Some? || invite.auth.Some?
    requires db.route(policy, invite.number) == Some(answer)
    ensures Decide(db, registered, invite) == DecideTarget(answer, registered)
  {
  }
}
