/** The mutable store and the mutable transaction together: what a call over the tables does. */
module Platform {
  import opened Common
  import opened DialPlan
  import opened Refinement
  import opened CallFlow
  import opened EndToEnd
  import opened Dialling
  import opened Traffic
  import opened Store
  import opened GatewayScript

  /** The outcome of the request route: the first event that is not about media. */
  function FirstOutcome(events: seq<Event>): Option<Event> {
    if events == [] then None
    else if IsOutcome(events[0]) then Some(events[0])
    else FirstOutcome(events[1..])
  }

  /** The decision is the documented one; a challenge or refusal is all that is ever sent. */
  ghost predicate DecidedAsDocumented(p: Plan, rank: Collation, covers: Covers, gateway: Name,
                                      registered: string -> bool, invite: Invite, events: seq<Event>) {
    exists d :: Documented(p, rank, covers, gateway, registered, invite, d)
      && FirstOutcome(events) == Some(Outcome(d))
      && (d.Challenged? || d.Refused? ==> events == [Outcome(d)])
  }

  /** The route's target was dialled, with this mailbox taking the call if the target is a user. */
  ghost predicate DialsVia(p: Plan, registered: string -> bool, r: RouteRow, box: Option<Name>, relayed: bool,
                           inputs: seq<Input>, dialled: seq<Destination>) {
    (r.kind == SIPUser ==> Serving(p, r, box)) && dialled == PlannedCalls(p, registered, r, box, relayed, inputs)
  }

  /** The caller's first permitted route decides whom the call is sent to, once each and in order, one of
      the user's fallback mailboxes taking it if there is any; without such a route, nobody. */
  ghost predicate DialledAsPlanned(p: Plan, rank: Collation, covers: Covers, gateway: Name,
                                   registered: string -> bool, invite: Invite, relayed: bool, inputs: seq<Input>,
                                   dialled: seq<Destination>) {
    && (forall policy, n :: FirstPermittedRoute(p, rank, covers, gateway, invite, policy, n) ==>
          exists box :: DialsVia(p, registered, p.routes[n], box, relayed, inputs, dialled))
    && ((forall policy, n :: !FirstPermittedRoute(p, rank, covers, gateway, invite, policy, n)) ==> dialled == [])
  }

  /** A call did as the plan says, within two attempts, with fitting media throughout and every reply
      with a body answered. */
  ghost predicate WentAsPlanned(p: Plan, rank: Collation, covers: Covers, gateway: Name, registered: string -> bool,
                                invite: Invite, relayed: bool, inputs: seq<Input>, events: seq<Event>) {
    && DecidedAsDocumented(p, rank, covers, gateway, registered, invite, events)
    && DialledAsPlanned(p, rank, covers, gateway, registered, invite, relayed, inputs, Dialled(events))
    && Attempts(events) <= 2 && MediaIsRight(events, invite.sdp)
    && TrafficIsExact(events, invite.sdp, relayed, inputs)
  }

  lemma {:induction false} EventsStay(c: Call, inputs: seq<Input>)
    ensures c.events <= Continue(c, inputs).events
    ensures !c.open && !c.replies ==> Continue(c, inputs).events == c.events
    decreases |inputs|
  {
    if inputs != [] {
      EventsStay(React(c, inputs[0]), inputs[1..]);
    }
  }

  lemma {:induction false} FirstOutcomeStays(a: seq<Event>, b: seq<Event>)
    requires a <= b && FirstOutcome(a).Some?
    ensures FirstOutcome(b) == FirstOutcome(a)
    decreases |a|
  {
    if !IsOutcome(a[0]) {
      FirstOutcomeStays(a[1..], b[1..]);
    }
  }

  lemma StartsWithOutcome(sdp: bool, d: Decision, relayed: bool)
    ensures FirstOutcome(Start(sdp, d, relayed).events) == Some(Outcome(d))
  {
    var events := Start(sdp, d, relayed).events;
    if !IsOutcome(events[0]) {
      assert events[1..][0] == events[1];
    }
  }

  lemma CallIsDecided(p: Plan, rank: Collation, covers: Covers, gateway: Name, registered: string -> bool,
                      invite: Invite, d: Decision, relayed: bool, inputs: seq<Input>)
    requires Documented(p, rank, covers, gateway, registered, invite, d)
    ensures DecidedAsDocumented(p, rank, covers, gateway, registered, invite,
                                Continue(Start(invite.sdp, d, relayed), inputs).events)
  {
    var start := Start(invite.sdp, d, relayed);
    StartsWithOutcome(invite.sdp, d, relayed);
    EventsStay(start, inputs);
    FirstOutcomeStays(start.events, Continue(start, inputs).events);
  }

  lemma CallDials(md5: Md5, t: Tables, p: Plan, rank: Collation, covers: Covers, gateway: Name, db: Db,
                  registered: string -> bool, invite: Invite, relayed: bool, inputs: seq<Input>)
    requires Stands(md5, t, p) && ValidPlan(p) && Deterministic(rank) && Faithful(db, t, rank, covers, gateway)
    ensures var call := Continue(Start(invite.sdp, Decide(db, registered, invite), relayed), inputs);
      DialledAsPlanned(p, rank, covers, gateway, registered, invite, relayed, inputs, Dialled(call.events))
  {
    var d := Decide(db, registered, invite);
    var dialled := Dialled(Continue(Start(invite.sdp, d, relayed), inputs).events);
    forall policy, n | FirstPermittedRoute(p, rank, covers, gateway, invite, policy, n)
      ensures exists box :: DialsVia(p, registered, p.routes[n], box, relayed, inputs, dialled)
    {
      RoutedCallsFollowThePlan(md5, t, p, rank, covers, gateway, db, registered, invite, policy, n);
      var box :| FollowsPlan(p, registered, p.routes[n], box, invite.sdp, d);
      assert DialsVia(p, registered, p.routes[n], box, relayed, inputs, dialled);
    }
    InvitesFollowThePlan(md5, t, p, rank, covers, gateway, db, registered, invite);
    NobodyWithoutRoute(p, rank, covers, gateway, registered, invite, d, relayed, inputs);
  }

  lemma NobodyWithoutRoute(p: Plan, rank: Collation, covers: Covers, gateway: Name, registered: string -> bool,
                           invite: Invite, d: Decision, relayed: bool, inputs: seq<Input>)
    requires Documented(p, rank, covers, gateway, registered, invite, d)
    ensures (exists policy, n :: FirstPermittedRoute(p, rank, covers, gateway, invite, policy, n))
      || Dialled(Continue(Start(invite.sdp, d, relayed), inputs).events) == []
  {
    OnlyRoutesRelay(p, rank, covers, gateway, registered, invite, d);
    if d.Challenged? || d.Refused? {
      StartDials(invite.sdp, d, relayed);
      NobodyElseIsDialled(Start(invite.sdp, d, relayed), inputs);
    }
  }

  lemma CallsGoAsPlanned(md5: Md5, t: Tables, p: Plan, rank: Collation, covers: Covers, gateway: Name, db: Db,
                         registered: string -> bool, invite: Invite, relayed: bool, inputs: seq<Input>)
    requires Stands(md5, t, p) && ValidPlan(p) && Deterministic(rank) && Faithful(db, t, rank, covers, gateway)
    ensures WentAsPlanned(p, rank, covers, gateway, registered, invite, relayed, inputs,
                          Continue(Start(invite.sdp, Decide(db, registered, invite), relayed), inputs).events)
  {
    var d := Decide(db, registered, invite);
    InvitesFollowThePlan(md5, t, p, rank, covers, gateway, db, registered, invite);
    CallIsDecided(p, rank, covers, gateway, registered, invite, d, relayed, inputs);
    CallDials(md5, t, p, rank, covers, gateway, db, registered, invite, relayed, inputs);
    CallsTerminate(invite.sdp, d, relayed, inputs);
    MediaIsAlwaysRight(invite.sdp, d, relayed, inputs);
    EveryRunsTrafficIsExact(invite.sdp, d, relayed, inputs);
  }

  /** One call over the tables as they now are. */
  method PlaceCall(store: Database, call: Transaction, ghost rank: Collation, ghost covers: Covers, ghost gateway: Name,
                   relayed: bool, inputs: seq<Input>)
    requires store.Valid() && ValidPlan(store.plan) && Deterministic(rank)
    requires call.IsNew() && Faithful(call.db, store.View(), rank, covers, gateway)
    modifies call
    ensures WentAsPlanned(store.plan, rank, covers, gateway, call.registered, call.invite, relayed, inputs, call.events)
    ensures call.outstanding == StillOpen(call.events, relayed, inputs)
  {
    CallsGoAsPlanned(store.md5, store.View(), store.plan, rank, covers, gateway, call.db, call.registered, call.invite,
                     relayed, inputs);
    call.Serve(relayed, inputs);
  }

  /** A new database after a history of validated requests. */
  method Populate(md5: Md5, ops: seq<Op>) returns (store: Database, accepted: seq<bool>)
    requires forall i :: 0 <= i < |ops| ==> Validated(ops[i])
    ensures fresh(store) && store.Valid() && store.md5 == md5 && ValidPlan(store.plan)
    ensures store.plan == Pursue(EMPTY_PLAN, ops) && store.View() == Run(md5, EMPTY_TABLES, ops)
    ensures accepted == Verdicts(EMPTY_PLAN, ops)
  {
    ValidRequestsMakeValidPlans(EMPTY_PLAN, ops);
    store := new Database(md5);
    accepted := store.Serve(ops);
  }

  /** From an empty database: any history of validated requests, accepted or rolled back, and then a
      call. `db` answers the script's queries on the tables that history leaves. */
  method Operate(md5: Md5, ops: seq<Op>, ghost rank: Collation, ghost covers: Covers, ghost gateway: Name, db: Db,
                 registered: string -> bool, invite: Invite, relayed: bool, inputs: seq<Input>)
    returns (accepted: seq<bool>, events: seq<Event>)
    requires forall i :: 0 <= i < |ops| ==> Validated(ops[i])
    requires Deterministic(rank) && Faithful(db, Run(md5, EMPTY_TABLES, ops), rank, covers, gateway)
    ensures accepted == Verdicts(EMPTY_PLAN, ops)
    ensures WentAsPlanned(Pursue(EMPTY_PLAN, ops), rank, covers, gateway, registered, invite, relayed, inputs, events)
  {
    var store: Database;
    store, accepted := Populate(md5, ops);
    var call := new Transaction(invite, db, registered);
    PlaceCall(store, call, rank, covers, gateway, relayed, inputs);
    events := call.events;
  }
}
