/** The routes of the gateway script as they are written: assignments to the transaction's variables,
    early exits, armed handlers. Each is proved against the call machine, and `Serve` runs a whole
    transaction. */
module GatewayScript {
  import opened Common
  import opened DialPlan
  import opened Refinement
  import opened RouteQuery
  import opened CallFlow
  import opened Traffic

  /** Equal, or both over without anything relayed, in which case only what was sent matters. */
  ghost predicate SameOutcome(a: Call, b: Call) {
    || a == b
    || (&& a.sdp == b.sdp && a.leg == b.leg && a.events == b.events && !a.open && !b.open && !a.replies && !b.replies
        && a.armed == NoHandler && b.armed == NoHandler)
  }

  lemma SameOutcomeReacts(a: Call, b: Call, input: Input)
    requires SameOutcome(a, b)
    ensures SameOutcome(React(a, input), React(b, input))
  {
  }

  /** What every step of a transaction keeps: offers and answers fit, and of the two attempts one is
      spare as long as a handler is armed. */
  ghost predicate CallInvariant(c: Call) {
    MediaInvariant(c) && Attempts(c.events) + Spare(c) <= 2
  }

  lemma StartMeetsInvariant(sdp: bool, d: Decision, relayed: bool)
    ensures CallInvariant(Start(sdp, d, relayed))
  {
    StartMedia(sdp, d, relayed);
    ExactlyOneOutcome(sdp, d, relayed);
  }

  lemma ReactKeepsInvariant(c: Call, input: Input)
    requires CallInvariant(c)
    ensures CallInvariant(React(c, input))
  {
    ReactMedia(c, input);
    ReactAttempts(c, input);
  }

  lemma ContinueGrows(c: Call, inputs: seq<Input>, k: nat)
    requires k < |inputs|
    ensures Continue(c, inputs[..k+1]) == React(Continue(c, inputs[..k]), inputs[k])
    decreases k
  {
    if k == 0 {
      assert inputs[..1][1..] == [];
    } else {
      ContinueGrows(React(c, inputs[0]), inputs[1..], k - 1);
      assert inputs[..k+1][1..] == inputs[1..][..k] && inputs[..k][1..] == inputs[1..][..k-1];
    }
  }

  /** At most an answer is added; if one is due and there was an offer, it is that offer reversed. */
  ghost predicate Mirrors(before: seq<Event>, after: seq<Event>, due: bool) {
    if !due then after == before
    else
      && |after| == |before| + 1 && after[..|before|] == before && after[|before|].MediaAnswer?
      && var offer := LatestOffer(before);
         offer.Some? ==> after[|before|] == MediaAnswer(offer.value.1, offer.value.0)
  }

  lemma ReplyMirrors(c: Call, sdp: bool)
    requires CallInvariant(c)
    ensures CallInvariant(React(c, Reply(sdp))) && Mirrors(c.events, React(c, Reply(sdp)).events, c.replies && sdp)
  {
    ReactKeepsInvariant(c, Reply(sdp));
  }

  class Transaction {
    const invite: Invite
    const db: Db
    const registered: string -> bool

    var trusted: bool                 // flag 1
    var callerPolicy: Option<Name>
    var target: string                // $rU
    var domain: string                // $rd
    var nextHop: string               // the host in $du
    var callerId: string              // what replaces From, if anything
    var mailboxHeader: string         // X-KubeVoIP-Mailbox
    var vm: Fallback                  // the $avp(vm_*) variables
    var digest: Credentials           // $avp(auser), $avp(arealm), $avp(apass)
    var mediaTarget: Option<Leg>      // $dlg_var(media_target)
    var replyRoute: bool
    var failureRoute: Handler
    var timer: Option<int>
    var outstanding: bool
    var events: seq<Event>

    ghost function View(): Call
      reads this
    {
      Call(invite.sdp, events, mediaTarget, failureRoute, replyRoute, timer, vm, domain, digest, outstanding)
    }

    ghost predicate Valid()
      reads this
    {
      CallInvariant(View())
    }

    /** Nothing has happened yet. */
    ghost predicate IsNew()
      reads this
    {
      View() == NewCall(invite.sdp) && callerId == "" && target == invite.number && !trusted && callerPolicy == None
    }

    /** The machine's state when the request route is done. */
    ghost function Decided(relayed: bool): Call {
      Start(invite.sdp, Decide(db, registered, invite), relayed)
    }

    constructor (invite: Invite, db: Db, registered: string -> bool)
      ensures this.invite == invite && this.db == db && this.registered == registered
      ensures IsNew()
    {
      this.invite, this.db, this.registered := invite, db, registered;
      trusted, callerPolicy, target := false, None, invite.number;
      domain, nextHop, callerId, mailboxHeader := "", "", "", "";
      vm, digest := NO_FALLBACK, NO_CREDENTIALS;
      mediaTarget, replyRoute, failureRoute, timer, outstanding, events := None, false, NoHandler, None, false, [];
    }

    method Send(e: Event)
      modifies `events
      ensures events == old(events) + [e]
    {
      events := events + [e];
    }

    method TRelay(to: Destination, relayed: bool)
      modifies `events, `outstanding
      ensures events == old(events) + [Relay(to)] && outstanding == relayed
    {
      events := events + [Relay(to)];
      outstanding := relayed;
    }

    /** The whole transaction: the request route, then every reply and final answer as it comes. */
    method Serve(relayed: bool, inputs: seq<Input>)
      requires IsNew()
      modifies this
      ensures Valid() && SameOutcome(View(), Continue(Decided(relayed), inputs))
      ensures Attempts(events) <= 2 && MediaIsRight(events, invite.sdp)
      ensures TrafficIsExact(events, invite.sdp, relayed, inputs)
      ensures outstanding == StillOpen(events, relayed, inputs)
    {
      StartMeetsInvariant(invite.sdp, Decide(db, registered, invite), relayed);
      RequestRoute(relayed);
      for i := 0 to |inputs|
        invariant Valid() && SameOutcome(View(), Continue(Decided(relayed), inputs[..i]))
      {
        ContinueGrows(Decided(relayed), inputs, i);
        SameOutcomeReacts(View(), Continue(Decided(relayed), inputs[..i]), inputs[i]);
        ReactKeepsInvariant(View(), inputs[i]);
        Handle(inputs[i]);
      }
      assert inputs[..|inputs|] == inputs;
      CallsTerminate(invite.sdp, Decide(db, registered, invite), relayed, inputs);
      EveryRunsTrafficIsExact(invite.sdp, Decide(db, registered, invite), relayed, inputs);
      EveryCallEndsOnTime(invite.sdp, Decide(db, registered, invite), relayed, inputs);
    }

    method Handle(input: Input)
      modifies this
      ensures View() == React(old(View()), input)
    {
      match input {
        case Reply(sdp) => ManageReply(sdp);
        case Accepted => FinalSuccess();
        case Failed(status, canceled, digestAnswered, relayed) =>
          FinalFailure(status, canceled, digestAnswered, relayed);
      }
    }

    /** The request route, for an INVITE outside a dialog. */
    method RequestRoute(relayed: bool)
      requires IsNew()
      modifies this
      ensures SameOutcome(View(), Decided(relayed))
    {
      if !invite.hops { Reject(483, "Too Many Hops", relayed); return; }
      DetectTrustedTrunk();
      if !trusted {
        if invite.auth.None? { Demand(relayed); return; }
        LoadAuthenticatedPolicy();
      }
      assert callerPolicy == CallerPolicy(db, invite);
      if callerPolicy.None? { Reject(403, "No dial policy", relayed); return; }
      if !(target != "" && forall i :: 0 <= i < |target| ==> DialCharacter(target[i])) {
        Reject(404, "No route", relayed);
        return;
      }
      RouteInvite(relayed);
    }

    method Reject(code: int, reason: string, ghost relayed: bool)
      requires View() == NewCall(invite.sdp)
      modifies `events
      ensures View() == Start(invite.sdp, Refused(code, reason), relayed)
    {
      Send(Refuse(code, reason));
    }

    /** Asks for proxy credentials. */
    method Demand(ghost relayed: bool)
      requires View() == NewCall(invite.sdp)
      modifies `events
      ensures View() == Start(invite.sdp, Challenged, relayed)
    {
      Send(Challenge);
    }

    method DetectTrustedTrunk()
      modifies `trusted, `callerPolicy
      ensures trusted == (old(trusted) || db.trusted(invite.source).Some?)
      ensures callerPolicy ==
        match db.trusted(invite.source) case Some(row) => row.policy case None => old(callerPolicy)
    {
      var row := db.trusted(invite.source);
      if row.Some? {
        trusted := true;
        callerPolicy := row.value.policy;
      }
    }

    method LoadAuthenticatedPolicy()
      requires invite.auth.Some?
      modifies `callerPolicy
      ensures callerPolicy == match db.caller(invite.auth.value) case Some(p) => Some(p) case None => old(callerPolicy)
    {
      var row := db.caller(invite.auth.value);
      if row.Some? {
        callerPolicy := row;
      }
    }

    method OfferGeneric()
      modifies `mediaTarget, `events
      ensures View() == Offering(old(View()), Generic)
    {
      mediaTarget := Some(Generic);
      if invite.sdp {
        Send(MediaOffer(External, External));
      }
    }

    method OfferAsterisk()
      modifies `mediaTarget, `events
      ensures View() == Offering(old(View()), Asterisk)
    {
      mediaTarget := Some(Asterisk);
      if invite.sdp {
        Send(MediaOffer(External, Internal));
      }
    }

    /** Loads the route row into the transaction's variables and dispatches on the target's kind. */
    method RouteInvite(relayed: bool)
      requires View() == NewCall(invite.sdp) && callerId == "" && callerPolicy.Some?
      modifies this
      ensures SameOutcome(View(), Start(invite.sdp,
                DecideRoute(db.route(old(callerPolicy).value, old(target)), registered), relayed))
    {
      var row := db.route(callerPolicy.value, target);
      if row.None? { Reject(403, "No permitted route", relayed); return; }
      match row.value.kind {
        case SIPUser => RouteToUser(row.value, relayed);
        case AsteriskPool => RouteToPool(row.value, relayed);
        case SIPTrunk => RouteToTrunk(row.value, relayed);
        case Unset => Reject(500, "Unsupported route target", relayed);
      }
    }

    method RouteToUser(answer: Answer, relayed: bool)
      requires View() == NewCall(invite.sdp) && answer.kind == SIPUser
      modifies this
      ensures SameOutcome(View(), Start(invite.sdp, DecideTarget(answer, registered), relayed))
    {
      target := answer.authUsername;
      vm := Fallback(answer.mailbox, answer.mailboxHost, answer.mailboxExtension, answer.timeout, answer.onBusy,
                     answer.onUnavailable, answer.onNoAnswer);
      if !registered(target) {
        if vm.mailbox != "" && vm.onUnavailable == 1 {
          SendToVoicemail(relayed);
          return;
        }
        Send(Refuse(404, "Not registered"));
        return;
      }
      OfferGeneric();
      RelayUser(relayed);
    }

    method RouteToPool(answer: Answer, relayed: bool)
      requires View() == NewCall(invite.sdp) && answer.kind == AsteriskPool
      modifies this
      ensures View() == Start(invite.sdp, DecideTarget(answer, registered), relayed)
    {
      target := answer.targetExtension;
      nextHop := answer.targetHost;
      OfferAsterisk();
      RelayPlain(relayed);
    }

    method RouteToTrunk(answer: Answer, relayed: bool)
      requires View() == NewCall(invite.sdp) && callerId == "" && answer.kind == SIPTrunk
      modifies this
      ensures View() == Start(invite.sdp, DecideTarget(answer, registered), relayed)
    {
      if answer.callerId != "" {
        callerId := answer.callerId;
      }
      domain, nextHop := answer.terminationUri, answer.terminationUri;
      digest := Credentials(answer.digestUsername, answer.digestRealm, answer.digestHa1);
      OfferGeneric();
      RelayTrunk(relayed);
    }

    method RelayPlain(relayed: bool)
      modifies `replyRoute, `events, `outstanding
      ensures View() == Relaying(old(View()), Pool(nextHop, target), relayed)
    {
      replyRoute := true;
      TRelay(Pool(nextHop, target), relayed);
      if !relayed { Send(RelayError); }
    }

    method RelayUser(relayed: bool)
      modifies `replyRoute, `events, `outstanding, `timer, `failureRoute
      ensures View() == Relaying(
                if vm.mailbox != "" then old(View()).(timer := Some(vm.timeout * 1000), armed := VoicemailFallback)
                else old(View()), Phone(target), relayed)
    {
      replyRoute := true;
      if vm.mailbox != "" {
        timer := Some(vm.timeout * 1000);
        failureRoute := VoicemailFallback;
      }
      TRelay(Phone(target), relayed);
      if !relayed { Send(RelayError); }
    }

    method RelayTrunk(relayed: bool)
      modifies `replyRoute, `events, `outstanding, `failureRoute
      ensures View() == Relaying(old(View()).(armed := TrunkAuth), Trunk(nextHop, callerId), relayed)
    {
      replyRoute := true;
      failureRoute := TrunkAuth;
      TRelay(Trunk(nextHop, callerId), relayed);
      if !relayed { Send(RelayError); }
    }

    method SendToVoicemail(relayed: bool)
      modifies `target, `nextHop, `mailboxHeader, `mediaTarget, `replyRoute, `events, `outstanding
      ensures View() == ToVoicemailBox(old(View()), relayed)
    {
      target := vm.extension;
      nextHop := vm.host;
      mailboxHeader := vm.mailbox;
      OfferAsterisk();
      replyRoute := true;
      TRelay(Mailbox(nextHop, target, mailboxHeader), relayed);
      if !relayed { Send(RelayError); }
    }

    /** Kamailio's side of a final failure: disarm the failure route, then run it. */
    method FinalFailure(status: int, canceled: bool, digestAnswered: bool, relayed: bool)
      modifies this
      ensures View() == React(old(View()), Failed(status, canceled, digestAnswered, relayed))
    {
      if !outstanding { return; }
      var armed := failureRoute;
      failureRoute := NoHandler;
      outstanding := false;
      if armed == TrunkAuth {
        FailureTrunkAuth(status, canceled, digestAnswered, relayed);
      } else if armed == VoicemailFallback {
        FailureVoicemailFallback(status, canceled, relayed);
      }
    }

    method FinalSuccess()
      modifies `outstanding
      ensures View() == React(old(View()), Accepted)
    {
      outstanding := false;
    }

    method FailureTrunkAuth(status: int, canceled: bool, digestAnswered: bool, relayed: bool)
      requires !outstanding
      modifies `events, `outstanding
      ensures View() == TrunkFailure(old(View()), status, canceled, digestAnswered, relayed)
    {
      if canceled { return; }
      if (status == 401 || status == 407) && digest.username != "" && digest.ha1 != "" {
        if digestAnswered {
          TRelay(TrunkWithDigest(domain, digest), relayed);
          return;
        }
      }
    }

    method FailureVoicemailFallback(status: int, canceled: bool, relayed: bool)
      requires !outstanding
      modifies `target, `nextHop, `mailboxHeader, `mediaTarget, `replyRoute, `events, `outstanding
      ensures View() == UserFailure(old(View()), status, canceled, relayed)
    {
      if canceled { return; }
      if vm.mailbox == "" { return; }
      if (status == 486 || status == 600) && vm.onBusy == 1 {
        SendToVoicemail(relayed);
        return;
      }
      if status == 408 && vm.onNoAnswer == 1 {
        SendToVoicemail(relayed);
        return;
      }
      if (status == 404 || status == 480 || status == 503) && vm.onUnavailable == 1 {
        SendToVoicemail(relayed);
        return;
      }
    }

    /** The reply route, which runs once a relay has set it: a body is answered with the directions of
        the latest offer reversed, and nothing else is done. */
    method ManageReply(sdp: bool)
      modifies `events
      ensures View() == React(old(View()), Reply(sdp))
      ensures old(Valid()) ==> Valid() && Mirrors(old(events), events, replyRoute && sdp)
    {
      if Valid() {
        ReplyMirrors(View(), sdp);
      }
      if !replyRoute { return; }
      if sdp {
        if mediaTarget == Some(Asterisk) {
          Send(MediaAnswer(Internal, External));
        } else {
          Send(MediaAnswer(External, External));
        }
      }
    }
  }
}
