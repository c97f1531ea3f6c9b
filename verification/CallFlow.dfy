/** One initial INVITE transaction of the gateway script, as a state machine.

    Assumed of Kamailio: a failure route is disarmed when it fires, the reply route stays set for
    the transaction, and the request body does not change during it. Authentication, registration
    lookups, relay success and everything downstream are inputs. */
module CallFlow {
  import opened Common
  import opened Refinement
  import opened RouteQuery

  type Address = string

  // ---- the call ----

  datatype Direction = External | Internal

  /** The dialog variable `media_target`. */
  datatype Leg = Generic | Asterisk

  datatype Handler = NoHandler | TrunkAuth | VoicemailFallback

  datatype Credentials = Credentials(username: string, realm: string, ha1: string)

  /** The `vm_*` variables; an empty mailbox means no fallback. */
  datatype Fallback = Fallback(
    mailbox: string, host: string, extension: string, timeout: int, onBusy: int, onUnavailable: int, onNoAnswer: int)

  datatype Destination =
    | Phone(username: string)
    | Mailbox(host: string, extension: string, number: string)
    | Pool(host: string, extension: string)
    | Trunk(uri: string, callerId: string)
    | TrunkWithDigest(uri: string, credentials: Credentials)

  /** What the gateway does that others can see. */
  datatype Event =
    | Challenge
    | Refuse(code: int, reason: string)
    | MediaOffer(from: Direction, to: Direction)
    | MediaAnswer(from: Direction, to: Direction)
    | Relay(destination: Destination)
    | RelayError

  datatype Call = Call(
    sdp: bool, events: seq<Event>, leg: Option<Leg>, armed: Handler, replies: bool, timer: Option<int>,
    fallback: Fallback, uri: string, credentials: Credentials, open: bool)

  const NO_FALLBACK := Fallback("", "", "", 0, 0, 0, 0)
  const NO_CREDENTIALS := Credentials("", "", "")

  function NewCall(sdp: bool): Call {
    Call(sdp, [], None, NoHandler, false, None, NO_FALLBACK, "", NO_CREDENTIALS, false)
  }

  function OfferFor(leg: Leg): Event {
    if leg == Asterisk then MediaOffer(External, Internal) else MediaOffer(External, External)
  }

  function AnswerFor(leg: Option<Leg>): Event {
    if leg == Some(Asterisk) then MediaAnswer(Internal, External) else MediaAnswer(External, External)
  }

  function Offering(c: Call, leg: Leg): Call {
    c.(leg := Some(leg), events := if c.sdp then c.events + [OfferFor(leg)] else c.events)
  }

  function Relaying(c: Call, to: Destination, relayed: bool): Call {
    var sent := c.(events := c.events + [Relay(to)], replies := true, open := relayed);
    if relayed then sent else sent.(events := sent.events + [RelayError])
  }

  function BoxOf(f: Fallback): Destination { Mailbox(f.host, f.extension, f.mailbox) }

  function ToVoicemailBox(c: Call, relayed: bool): Call {
    Relaying(Offering(c, Asterisk), BoxOf(c.fallback), relayed)
  }

  // ---- what happens to an initial INVITE ----

  /** `hops` is the Max-Forwards check, `auth` the user name if the proxy credentials were right. */
  datatype Invite = Invite(hops: bool, source: Address, auth: Option<string>, number: string, sdp: bool)

  datatype TrustedRow = TrustedRow(name: Name, policy: Option<Name>)

  /** The answers of the script's three queries. */
  datatype Db = Db(
    trusted: Address -> Option<TrustedRow>,
    caller: string -> Option<Name>,
    route: (Name, string) -> Option<Answer>)

  datatype Decision =
    | Challenged
    | Refused(code: int, reason: string)
    | ToUser(username: string, fallback: Fallback)
    | ToVoicemail(fallback: Fallback)
    | ToPool(host: string, extension: string)
    | ToTrunk(uri: string, callerId: string, credentials: Credentials)

  predicate WellDialled(number: string) { number != "" && Dialable(number) }

  function FallbackOf(a: Answer): Fallback {
    Fallback(a.mailbox, a.mailboxHost, a.mailboxExtension, a.timeout, a.onBusy, a.onUnavailable, a.onNoAnswer)
  }

  function CallerPolicy(db: Db, invite: Invite): Option<Name> {
    match db.trusted(invite.source)
    case Some(row) => row.policy
    case None => if invite.auth.Some? then db.caller(invite.auth.value) else None
  }

  function DecideTarget(a: Answer, registered: string -> bool): Decision {
    match a.kind
    case SIPUser =>
      if registered(a.authUsername) then ToUser(a.authUsername, FallbackOf(a))
      else if a.mailbox != "" && a.onUnavailable == 1 then ToVoicemail(FallbackOf(a))
      else Refused(404, "Not registered")
    case AsteriskPool => ToPool(a.targetHost, a.targetExtension)
    case SIPTrunk => ToTrunk(a.terminationUri, a.callerId, Credentials(a.digestUsername, a.digestRealm, a.digestHa1))
    case Unset => Refused(500, "Unsupported route target")
  }

  function DecideRoute(row: Option<Answer>, registered: string -> bool): Decision {
    match row
    case None => Refused(403, "No permitted route")
    case Some(answer) => DecideTarget(answer, registered)
  }

  function Decide(db: Db, registered: string -> bool, invite: Invite): Decision {
    if !invite.hops then Refused(483, "Too Many Hops")
    else if db.trusted(invite.source).None? && invite.auth.None? then Challenged
    else
      match CallerPolicy(db, invite)
      case None => Refused(403, "No dial policy")
      case Some(policy) =>
        if !WellDialled(invite.number) then Refused(404, "No route")
        else DecideRoute(db.route(policy, invite.number), registered)
  }

  /** The state in which the request route leaves the transaction. */
  function Start(sdp: bool, d: Decision, relayed: bool): Call {
    var c := NewCall(sdp);
    match d
    case Challenged => c.(events := [Challenge])
    case Refused(code, reason) => c.(events := [Refuse(code, reason)])
    case ToUser(u, f) =>
      var armed := if f.mailbox != "" then c.(armed := VoicemailFallback, timer := Some(f.timeout * 1000)) else c;
      Relaying(Offering(armed.(fallback := f), Generic), Phone(u), relayed)
    case ToVoicemail(f) => ToVoicemailBox(c.(fallback := f), relayed)
    case ToPool(host, extension) => Relaying(Offering(c, Asterisk), Pool(host, extension), relayed)
    case ToTrunk(uri, callerId, credentials) =>
      var dialled := c.(armed := TrunkAuth, uri := uri, credentials := credentials);
      Relaying(Offering(dialled, Generic), Trunk(uri, callerId), relayed)
  }

  // ---- what happens afterwards ----

  /** A reply on the way back, a final success, or the final failure the transaction settled on. */
  datatype Input =
    | Reply(sdp: bool)
    | Accepted
    | Failed(status: int, canceled: bool, digestAnswered: bool, relayed: bool)

  predicate BusyStatus(status: int) { status == 486 || status == 600 }
  predicate NoAnswerStatus(status: int) { status == 408 }
  predicate UnavailableStatus(status: int) { status == 404 || status == 480 || status == 503 }

  predicate WantsVoicemail(f: Fallback, status: int) {
    && f.mailbox != ""
    && (|| (BusyStatus(status) && f.onBusy == 1)
        || (NoAnswerStatus(status) && f.onNoAnswer == 1)
        || (UnavailableStatus(status) && f.onUnavailable == 1))
  }

  predicate WantsDigest(k: Credentials, status: int) {
    (status == 401 || status == 407) && k.username != "" && k.ha1 != ""
  }

  /** The failure route for trunks: one retry with the trunk's digest credentials. */
  function TrunkFailure(c: Call, status: int, canceled: bool, digestAnswered: bool, relayed: bool): Call {
    if !canceled && WantsDigest(c.credentials, status) && digestAnswered then
      c.(events := c.events + [Relay(TrunkWithDigest(c.uri, c.credentials))], open := relayed)
    else c.(open := false)
  }

  /** The failure route for users: voicemail, if the fallback covers this status. */
  function UserFailure(c: Call, status: int, canceled: bool, relayed: bool): Call {
    if !canceled && WantsVoicemail(c.fallback, status) then ToVoicemailBox(c, relayed)
    else c.(open := false)
  }

  function React(c: Call, input: Input): Call {
    match input
    case Reply(sdp) => if c.replies && sdp then c.(events := c.events + [AnswerFor(c.leg)]) else c
    case Accepted => c.(open := false)
    case Failed(status, canceled, digestAnswered, relayed) =>
      if !c.open then c
      else
        match c.armed
        case NoHandler => c.(open := false)
        case TrunkAuth => TrunkFailure(c.(armed := NoHandler), status, canceled, digestAnswered, relayed)
        case VoicemailFallback => UserFailure(c.(armed := NoHandler), status, canceled, relayed)
  }

  function Continue(c: Call, inputs: seq<Input>): Call
    decreases |inputs|
  {
    if inputs == [] then c else Continue(React(c, inputs[0]), inputs[1..])
  }

  // ---- at most two attempts ----

  function Count(events: seq<Event>, p: Event -> bool): nat {
    if events == [] then 0 else Count(events[..|events| - 1], p) + One(p(events[|events| - 1]))
  }

  predicate IsAttempt(e: Event) { e.Relay? }

  predicate IsOutcome(e: Event) { e.Challenge? || e.Refuse? || e.Relay? }

  function Attempts(events: seq<Event>): nat { Count(events, IsAttempt) }

  lemma CountGrows(events: seq<Event>, e: Event, p: Event -> bool)
    ensures Count(events + [e], p) == Count(events, p) + One(p(e))
  {
    assert (events + [e])[..|events|] == events;
  }

  lemma OfferingCounts(c: Call, leg: Leg, p: Event -> bool)
    requires !p(OfferFor(leg))
    ensures Count(Offering(c, leg).events, p) == Count(c.events, p)
  {
    CountGrows(c.events, OfferFor(leg), p);
  }

  lemma RelayingCounts(c: Call, to: Destination, relayed: bool, p: Event -> bool)
    requires !p(RelayError)
    ensures Count(Relaying(c, to, relayed).events, p) == Count(c.events, p) + One(p(Relay(to)))
  {
    CountGrows(c.events, Relay(to), p);
    CountGrows(c.events + [Relay(to)], RelayError, p);
  }

  lemma TargetCounts(c: Call, leg: Leg, to: Destination, relayed: bool, p: Event -> bool)
    requires !p(OfferFor(leg)) && !p(RelayError)
    ensures Count(Relaying(Offering(c, leg), to, relayed).events, p) == Count(c.events, p) + One(p(Relay(to)))
  {
    OfferingCounts(c, leg, p);
    RelayingCounts(Offering(c, leg), to, relayed, p);
  }

  /** The one event an initial INVITE is answered with. */
  function Outcome(d: Decision): Event {
    match d
    case Challenged => Challenge
    case Refused(code, reason) => Refuse(code, reason)
    case ToUser(u, _) => Relay(Phone(u))
    case ToVoicemail(f) => Relay(BoxOf(f))
    case ToPool(host, extension) => Relay(Pool(host, extension))
    case ToTrunk(uri, callerId, _) => Relay(Trunk(uri, callerId))
  }

  /** The call before media is offered: what the target's relay route arms, and what is loaded. */
  function Prepared(sdp: bool, d: Decision): Call {
    var c := NewCall(sdp);
    match d
    case ToUser(_, f) =>
      var armed := if f.mailbox != "" then c.(armed := VoicemailFallback, timer := Some(f.timeout * 1000)) else c;
      armed.(fallback := f)
    case ToVoicemail(f) => c.(fallback := f)
    case ToTrunk(uri, _, credentials) => c.(armed := TrunkAuth, uri := uri, credentials := credentials)
    case _ => c
  }

  function LegOf(d: Decision): Leg { if d.ToVoicemail? || d.ToPool? then Asterisk else Generic }

  /** Whatever the target, a call starts by one offer for its leg and one relay. */
  lemma StartRelays(sdp: bool, d: Decision, relayed: bool)
    ensures Prepared(sdp, d).events == [] && Prepared(sdp, d).sdp == sdp && Prepared(sdp, d).leg == None
    ensures Outcome(d).Relay? ==>
      Start(sdp, d, relayed) == Relaying(Offering(Prepared(sdp, d), LegOf(d)), Outcome(d).destination, relayed)
    ensures !Outcome(d).Relay? ==> Start(sdp, d, relayed) == NewCall(sdp).(events := [] + [Outcome(d)])
  {
  }

  lemma StartCounts(sdp: bool, d: Decision, relayed: bool, p: Event -> bool)
    requires !p(OfferFor(Generic)) && !p(OfferFor(Asterisk)) && !p(RelayError)
    ensures Count(Start(sdp, d, relayed).events, p) == One(p(Outcome(d)))
  {
    StartRelays(sdp, d, relayed);
    if Outcome(d).Relay? {
      TargetCounts(Prepared(sdp, d), LegOf(d), Outcome(d).destination, relayed, p);
    } else {
      CountGrows([], Outcome(d), p);
    }
  }

  /** Every initial INVITE is challenged, refused or relayed: exactly one of them, exactly once. */
  lemma ExactlyOneOutcome(sdp: bool, d: Decision, relayed: bool)
    ensures Count(Start(sdp, d, relayed).events, IsOutcome) == 1
    ensures Attempts(Start(sdp, d, relayed).events) == One(!d.Challenged? && !d.Refused?)
    ensures Outcome(d) in Start(sdp, d, relayed).events
  {
    StartCounts(sdp, d, relayed, IsOutcome);
    StartCounts(sdp, d, relayed, IsAttempt);
  }

  /** An armed handler of an open call: at most one more attempt. */
  function Spare(c: Call): nat { One(c.open && c.armed != NoHandler) }

  /** How many more final answers can matter: the outstanding attempt, and its armed handler. */
  function Pending(c: Call): nat { One(c.open) + Spare(c) }

  lemma BoxCounts(c: Call, relayed: bool)
    ensures Attempts(ToVoicemailBox(c, relayed).events) == Attempts(c.events) + 1
  {
    TargetCounts(c, Asterisk, BoxOf(c.fallback), relayed, IsAttempt);
  }

  lemma UserFailureCounts(c: Call, status: int, canceled: bool, relayed: bool)
    ensures Attempts(UserFailure(c, status, canceled, relayed).events) <= Attempts(c.events) + 1
  {
    if !canceled && WantsVoicemail(c.fallback, status) {
      BoxCounts(c, relayed);
    }
  }

  lemma TrunkFailureCounts(c: Call, status: int, canceled: bool, digestAnswered: bool, relayed: bool)
    ensures Attempts(TrunkFailure(c, status, canceled, digestAnswered, relayed).events) <= Attempts(c.events) + 1
  {
    CountGrows(c.events, Relay(TrunkWithDigest(c.uri, c.credentials)), IsAttempt);
  }

  /** A reaction never re-arms a handler and spends the spare attempt at most once. */
  lemma ReactAttempts(c: Call, input: Input)
    ensures React(c, input).armed in {c.armed, NoHandler}
    ensures Attempts(React(c, input).events) + Spare(React(c, input)) <= Attempts(c.events) + Spare(c)
  {
    match input
    case Reply(_) => CountGrows(c.events, AnswerFor(c.leg), IsAttempt);
    case Accepted =>
    case Failed(status, canceled, digestAnswered, relayed) =>
      if c.armed == TrunkAuth {
        TrunkFailureCounts(c.(armed := NoHandler), status, canceled, digestAnswered, relayed);
      } else if c.armed == VoicemailFallback {
        UserFailureCounts(c.(armed := NoHandler), status, canceled, relayed);
      }
  }

  /** Each final answer to an open call uses up the attempt or its handler. */
  lemma ReactUsesUp(c: Call, input: Input)
    ensures Pending(React(c, input)) <= Pending(c)
    ensures c.open && !input.Reply? ==> Pending(React(c, input)) < Pending(c)
  {
  }

  lemma {:induction false} ContinueUsesUp(c: Call, inputs: seq<Input>)
    ensures Attempts(Continue(c, inputs).events) + Spare(Continue(c, inputs)) <= Attempts(c.events) + Spare(c)
    decreases |inputs|
  {
    if inputs != [] {
      ReactAttempts(c, inputs[0]);
      ContinueUsesUp(React(c, inputs[0]), inputs[1..]);
    }
  }

  function Finals(inputs: seq<Input>): nat {
    if inputs == [] then 0 else One(!inputs[0].Reply?) + Finals(inputs[1..])
  }

  lemma {:induction false} FinalsCloseTheCall(c: Call, inputs: seq<Input>)
    requires Finals(inputs) >= Pending(c)
    ensures !Continue(c, inputs).open
    decreases |inputs|
  {
    if inputs != [] {
      ReactUsesUp(c, inputs[0]);
      FinalsCloseTheCall(React(c, inputs[0]), inputs[1..]);
    }
  }

  lemma StartLeavesOneAttempt(sdp: bool, d: Decision, relayed: bool)
    ensures Attempts(Start(sdp, d, relayed).events) + Spare(Start(sdp, d, relayed)) <= 2
  {
    ExactlyOneOutcome(sdp, d, relayed);
  }

  /** Whatever replies arrive, the transaction makes at most two attempts and is over after at most
      two final answers. */
  lemma CallsTerminate(sdp: bool, d: Decision, relayed: bool, inputs: seq<Input>)
    ensures Attempts(Continue(Start(sdp, d, relayed), inputs).events) <= 2
    ensures Finals(inputs) >= 2 ==> !Continue(Start(sdp, d, relayed), inputs).open
  {
    var c := Start(sdp, d, relayed);
    StartLeavesOneAttempt(sdp, d, relayed);
    ContinueUsesUp(c, inputs);
    if Finals(inputs) >= 2 {
      FinalsCloseTheCall(c, inputs);
    }
  }

  // ---- media: offers suit the destination, answers mirror the latest offer ----

  /** The direction pair of the most recent offer. */
  function LatestOffer(events: seq<Event>): Option<(Direction, Direction)> {
    if events == [] then None
    else
      var last := events[|events| - 1];
      if last.MediaOffer? then Some((last.from, last.to)) else LatestOffer(events[..|events| - 1])
  }

  /** Media goes inside the cluster for Asterisk, and stays outside for phones and trunks. */
  function DirectionsTo(d: Destination): (Direction, Direction) {
    if d.Mailbox? || d.Pool? then (External, Internal) else (External, External)
  }

  /** An answer reverses the latest offer; a request with a body is relayed after an offer that suits
      its destination, and one without a body after none. */
  predicate MediaFits(e: Event, offer: Option<(Direction, Direction)>, sdp: bool) {
    && (e.MediaAnswer? && offer.Some? ==> e.from == offer.value.1 && e.to == offer.value.0)
    && (e.Relay? ==> offer == if sdp then Some(DirectionsTo(e.destination)) else None)
  }

  ghost predicate MediaIsRight(events: seq<Event>, sdp: bool) {
    forall k :: 0 <= k < |events| ==> MediaFits(events[k], LatestOffer(events[..k]), sdp)
  }

  function OfferOn(sdp: bool, leg: Option<Leg>): Option<(Direction, Direction)> {
    if sdp && leg.Some? then Some((OfferFor(leg.value).from, OfferFor(leg.value).to)) else None
  }

  /** The latest offer is the one for the current leg, which is generic while a trunk may be retried. */
  ghost predicate MediaInvariant(c: Call) {
    && MediaIsRight(c.events, c.sdp)
    && LatestOffer(c.events) == OfferOn(c.sdp, c.leg)
    && (c.armed == TrunkAuth ==> c.leg == Some(Generic))
  }

  lemma MediaGrows(events: seq<Event>, e: Event, sdp: bool)
    requires MediaIsRight(events, sdp) && MediaFits(e, LatestOffer(events), sdp)
    ensures MediaIsRight(events + [e], sdp)
    ensures LatestOffer(events + [e]) == if e.MediaOffer? then Some((e.from, e.to)) else LatestOffer(events)
  {
    var grown := events + [e];
    assert grown[..|events|] == events;
    forall k | 0 <= k < |grown| ensures MediaFits(grown[k], LatestOffer(grown[..k]), sdp) {
      if k < |events| {
        assert grown[..k] == events[..k];
      }
    }
  }

  lemma OfferingFits(c: Call, leg: Leg)
    requires MediaIsRight(c.events, c.sdp) && LatestOffer(c.events) == OfferOn(c.sdp, c.leg)
    requires c.armed == TrunkAuth ==> leg == Generic
    ensures MediaInvariant(Offering(c, leg))
  {
    MediaGrows(c.events, OfferFor(leg), c.sdp);
  }

  lemma RelayingFits(c: Call, to: Destination, relayed: bool)
    requires MediaInvariant(c) && c.leg == Some(if to.Mailbox? || to.Pool? then Asterisk else Generic)
    ensures MediaInvariant(Relaying(c, to, relayed))
  {
    MediaGrows(c.events, Relay(to), c.sdp);
    MediaGrows(c.events + [Relay(to)], RelayError, c.sdp);
  }

  lemma StartMedia(sdp: bool, d: Decision, relayed: bool)
    ensures MediaInvariant(Start(sdp, d, relayed))
  {
    StartRelays(sdp, d, relayed);
    if Outcome(d).Relay? {
      TargetFits(Prepared(sdp, d), LegOf(d), Outcome(d).destination, relayed);
    } else {
      MediaGrows([], Outcome(d), sdp);
    }
  }

  lemma TargetFits(c: Call, leg: Leg, to: Destination, relayed: bool)
    requires MediaIsRight(c.events, c.sdp) && LatestOffer(c.events) == OfferOn(c.sdp, c.leg)
    requires leg == (if to.Mailbox? || to.Pool? then Asterisk else Generic) && (c.armed == TrunkAuth ==> leg == Generic)
    ensures MediaInvariant(Relaying(Offering(c, leg), to, relayed))
  {
    OfferingFits(c, leg);
    RelayingFits(Offering(c, leg), to, relayed);
  }

  lemma BoxMedia(c: Call, relayed: bool)
    requires MediaInvariant(c) && c.armed != TrunkAuth
    ensures MediaInvariant(ToVoicemailBox(c, relayed))
  {
    TargetFits(c, Asterisk, BoxOf(c.fallback), relayed);
  }

  lemma UserFailureMedia(c: Call, status: int, canceled: bool, relayed: bool)
    requires MediaInvariant(c) && c.armed != TrunkAuth
    ensures MediaInvariant(UserFailure(c, status, canceled, relayed))
  {
    if !canceled && WantsVoicemail(c.fallback, status) {
      BoxMedia(c, relayed);
    }
  }

  lemma TrunkFailureMedia(c: Call, status: int, canceled: bool, digestAnswered: bool, relayed: bool)
    requires MediaInvariant(c) && c.leg == Some(Generic)
    ensures MediaInvariant(TrunkFailure(c, status, canceled, digestAnswered, relayed))
  {
    MediaGrows(c.events, Relay(TrunkWithDigest(c.uri, c.credentials)), c.sdp);
  }

  lemma ReactMedia(c: Call, input: Input)
    requires MediaInvariant(c)
    ensures MediaInvariant(React(c, input))
  {
    match input
    case Reply(_) => MediaGrows(c.events, AnswerFor(c.leg), c.sdp);
    case Accepted =>
    case Failed(_, _, _, _) => FailedMedia(c, input);
  }

  lemma FailedMedia(c: Call, input: Input)
    requires MediaInvariant(c) && input.Failed?
    ensures MediaInvariant(React(c, input))
  {
    var disarmed := c.(armed := NoHandler);
    if c.armed == TrunkAuth {
      TrunkFailureMedia(disarmed, input.status, input.canceled, input.digestAnswered, input.relayed);
    } else if c.armed == VoicemailFallback {
      UserFailureMedia(disarmed, input.status, input.canceled, input.relayed);
    }
  }

  lemma {:induction false} ContinueMedia(c: Call, inputs: seq<Input>)
    requires MediaInvariant(c)
    ensures MediaInvariant(Continue(c, inputs)) && Continue(c, inputs).sdp == c.sdp
    decreases |inputs|
  {
    if inputs != [] {
      ReactMedia(c, inputs[0]);
      ContinueMedia(React(c, inputs[0]), inputs[1..]);
    }
  }

  /** In every run, each answer to RTPengine reverses the direction pair of the latest offer, also
      after a generic leg has failed over to voicemail, and each relay follows an offer that suits
      where it goes. */
  lemma MediaIsAlwaysRight(sdp: bool, d: Decision, relayed: bool, inputs: seq<Input>)
    ensures MediaIsRight(Continue(Start(sdp, d, relayed), inputs).events, sdp)
  {
    StartMedia(sdp, d, relayed);
    ContinueMedia(Start(sdp, d, relayed), inputs);
  }

  // ---- whom a call is sent to, in order ----

  function Dialled(events: seq<Event>): seq<Destination> {
    if events == [] then []
    else
      var last := events[|events| - 1];
      Dialled(events[..|events| - 1]) + if last.Relay? then [last.destination] else []
  }

  lemma DialledGrows(events: seq<Event>, e: Event)
    ensures Dialled(events + [e]) == Dialled(events) + if e.Relay? then [e.destination] else []
  {
    assert (events + [e])[..|events|] == events;
  }

  lemma {:induction false} DialledIsRelayed(events: seq<Event>, to: Destination)
    ensures to in Dialled(events) <==> Relay(to) in events
    decreases |events|
  {
    if events != [] {
      var last := |events| - 1;
      DialledIsRelayed(events[..last], to);
      assert events == events[..last] + [events[last]];
    }
  }

  lemma OfferingDials(c: Call, leg: Leg)
    ensures Dialled(Offering(c, leg).events) == Dialled(c.events)
  {
    DialledGrows(c.events, OfferFor(leg));
  }

  lemma RelayingDials(c: Call, to: Destination, relayed: bool)
    ensures Dialled(Relaying(c, to, relayed).events) == Dialled(c.events) + [to]
  {
    DialledGrows(c.events, Relay(to));
    DialledGrows(c.events + [Relay(to)], RelayError);
  }

  lemma TargetDials(c: Call, leg: Leg, to: Destination, relayed: bool)
    ensures Dialled(Relaying(Offering(c, leg), to, relayed).events) == Dialled(c.events) + [to]
  {
    OfferingDials(c, leg);
    RelayingDials(Offering(c, leg), to, relayed);
  }

  lemma BoxDials(c: Call, relayed: bool)
    ensures Dialled(ToVoicemailBox(c, relayed).events) == Dialled(c.events) + [BoxOf(c.fallback)]
  {
    TargetDials(c, Asterisk, BoxOf(c.fallback), relayed);
  }

  /** The request route dials the target it decided on, if any. */
  lemma StartDials(sdp: bool, d: Decision, relayed: bool)
    ensures Dialled(Start(sdp, d, relayed).events) == if Outcome(d).Relay? then [Outcome(d).destination] else []
  {
    StartRelays(sdp, d, relayed);
    if Outcome(d).Relay? {
      TargetDials(Prepared(sdp, d), LegOf(d), Outcome(d).destination, relayed);
    } else {
      DialledGrows([], Outcome(d));
    }
  }

  /** The first input that settles the first attempt. */
  function FirstFinal(inputs: seq<Input>): Option<Input> {
    if inputs == [] then None
    else if inputs[0].Reply? then FirstFinal(inputs[1..])
    else Some(inputs[0])
  }

  /** Whom an open call with an armed handler is sent to next, if its first final answer asks for it. */
  function SecondDestination(c: Call, final: Option<Input>): seq<Destination> {
    match final
    case Some(Failed(status, false, digestAnswered, _)) =>
      if c.armed == VoicemailFallback && WantsVoicemail(c.fallback, status) then
        [BoxOf(c.fallback)]
      else if c.armed == TrunkAuth && WantsDigest(c.credentials, status) && digestAnswered then
        [TrunkWithDigest(c.uri, c.credentials)]
      else []
    case _ => []
  }

  lemma ReplyDials(c: Call, input: Input)
    requires input.Reply?
    ensures Dialled(React(c, input).events) == Dialled(c.events)
    ensures forall final :: SecondDestination(React(c, input), final) == SecondDestination(c, final)
  {
    DialledGrows(c.events, AnswerFor(c.leg));
  }

  lemma RetryDials(c: Call, input: Input)
    requires c.open && input.Failed? && c.armed == TrunkAuth
    ensures Dialled(React(c, input).events) == Dialled(c.events) + SecondDestination(c, Some(input))
  {
    DialledGrows(c.events, Relay(TrunkWithDigest(c.uri, c.credentials)));
  }

  lemma FallbackDials(c: Call, input: Input)
    requires c.open && input.Failed? && c.armed == VoicemailFallback
    ensures Dialled(React(c, input).events) == Dialled(c.events) + SecondDestination(c, Some(input))
  {
    BoxDials(c.(armed := NoHandler), input.relayed);
  }

  lemma FinalDials(c: Call, input: Input)
    requires c.open && !input.Reply?
    ensures React(c, input).armed == NoHandler || !React(c, input).open
    ensures Dialled(React(c, input).events) == Dialled(c.events) + SecondDestination(c, Some(input))
  {
    if input.Failed? {
      match c.armed
      case NoHandler =>
      case TrunkAuth => RetryDials(c, input);
      case VoicemailFallback => FallbackDials(c, input);
    }
  }

  /** Once no handler is armed or the call is over, nobody else is ever dialled. */
  lemma {:induction false} NobodyElseIsDialled(c: Call, inputs: seq<Input>)
    requires c.armed == NoHandler || !c.open
    ensures Dialled(Continue(c, inputs).events) == Dialled(c.events)
    decreases |inputs|
  {
    if inputs != [] {
      if inputs[0].Reply? {
        ReplyDials(c, inputs[0]);
      }
      NobodyElseIsDialled(React(c, inputs[0]), inputs[1..]);
    }
  }

  /** Over any run, an open call dials nobody after those so far but whom its first final answer asks
      for, once; a call that is over dials nobody. */
  lemma {:induction false} DestinationsAreExact(c: Call, inputs: seq<Input>)
    ensures Dialled(Continue(c, inputs).events)
         == Dialled(c.events) + if c.open then SecondDestination(c, FirstFinal(inputs)) else []
    decreases |inputs|
  {
    if !c.open {
      NobodyElseIsDialled(c, inputs);
    } else if inputs != [] {
      if inputs[0].Reply? {
        ReplyDials(c, inputs[0]);
        DestinationsAreExact(React(c, inputs[0]), inputs[1..]);
      } else {
        FinalDials(c, inputs[0]);
        NobodyElseIsDialled(React(c, inputs[0]), inputs[1..]);
      }
    }
  }
}
