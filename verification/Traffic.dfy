/** How much a transaction sends: every reply with a body is answered once, media is offered once for
    each new destination, and an error reply follows each relay that fails. */
module Traffic {
  import opened Common
  import opened CallFlow

  predicate IsAnswer(e: Event) { e.MediaAnswer? }

  predicate IsOffer(e: Event) { e.MediaOffer? }

  predicate IsError(e: Event) { e.RelayError? }

  /** A relay to somebody new: all but the digest retry, which repeats the request to the same trunk. */
  predicate IsFresh(e: Event) { e.Relay? && !e.destination.TrunkWithDigest? }

  /** How many replies with a body arrive. */
  function BodyReplies(inputs: seq<Input>): nat {
    if inputs == [] then 0 else One(inputs[0] == Reply(true)) + BodyReplies(inputs[1..])
  }

  /** Whether the relay that an answer led to failed. */
  predicate RelayFailed(final: Option<Input>) {
    match final
    case Some(Failed(_, _, _, relayed)) => !relayed
    case _ => false
  }

  /** What is sent besides the destinations, counted: an answer for each reply with a body once somebody
      was dialled; if the request has a body, an offer for each destination but a digest retry; and an
      error when the first relay fails or the relay to voicemail after it does. */
  ghost predicate TrafficIsExact(events: seq<Event>, sdp: bool, relayed: bool, inputs: seq<Input>) {
    var dialled := Dialled(events);
    && Count(events, IsAnswer) == (if dialled == [] then 0 else BodyReplies(inputs))
    && Count(events, IsOffer) == (if sdp then Count(events, IsFresh) else 0)
    && Count(events, IsError)
       == One(dialled != [] && !relayed)
        + One(|dialled| == 2 && dialled[1].Mailbox? && RelayFailed(FirstFinal(inputs)))
  }

  /** Whether an attempt is still outstanding: the first one until it is settled, then the second one if
      there is one and it was relayed. */
  predicate StillOpen(events: seq<Event>, relayed: bool, inputs: seq<Input>) {
    if Finals(inputs) == 0 then Dialled(events) != [] && relayed
    else Finals(inputs) == 1 && |Dialled(events)| == 2 && !RelayFailed(FirstFinal(inputs))
  }

  // ---- how a final failure goes on ----

  /** The call goes on to voicemail, or to the same trunk with credentials, or is over. */
  lemma FailureGoesOn(c: Call, input: Input)
    requires c.open && input.Failed?
    ensures var c', next := c.(armed := NoHandler), SecondDestination(c, Some(input));
      if next == [] then React(c, input) == c'.(open := false)
      else if c.armed == VoicemailFallback then
        next == [BoxOf(c.fallback)] && React(c, input) == Relaying(Offering(c', Asterisk), next[0], input.relayed)
      else
        && next == [TrunkWithDigest(c.uri, c.credentials)]
        && React(c, input) == c'.(events := c.events + [Relay(next[0])], open := input.relayed)
  {
  }

  /** The failure, in whichever of the three ways, sends this many events of a kind. */
  lemma FailureCounts(c: Call, input: Input, p: Event -> bool)
    requires input.Failed? && !p(OfferFor(Asterisk)) && !p(RelayError)
    ensures Count(React(c, input).events, p) == Count(c.events, p)
      + if c.open && SecondDestination(c, Some(input)) != [] then
          One(p(Relay(SecondDestination(c, Some(input))[0])))
        else 0
  {
    if c.open {
      FailureGoesOn(c, input);
      var next := SecondDestination(c, Some(input));
      if next != [] {
        CountGrows(c.events, Relay(next[0]), p);
        TargetCounts(c.(armed := NoHandler), Asterisk, next[0], input.relayed, p);
      }
    }
  }

  // ---- answers ----

  /** Whoever is being dialled can be answered. */
  predicate CanReply(c: Call) { c.open ==> c.replies }

  lemma ReactAnswers(c: Call, input: Input)
    requires CanReply(c)
    ensures CanReply(React(c, input)) && React(c, input).replies == c.replies
    ensures Count(React(c, input).events, IsAnswer)
         == Count(c.events, IsAnswer) + One(c.replies && input == Reply(true))
  {
    match input
    case Reply(_) => CountGrows(c.events, AnswerFor(c.leg), IsAnswer);
    case Accepted =>
    case Failed(_, _, _, _) =>
      FailureCounts(c, input, IsAnswer);
      if c.open {
        FailureGoesOn(c, input);
      }
  }

  lemma {:induction false} ContinueAnswers(c: Call, inputs: seq<Input>)
    requires CanReply(c)
    ensures Count(Continue(c, inputs).events, IsAnswer)
         == Count(c.events, IsAnswer) + if c.replies then BodyReplies(inputs) else 0
    decreases |inputs|
  {
    if inputs != [] {
      ReactAnswers(c, inputs[0]);
      ContinueAnswers(React(c, inputs[0]), inputs[1..]);
    }
  }

  lemma StartReplies(sdp: bool, d: Decision, relayed: bool)
    ensures Start(sdp, d, relayed).replies == Outcome(d).Relay? && CanReply(Start(sdp, d, relayed))
  {
    StartRelays(sdp, d, relayed);
  }

  /** Over every run, each reply with a body is answered to RTPengine, once, if the call was relayed at
      all, and nothing else is. */
  lemma EveryBodyIsAnswered(sdp: bool, d: Decision, relayed: bool, inputs: seq<Input>)
    ensures Count(Continue(Start(sdp, d, relayed), inputs).events, IsAnswer)
         == if Outcome(d).Relay? then BodyReplies(inputs) else 0
  {
    StartReplies(sdp, d, relayed);
    StartCounts(sdp, d, relayed, IsAnswer);
    ContinueAnswers(Start(sdp, d, relayed), inputs);
  }

  // ---- offers ----

  ghost predicate OffersMatch(c: Call) {
    Count(c.events, IsOffer) == if c.sdp then Count(c.events, IsFresh) else 0
  }

  lemma TargetOffers(c: Call, leg: Leg, to: Destination, relayed: bool)
    requires OffersMatch(c) && !to.TrunkWithDigest?
    ensures OffersMatch(Relaying(Offering(c, leg), to, relayed)) && Relaying(Offering(c, leg), to, relayed).sdp == c.sdp
  {
    TargetCounts(c, leg, to, relayed, IsFresh);
    CountGrows(c.events, OfferFor(leg), IsOffer);
    RelayingCounts(Offering(c, leg), to, relayed, IsOffer);
  }

  lemma ReactOffers(c: Call, input: Input)
    requires OffersMatch(c)
    ensures OffersMatch(React(c, input)) && React(c, input).sdp == c.sdp
  {
    match input
    case Reply(_) =>
      CountGrows(c.events, AnswerFor(c.leg), IsOffer);
      CountGrows(c.events, AnswerFor(c.leg), IsFresh);
    case Accepted =>
    case Failed(_, _, _, _) => if c.open { FailureOffers(c, input); }
  }

  lemma FailureOffers(c: Call, input: Input)
    requires OffersMatch(c) && c.open && input.Failed?
    ensures OffersMatch(React(c, input)) && React(c, input).sdp == c.sdp
  {
    FailureGoesOn(c, input);
    var next := SecondDestination(c, Some(input));
    if next != [] && c.armed == VoicemailFallback {
      TargetOffers(c.(armed := NoHandler), Asterisk, next[0], input.relayed);
    } else if next != [] {
      CountGrows(c.events, Relay(next[0]), IsOffer);
      CountGrows(c.events, Relay(next[0]), IsFresh);
    }
  }

  lemma {:induction false} ContinueOffers(c: Call, inputs: seq<Input>)
    requires OffersMatch(c)
    ensures OffersMatch(Continue(c, inputs)) && Continue(c, inputs).sdp == c.sdp
    decreases |inputs|
  {
    if inputs != [] {
      ReactOffers(c, inputs[0]);
      ContinueOffers(React(c, inputs[0]), inputs[1..]);
    }
  }

  lemma StartOffers(sdp: bool, d: Decision, relayed: bool)
    ensures OffersMatch(Start(sdp, d, relayed)) && Start(sdp, d, relayed).sdp == sdp
  {
    StartRelays(sdp, d, relayed);
    if Outcome(d).Relay? {
      TargetOffers(Prepared(sdp, d), LegOf(d), Outcome(d).destination, relayed);
    } else {
      CountGrows([], Outcome(d), IsOffer);
      CountGrows([], Outcome(d), IsFresh);
    }
  }

  // ---- errors ----

  lemma RelayingErrors(c: Call, to: Destination, relayed: bool)
    ensures Count(Relaying(c, to, relayed).events, IsError) == Count(c.events, IsError) + One(!relayed)
  {
    CountGrows(c.events, Relay(to), IsError);
    CountGrows(c.events + [Relay(to)], RelayError, IsError);
  }

  lemma TargetErrors(c: Call, leg: Leg, to: Destination, relayed: bool)
    ensures Count(Relaying(Offering(c, leg), to, relayed).events, IsError) == Count(c.events, IsError) + One(!relayed)
  {
    OfferingCounts(c, leg, IsError);
    RelayingErrors(Offering(c, leg), to, relayed);
  }

  /** The error that a final answer leads to: voicemail is dialled and the relay fails. */
  function SecondErrors(c: Call, final: Option<Input>): nat {
    One(c.open && SecondDestination(c, final) == [BoxOf(c.fallback)] && RelayFailed(final))
  }

  lemma ReplyErrors(c: Call, input: Input)
    requires input.Reply?
    ensures Count(React(c, input).events, IsError) == Count(c.events, IsError)
    ensures forall final :: SecondErrors(React(c, input), final) == SecondErrors(c, final)
  {
    CountGrows(c.events, AnswerFor(c.leg), IsError);
  }

  lemma FinalErrors(c: Call, input: Input)
    requires !input.Reply?
    ensures Count(React(c, input).events, IsError) == Count(c.events, IsError) + SecondErrors(c, Some(input))
    ensures React(c, input).armed == NoHandler || !React(c, input).open
  {
    if input.Failed? && c.open {
      FailureGoesOn(c, input);
      var next := SecondDestination(c, Some(input));
      if next != [] {
        CountGrows(c.events, Relay(next[0]), IsError);
        TargetErrors(c.(armed := NoHandler), Asterisk, next[0], input.relayed);
      }
    }
  }

  lemma {:induction false} NoFurtherErrors(c: Call, inputs: seq<Input>)
    requires c.armed == NoHandler || !c.open
    ensures Count(Continue(c, inputs).events, IsError) == Count(c.events, IsError)
    decreases |inputs|
  {
    if inputs != [] {
      if inputs[0].Reply? {
        ReplyErrors(c, inputs[0]);
      } else {
        FinalErrors(c, inputs[0]);
      }
      NoFurtherErrors(React(c, inputs[0]), inputs[1..]);
    }
  }

  lemma {:induction false} ContinueErrors(c: Call, inputs: seq<Input>)
    ensures Count(Continue(c, inputs).events, IsError)
         == Count(c.events, IsError) + SecondErrors(c, FirstFinal(inputs))
    decreases |inputs|
  {
    if inputs != [] {
      if inputs[0].Reply? {
        ReplyErrors(c, inputs[0]);
        ContinueErrors(React(c, inputs[0]), inputs[1..]);
      } else {
        FinalErrors(c, inputs[0]);
        NoFurtherErrors(React(c, inputs[0]), inputs[1..]);
      }
    }
  }

  lemma StartErrors(sdp: bool, d: Decision, relayed: bool)
    ensures Count(Start(sdp, d, relayed).events, IsError) == One(Outcome(d).Relay? && !relayed)
    ensures Start(sdp, d, relayed).open == (Outcome(d).Relay? && relayed)
  {
    StartRelays(sdp, d, relayed);
    if Outcome(d).Relay? {
      TargetErrors(Prepared(sdp, d), LegOf(d), Outcome(d).destination, relayed);
    } else {
      CountGrows([], Outcome(d), IsError);
    }
  }

  // ---- when a call is over ----

  lemma {:induction false} OverIsOver(c: Call, inputs: seq<Input>)
    requires !c.open
    ensures !Continue(c, inputs).open
    decreases |inputs|
  {
    if inputs != [] {
      OverIsOver(React(c, inputs[0]), inputs[1..]);
    }
  }

  /** With no handler armed, the first final answer ends the call. */
  lemma {:induction false} UnarmedEnds(c: Call, inputs: seq<Input>)
    requires c.open && c.armed == NoHandler
    ensures Continue(c, inputs).open == (Finals(inputs) == 0)
    decreases |inputs|
  {
    if inputs != [] {
      if inputs[0].Reply? {
        UnarmedEnds(React(c, inputs[0]), inputs[1..]);
      } else {
        OverIsOver(React(c, inputs[0]), inputs[1..]);
      }
    }
  }

  lemma FinalOpens(c: Call, input: Input)
    requires c.open && !input.Reply?
    ensures React(c, input).armed == NoHandler || !React(c, input).open
    ensures React(c, input).open == (SecondDestination(c, Some(input)) != [] && !RelayFailed(Some(input)))
  {
    if input.Failed? {
      FailureGoesOn(c, input);
    }
  }

  lemma {:induction false} ContinueOpens(c: Call, inputs: seq<Input>)
    requires c.open
    ensures Continue(c, inputs).open
      == if Finals(inputs) == 0 then true
         else Finals(inputs) == 1 && SecondDestination(c, FirstFinal(inputs)) != [] && !RelayFailed(FirstFinal(inputs))
    decreases |inputs|
  {
    if inputs != [] {
      var c' := React(c, inputs[0]);
      if inputs[0].Reply? {
        ReplyDials(c, inputs[0]);
        ContinueOpens(c', inputs[1..]);
      } else {
        FinalOpens(c, inputs[0]);
        if c'.open {
          UnarmedEnds(c', inputs[1..]);
        } else {
          OverIsOver(c', inputs[1..]);
        }
      }
    }
  }

  /** A call is over exactly when its last attempt is. */
  lemma EveryCallEndsOnTime(sdp: bool, d: Decision, relayed: bool, inputs: seq<Input>)
    ensures Continue(Start(sdp, d, relayed), inputs).open
         == StillOpen(Continue(Start(sdp, d, relayed), inputs).events, relayed, inputs)
  {
    var start := Start(sdp, d, relayed);
    StartDials(sdp, d, relayed);
    StartErrors(sdp, d, relayed);
    DestinationsAreExact(start, inputs);
    if start.open {
      ContinueOpens(start, inputs);
    } else {
      OverIsOver(start, inputs);
    }
  }

  /** In every run the traffic is exact. */
  lemma EveryRunsTrafficIsExact(sdp: bool, d: Decision, relayed: bool, inputs: seq<Input>)
    ensures TrafficIsExact(Continue(Start(sdp, d, relayed), inputs).events, sdp, relayed, inputs)
  {
    var start := Start(sdp, d, relayed);
    StartDials(sdp, d, relayed);
    DestinationsAreExact(start, inputs);
    EveryBodyIsAnswered(sdp, d, relayed, inputs);
    StartOffers(sdp, d, relayed);
    ContinueOffers(start, inputs);
    StartErrors(sdp, d, relayed);
    ContinueErrors(start, inputs);
  }
}
