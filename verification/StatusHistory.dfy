/** Status conditions over a resource's whole history: what `lastTransitionTime` means. */
module StatusHistory {
  /** What a reconcile claims about one condition type. */
  datatype Entry = Entry(kind: string, status: bool, reason: string, message: string)

  datatype Condition = Condition(entry: Entry, generation: int, since: int)

  /** The ways a reconcile ends. `components` are the component conditions of a success. */
  datatype Outcome =
    | Succeeded(ready: bool, reason: string, message: string, components: seq<Entry>)
    | InvalidSpec(error: string)
    | WaitingForLoadBalancer(error: string)
    | DependencyUnavailable(error: string)
    | KubernetesApiError(error: string)

  /** The conditions an outcome writes. An error writes `Ready` alone. */
  function Entries(o: Outcome): seq<Entry> {
    match o
    case Succeeded(ready, reason, message, components) => [Entry("Ready", ready, reason, message)] + components
    case InvalidSpec(error) => [Entry("Ready", false, "InvalidSpec", error)]
    case WaitingForLoadBalancer(error) =>
      [Entry("Ready", false, "WaitingForLoadBalancer", error),
       Entry("ExternalAddressResolved", false, "WaitingForLoadBalancer", error)]
    case DependencyUnavailable(error) => [Entry("Ready", false, "DependencyUnavailable", error)]
    case KubernetesApiError(error) => [Entry("Ready", false, "KubernetesApiError", error)]
  }

  predicate OneConditionPerKind(entries: seq<Entry>) {
    forall i, j :: 0 <= i < j < |entries| ==> entries[i].kind != entries[j].kind
  }

  /** One write of the status: the outcome, the generation, and the clock read for each condition. */
  datatype Write = Write(outcome: Outcome, generation: int, clocks: seq<int>)

  predicate WellFormed(w: Write) {
    |w.clocks| == |Entries(w.outcome)| && OneConditionPerKind(Entries(w.outcome))
  }

  // ---- one condition ----

  /** The time of the first previous condition that says the same, else the clock. */
  function Since(e: Entry, previous: seq<Condition>, now: int): int {
    if previous == [] then now
    else if previous[0].entry == e then previous[0].since
    else Since(e, previous[1..], now)
  }

  method MakeCondition(e: Entry, generation: int, previous: seq<Condition>, now: int) returns (c: Condition)
    ensures c == Condition(e, generation, Since(e, previous, now))
  {
    var transitionTime := now;
    var i := 0;
    while i < |previous|
      invariant 0 <= i <= |previous|
      invariant transitionTime == now
      invariant Since(e, previous, now) == Since(e, previous[i..], now)
    {
      if previous[i].entry == e {
        transitionTime := previous[i].since;
        assert previous[i..][0] == previous[i];
        break;
      }
      assert previous[i..][1..] == previous[i+1..];
      i := i + 1;
    }
    c := Condition(e, generation, transitionTime);
  }

  function Conditions(w: Write, previous: seq<Condition>): (r: seq<Condition>)
    requires WellFormed(w)
  {
    seq(|w.clocks|, i requires 0 <= i < |w.clocks| =>
      Condition(Entries(w.outcome)[i], w.generation, Since(Entries(w.outcome)[i], previous, w.clocks[i])))
  }

  /** The list of conditions, one after the other. */
  method MakeConditions(w: Write, previous: seq<Condition>) returns (list: seq<Condition>)
    requires WellFormed(w)
    ensures list == Conditions(w, previous)
  {
    list := [];
    for i := 0 to |w.clocks|
      invariant list == Conditions(w, previous)[..i]
    {
      var c := MakeCondition(Entries(w.outcome)[i], w.generation, previous, w.clocks[i]);
      list := list + [c];
    }
  }

  /** A status whose only claim is that the resource is not ready, for this reason. */
  predicate ShowsError(reason: string, error: string, phase: string, ready: bool, conditions: seq<Condition>) {
    && phase == "Error" && !ready
    && |conditions| == 1 && conditions[0].entry == Entry("Ready", false, reason, error)
  }

  /** What each outcome leaves in the status: the field and the `Ready` condition always agree. */
  predicate Shows(w: Write, phase: string, ready: bool, generation: int, conditions: seq<Condition>) {
    && generation == w.generation
    && (forall i :: 0 <= i < |conditions| ==> conditions[i].generation == w.generation)
    && match w.outcome
       case Succeeded(isReady, reason, message, components) =>
         && phase == (if isReady then "Ready" else "Reconciling") && ready == isReady
         && |conditions| == |components| + 1 && conditions[0].entry == Entry("Ready", isReady, reason, message)
         && forall i :: 0 <= i < |components| ==> conditions[i + 1].entry == components[i]
       case InvalidSpec(error) => ShowsError("InvalidSpec", error, phase, ready, conditions)
       case WaitingForLoadBalancer(error) =>
         && phase == "Reconciling" && !ready && |conditions| == 2
         && conditions[0].entry == Entry("Ready", false, "WaitingForLoadBalancer", error)
         && conditions[1].entry == Entry("ExternalAddressResolved", false, "WaitingForLoadBalancer", error)
       case DependencyUnavailable(error) => ShowsError("DependencyUnavailable", error, phase, ready, conditions)
       case KubernetesApiError(error) => ShowsError("KubernetesApiError", error, phase, ready, conditions)
  }

  lemma OutcomeShows(w: Write, previous: seq<Condition>, phase: string, ready: bool)
    requires WellFormed(w) && ready == (w.outcome.Succeeded? && w.outcome.ready)
    requires phase == if ready then "Ready"
                      else if w.outcome.Succeeded? || w.outcome.WaitingForLoadBalancer? then "Reconciling"
                      else "Error"
    ensures Shows(w, phase, ready, w.generation, Conditions(w, previous))
  {
  }

  /** A resource's stored status, as the handler patches it after each reconcile. */
  class ResourceStatus {
    var phase: string
    var ready: bool
    var observedGeneration: int
    var conditions: seq<Condition>

    constructor ()
      ensures conditions == []
    {
      phase, ready, observedGeneration, conditions := "", false, 0, [];
    }

    method Update(w: Write)
      requires WellFormed(w)
      modifies this
      ensures conditions == Conditions(w, old(conditions))
      ensures Shows(w, phase, ready, observedGeneration, conditions)
    {
      var previous := conditions;
      match w.outcome {
        case Succeeded(isReady, _, _, _) =>
          ready, phase := isReady, if isReady then "Ready" else "Reconciling";
        case WaitingForLoadBalancer(_) =>
          ready, phase := false, "Reconciling";
        case _ =>
          ready, phase := false, "Error";
      }
      observedGeneration := w.generation;
      conditions := MakeConditions(w, previous);
      OutcomeShows(w, previous, phase, ready);
    }

    /** A new resource's whole history of reconciles. */
    method Live(ws: seq<Write>)
      requires AllWellFormed(ws) && conditions == []
      modifies this
      ensures conditions == After(ws)
      ensures ws != [] ==> Shows(ws[|ws| - 1], phase, ready, observedGeneration, conditions)
      ensures forall i :: 0 <= i < |conditions| ==> Timed(ws, conditions[i])
    {
      for n := 0 to |ws|
        invariant conditions == After(ws[..n])
        invariant n > 0 ==> Shows(ws[n - 1], phase, ready, observedGeneration, conditions)
      {
        AfterGrows(ws[..n], ws[n]);
        assert ws[..n+1] == ws[..n] + [ws[n]];
        Update(ws[n]);
      }
      assert ws[..|ws|] == ws;
      AllTimesAreStarts(ws, conditions);
    }
  }

  // ---- the history ----

  predicate AllWellFormed(ws: seq<Write>) {
    forall i :: 0 <= i < |ws| ==> WellFormed(ws[i])
  }

  /** The conditions after a history of writes, oldest first, on a new resource. */
  function After(ws: seq<Write>): seq<Condition>
    requires AllWellFormed(ws)
  {
    if ws == [] then [] else Conditions(ws[|ws| - 1], After(ws[..|ws| - 1]))
  }

  predicate Says(w: Write, e: Entry) { e in Entries(w.outcome) }

  /** `k` starts the unbroken stretch of writes that say `e` and reach to the end. */
  ghost predicate StretchStarts(ws: seq<Write>, e: Entry, k: int) {
    && 0 <= k < |ws|
    && (forall j :: k <= j < |ws| ==> Says(ws[j], e))
    && (k > 0 ==> !Says(ws[k - 1], e))
  }

  /** The condition has the time of the write that starts its stretch. */
  ghost predicate StartedAt(ws: seq<Write>, c: Condition, k: int)
    requires AllWellFormed(ws)
  {
    StretchStarts(ws, c.entry, k) && c.since == ClockOf(ws[k], c.entry)
  }

  ghost predicate Timed(ws: seq<Write>, c: Condition)
    requires AllWellFormed(ws)
  {
    exists k :: StartedAt(ws, c, k)
  }

  /** The clock that a write read for its condition `e`. */
  function ClockOf(w: Write, e: Entry): int
    requires WellFormed(w) && Says(w, e)
  {
    var i :| 0 <= i < |w.clocks| && Entries(w.outcome)[i] == e;
    UniquePosition(w, e);
    w.clocks[i]
  }

  lemma UniquePosition(w: Write, e: Entry)
    requires WellFormed(w)
    ensures forall i, j | 0 <= i < |w.clocks| && 0 <= j < |w.clocks| ::
      Entries(w.outcome)[i] == e && Entries(w.outcome)[j] == e ==> i == j
  {
  }

  predicate OnlyAt(previous: seq<Condition>, e: Entry, i: int) {
    forall j :: 0 <= j < |previous| ==> (previous[j].entry == e <==> j == i)
  }

  /** The stored time of a claim: that of the matching condition, or now. */
  lemma SinceIsOfMatch(e: Entry, previous: seq<Condition>, now: int)
    ensures (forall i :: 0 <= i < |previous| ==> previous[i].entry != e) ==> Since(e, previous, now) == now
    ensures forall i :: 0 <= i < |previous| && OnlyAt(previous, e, i) ==> Since(e, previous, now) == previous[i].since
  {
    if previous != [] && previous[0].entry != e {
      SinceIsOfMatch(e, previous[1..], now);
      forall i | 0 <= i < |previous| && OnlyAt(previous, e, i)
        ensures Since(e, previous, now) == previous[i].since
      {
        assert previous[1..][i - 1] == previous[i];
        assert OnlyAt(previous[1..], e, i - 1);
      }
    }
  }

  /** What a write stores says each of its claims at one place. */
  lemma WrittenOnce(w: Write, previous: seq<Condition>, i: int)
    requires WellFormed(w) && 0 <= i < |w.clocks|
    ensures OnlyAt(Conditions(w, previous), Entries(w.outcome)[i], i)
  {
    UniquePosition(w, Entries(w.outcome)[i]);
  }

  lemma StretchBegins(ws: seq<Write>, e: Entry, i: int)
    requires AllWellFormed(ws) && ws != [] && 0 <= i < |After(ws)| && After(ws)[i].entry == e
    requires |ws| > 1 ==> !Says(ws[|ws| - 2], e)
    ensures After(ws)[i].since == ws[|ws| - 1].clocks[i]
  {
    var before := ws[..|ws| - 1];
    SinceIsOfMatch(e, After(before), ws[|ws| - 1].clocks[i]);
    if before != [] {
      assert before[|before| - 1] == ws[|ws| - 2];
      SaysNothingElse(ws[|ws| - 2], After(before[..|before| - 1]), e);
    }
  }

  lemma StretchGoesOn(ws: seq<Write>, e: Entry, i: int) returns (j: int)
    requires AllWellFormed(ws) && |ws| > 1 && 0 <= i < |After(ws)| && After(ws)[i].entry == e
    requires Says(ws[|ws| - 2], e)
    ensures var before := ws[..|ws| - 1];
      0 <= j < |After(before)| && After(before)[j].entry == e && After(ws)[i].since == After(before)[j].since
  {
    var before, w := ws[..|ws| - 1], ws[|ws| - 2];
    assert before[|before| - 1] == w;
    j :| 0 <= j < |Entries(w.outcome)| && Entries(w.outcome)[j] == e;
    WrittenOnce(w, After(before[..|before| - 1]), j);
    SinceIsOfMatch(e, After(before), ws[|ws| - 1].clocks[i]);
  }

  lemma {:induction false} TimeIsStartOfStretch(ws: seq<Write>, e: Entry, k: int, i: int)
    requires AllWellFormed(ws) && StretchStarts(ws, e, k)
    requires 0 <= i < |After(ws)| && After(ws)[i].entry == e
    ensures After(ws)[i].since == ClockOf(ws[k], e)
    decreases |ws|
  {
    if k == |ws| - 1 {
      StretchBegins(ws, e, i);
      UniquePosition(ws[k], e);
    } else {
      var j := StretchGoesOn(ws, e, i);
      TimeIsStartOfStretch(ws[..|ws| - 1], e, k, j);
    }
  }

  lemma SaysNothingElse(w: Write, previous: seq<Condition>, e: Entry)
    requires WellFormed(w) && !Says(w, e)
    ensures forall j :: 0 <= j < |Conditions(w, previous)| ==> Conditions(w, previous)[j].entry != e
  {
  }

  lemma {:induction false} StretchExists(ws: seq<Write>, e: Entry) returns (k: int)
    requires ws != [] && Says(ws[|ws| - 1], e)
    ensures StretchStarts(ws, e, k)
  {
    k := |ws| - 1;
    while k > 0 && Says(ws[k - 1], e)
      invariant 0 <= k < |ws|
      invariant forall j :: k <= j < |ws| ==> Says(ws[j], e)
    {
      k := k - 1;
    }
  }

  lemma StoredIsSaid(ws: seq<Write>, i: int)
    requires AllWellFormed(ws) && 0 <= i < |After(ws)|
    ensures ws != [] && Says(ws[|ws| - 1], After(ws)[i].entry)
  {
  }

  /** In every history, each stored condition has an unbroken stretch of writes that say the same and
      reach to the last one, and its time is the clock read at the start of that stretch. */
  lemma EveryTimeIsAStart(ws: seq<Write>, i: int) returns (k: int)
    requires AllWellFormed(ws) && 0 <= i < |After(ws)|
    ensures StartedAt(ws, After(ws)[i], k)
  {
    StoredIsSaid(ws, i);
    k := StretchExists(ws, After(ws)[i].entry);
    TimeIsStartOfStretch(ws, After(ws)[i].entry, k, i);
  }

  lemma AllTimesAreStarts(ws: seq<Write>, stored: seq<Condition>)
    requires AllWellFormed(ws) && stored == After(ws)
    ensures forall i :: 0 <= i < |stored| ==> Timed(ws, stored[i])
  {
    forall i | 0 <= i < |stored| ensures Timed(ws, stored[i]) {
      var k := EveryTimeIsAStart(ws, i);
    }
  }

  lemma AfterGrows(ws: seq<Write>, w: Write)
    requires AllWellFormed(ws) && WellFormed(w)
    ensures AllWellFormed(ws + [w]) && After(ws + [w]) == Conditions(w, After(ws))
  {
    assert (ws + [w])[..|ws|] == ws && (ws + [w])[|ws|] == w;
  }

  lemma ReadyComesFirst(o: Outcome)
    ensures |Entries(o)| > 0 && Entries(o)[0].kind == "Ready"
  {
  }

  /** `Ready` is the first condition of every outcome, so only a change of its own status, reason or
      message resets its time: an error that drops the component conditions does not. */
  lemma ReadyKeepsItsTime(ws: seq<Write>, v: Write, w: Write)
    requires AllWellFormed(ws) && WellFormed(v) && WellFormed(w)
    ensures AllWellFormed(ws + [v]) && AllWellFormed(ws + [v] + [w])
    ensures var before, after := After(ws + [v]), After(ws + [v] + [w]);
      && |before| > 0 && before[0].entry.kind == "Ready"
      && |after| > 0 && after[0].entry.kind == "Ready"
      && after[0].since == if after[0].entry == before[0].entry then before[0].since else w.clocks[0]
  {
    AfterGrows(ws, v);
    AfterGrows(ws + [v], w);
    ReadyComesFirst(v.outcome);
    ReadyComesFirst(w.outcome);
    ReadyCarriesOver(v, After(ws), w);
  }

  lemma ReadyCarriesOver(v: Write, previous: seq<Condition>, w: Write)
    requires WellFormed(v) && WellFormed(w)
    requires |Entries(v.outcome)| > 0 && Entries(v.outcome)[0].kind == "Ready"
    requires |Entries(w.outcome)| > 0 && Entries(w.outcome)[0].kind == "Ready"
    ensures var before, ready := Conditions(v, previous), Entries(w.outcome)[0];
      Since(ready, before, w.clocks[0]) == if ready == before[0].entry then before[0].since else w.clocks[0]
  {
    var before, ready := Conditions(v, previous), Entries(w.outcome)[0];
    SinceIsOfMatch(ready, before, w.clocks[0]);
    if ready == before[0].entry {
      WrittenOnce(v, previous, 0);
    } else {
      forall j | 0 <= j < |before| ensures before[j].entry != ready {
        assert before[j].entry == Entries(v.outcome)[j];
      }
    }
  }

  /** A component condition does restart after an error, even when it says what it said before. */
  lemma ErrorsRestartComponents(ws: seq<Write>, error: Write, w: Write, i: int)
    requires AllWellFormed(ws) && WellFormed(error) && WellFormed(w)
    requires !error.outcome.Succeeded? && !error.outcome.WaitingForLoadBalancer?
    requires 0 < i < |Entries(w.outcome)|
    ensures AllWellFormed(ws + [error]) && AllWellFormed(ws + [error] + [w])
    ensures i < |After(ws + [error] + [w])| && After(ws + [error] + [w])[i].since == w.clocks[i]
  {
    AfterGrows(ws, error);
    AfterGrows(ws + [error], w);
    ErrorSaysReadyAlone(error, After(ws), w, i);
    SinceIsOfMatch(Entries(w.outcome)[i], After(ws + [error]), w.clocks[i]);
  }

  lemma ErrorSaysReadyAlone(error: Write, previous: seq<Condition>, w: Write, i: int)
    requires WellFormed(error) && WellFormed(w) && !error.outcome.Succeeded? && !error.outcome.WaitingForLoadBalancer?
    requires 0 < i < |Entries(w.outcome)|
    ensures forall j :: 0 <= j < |Conditions(error, previous)| ==>
      Conditions(error, previous)[j].entry != Entries(w.outcome)[i]
  {
    ReadyComesFirst(error.outcome);
    ReadyComesFirst(w.outcome);
    assert Entries(w.outcome)[i].kind != Entries(w.outcome)[0].kind;
  }
}
