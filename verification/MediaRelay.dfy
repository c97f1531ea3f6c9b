/** One reconcile of a MediaRelay, as the sequence of cluster calls it makes. */
module MediaRelay {
  import opened Common
  import opened MediaRange

  datatype Mode = ServiceMode | HostNetwork

  datatype ServiceType = ClusterIP | LoadBalancer | NodePort

  datatype Spec = Spec(
    replicas: int, start: int, end: int, mode: Mode, serviceType: ServiceType,
    externalAddress: Option<string>, overrides: map<int, string>)

  /** What the resource model has checked. */
  predicate ValidSpec(s: Spec) {
    && 1 <= s.replicas <= 32 && 1 <= s.start <= s.end <= 65535
    && s.end - s.start + 1 <= 2000
    && s.end - s.start + 1 >= s.replicas
    && (forall i :: i in s.overrides ==> 0 <= i < s.replicas)
    && s.serviceType != NodePort
  }

  // ---- addresses ----

  datatype MediaAddress = Literal(value: string) | ClusterDns(replica: int)

  datatype Source = ReplicaOverride | ComponentOverride | NetworkProfile | FromService | FromClusterIP | Unresolved

  /** The first non-empty of the four, with where it came from. */
  function ResolveExternal(replica: Option<string>, component: Option<string>, profile: Option<string>,
                           service: Option<string>): (Option<string>, Source)
  {
    if Truthy(replica) then (replica, ReplicaOverride)
    else if Truthy(component) then (component, ComponentOverride)
    else if Truthy(profile) then (profile, NetworkProfile)
    else if Truthy(service) then (service, FromService)
    else (None, Unresolved)
  }

  function Override(s: Spec, i: int): Option<string> {
    if i in s.overrides then Some(s.overrides[i]) else None
  }

  // ---- the calls ----

  datatype Action =
    | ApplyService(replica: int, ports: seq<int>)
    | ReadIngress(replica: int)
    | ApplyDeployment(replica: int, address: MediaAddress, bounds: Piece)

  datatype RelayStatus = RelayStatus(replica: int, address: MediaAddress, source: Source, media: Piece)

  datatype Outcome =
    | Reported(relays: seq<RelayStatus>)
    | WaitingForLoadBalancer(replica: int)
    | AddressUnavailable(replica: int)
    | ApiFailure

  function Ports(p: Piece): seq<int>
    decreases p.1 - p.0 + 1
  {
    if p.0 > p.1 then [] else Ports((p.0, p.1 - 1)) + [p.1]
  }

  /** The cluster: which call fails, if any, and what ingress each Service has when it is read. */
  class Cluster {
    const fails: nat -> bool
    const ingress: int -> Option<string>
    var calls: seq<Action>

    constructor (fails: nat -> bool, ingress: int -> Option<string>)
      ensures calls == [] && this.fails == fails && this.ingress == ingress
    {
      this.fails, this.ingress, calls := fails, ingress, [];
    }

    method Call(a: Action) returns (ok: bool)
      modifies this
      ensures ok == !fails(|old(calls)|)
      ensures calls == if ok then old(calls) + [a] else old(calls)
    {
      if fails(|calls|) { return false; }
      calls := calls + [a];
      return true;
    }

    /** Applies one Service per replica, asks every replica for its address, and only then applies
        Services and Deployments. */
    method ReconcileMediaRelay(s: Spec, profile: Option<string>) returns (outcome: Outcome)
      requires ValidSpec(s) && calls == []
      modifies this
      ensures outcome != ApiFailure ==> calls == Script(s, profile, ingress) && outcome == Verdict(s, profile, ingress)
      ensures outcome == ApiFailure ==> calls < Script(s, profile, ingress) && fails(|calls|)
    {
      var ranges := PartitionRange(s.start, s.end, s.replicas);
      ghost var done: int;
      var ok: bool;
      ok, done := ApplyServices(s, ranges);
      if !ok {
        ServicesExtend(s, profile, ingress, done);
        return ApiFailure;
      }
      outcome, done := ReadAddresses(s, profile, ranges);
      match outcome {
        case ApiFailure => ReadsExtend(s, profile, ingress, done);
        case Reported(relays) =>
          WhenAllResolve(s, profile, ingress);
          ok, done := ApplyWorkloads(s, profile, ranges, relays);
          if !ok {
            WorkloadsExtend(s, profile, ingress, done);
            return ApiFailure;
          }
        case WaitingForLoadBalancer(_) => WhenOneWaits(s, profile, ingress, done);
        case AddressUnavailable(_) => WhenOneWaits(s, profile, ingress, done);
      }
    }

    method ApplyServices(s: Spec, ranges: seq<Piece>) returns (ok: bool, ghost done: int)
      requires ValidSpec(s) && calls == [] && |ranges| == s.replicas
      requires forall i :: 0 <= i < s.replicas ==> ranges[i] == PieceFor(s, i)
      modifies this
      ensures calls == Services(s, done) && 0 <= done <= s.replicas
      ensures if ok then done == s.replicas else done < s.replicas && fails(|calls|)
    {
      for index := 0 to s.replicas
        invariant calls == Services(s, index)
      {
        done := index;
        PiecesAreFair(s.start, s.end, s.replicas, index, index);
        var ports := RtpPorts(ranges[index]);
        ok := Call(ApplyService(index, ports));
        if !ok { return; }
      }
      ok, done := true, s.replicas;
    }

    /** Resolves replica after replica and stops at the first without an address. */
    method ReadAddresses(s: Spec, profile: Option<string>, ranges: seq<Piece>)
      returns (outcome: Outcome, ghost done: int)
      requires ValidSpec(s) && |ranges| == s.replicas
      requires forall i :: 0 <= i < s.replicas ==> ranges[i] == PieceFor(s, i)
      modifies this
      ensures 0 <= done <= s.replicas && forall i :: 0 <= i < done ==> Resolve(s, profile, ingress, i).0.Some?
      ensures match outcome
        case ApiFailure => done < s.replicas && calls == old(calls) + Reads(done) && fails(|calls|)
        case Reported(relays) =>
          done == s.replicas && calls == old(calls) + Reads(done) && relays == Relays(s, profile, ingress, done)
        case _ =>
          && done < s.replicas && calls == old(calls) + Reads(done + 1) && Resolve(s, profile, ingress, done).0.None?
          && outcome == if s.serviceType == LoadBalancer then WaitingForLoadBalancer(done) else AddressUnavailable(done)
    {
      var relays: seq<RelayStatus> := [];
      for index := 0 to s.replicas
        invariant forall i :: 0 <= i < index ==> Resolve(s, profile, ingress, i).0.Some?
        invariant calls == old(calls) + Reads(index)
        invariant |relays| == index && forall i :: 0 <= i < index ==> relays[i] == RelayFor(s, profile, ingress, i)
      {
        done := index;
        var ok, relay := ReadReplica(s, profile, index, ranges[index]);
        if !ok { return ApiFailure, index; }
        OneMoreRead(old(calls), index);
        if relay.None? {
          outcome := if s.serviceType == LoadBalancer then WaitingForLoadBalancer(index) else AddressUnavailable(index);
          return;
        }
        relays := relays + [relay.value];
      }
      RelaysAre(s, profile, ingress, s.replicas, relays);
      return Reported(relays), s.replicas;
    }

    method ReadReplica(s: Spec, profile: Option<string>, index: int, range: Piece)
      returns (ok: bool, relay: Option<RelayStatus>)
      requires ValidSpec(s) && 0 <= index < s.replicas && range == PieceFor(s, index)
      modifies this
      ensures ok ==> calls == old(calls) + [ReadIngress(index)]
      ensures ok ==> (relay.Some? <==> Resolve(s, profile, ingress, index).0.Some?)
      ensures ok && relay.Some? ==> relay.value == RelayFor(s, profile, ingress, index)
      ensures !ok ==> calls == old(calls) && fails(|calls|)
    {
      ok := Call(ReadIngress(index));
      var found := ResolveExternal(Override(s, index), s.externalAddress, profile, ingress(index));
      var address, source := if found.0.Some? then Some(Literal(found.0.value)) else None, found.1;
      if address.None? && s.mode == ServiceMode && s.serviceType == ClusterIP {
        address, source := Some(ClusterDns(index)), FromClusterIP;
      }
      relay := if address.Some? then Some(RelayStatus(index, address.value, source, range)) else None;
    }

    method ApplyWorkloads(s: Spec, profile: Option<string>, ranges: seq<Piece>, relays: seq<RelayStatus>)
      returns (ok: bool, ghost done: int)
      requires ValidSpec(s) && AllResolve(s, profile, ingress) && |ranges| == s.replicas
      requires forall i :: 0 <= i < s.replicas ==> ranges[i] == PieceFor(s, i)
      requires relays == Relays(s, profile, ingress, s.replicas)
      modifies this
      ensures ok ==> calls == old(calls) + Workloads(s, profile, ingress, s.replicas)
      ensures !ok ==>
        && 0 <= done < s.replicas && fails(|calls|)
        && (|| calls == old(calls) + Workloads(s, profile, ingress, done)
            || calls == old(calls) + Workloads(s, profile, ingress, done)
                        + [ApplyService(done, Ports(PieceFor(s, done)))])
    {
      for index := 0 to s.replicas
        invariant calls == old(calls) + Workloads(s, profile, ingress, index)
      {
        done := index;
        ok := ApplyWorkload(s, index, ranges[index], relays[index].address);
        if !ok { return; }
        OneMoreWorkload(old(calls), s, profile, ingress, index);
      }
      ok, done := true, s.replicas;
    }

    method ApplyWorkload(s: Spec, index: int, range: Piece, address: MediaAddress) returns (ok: bool)
      requires ValidSpec(s) && 0 <= index < s.replicas && range == PieceFor(s, index)
      modifies this
      ensures ok ==> calls == old(calls) + [ApplyService(index, Ports(range)), ApplyDeployment(index, address, range)]
      ensures !ok ==>
        fails(|calls|) && (calls == old(calls) || calls == old(calls) + [ApplyService(index, Ports(range))])
    {
      PiecesAreFair(s.start, s.end, s.replicas, index, index);
      var ports := RtpPorts(range);
      ok := Call(ApplyService(index, ports));
      if ok {
        ok := Call(ApplyDeployment(index, address, range));
      }
    }
  }

  /** The ports of one Service, one entry per port. */
  method RtpPorts(piece: Piece) returns (ports: seq<int>)
    requires piece.0 <= piece.1 + 1
    ensures ports == Ports(piece)
    ensures |ports| == piece.1 - piece.0 + 1 && forall j :: 0 <= j < |ports| ==> ports[j] == piece.0 + j
  {
    PortsCountUp(piece);
    ports := [];
    for port := piece.0 to piece.1 + 1
      invariant ports == Ports((piece.0, port - 1))
    {
      ports := ports + [port];
    }
  }

  // ---- what the calls should be ----

  /** The address of a replica and its source, or none. */
  function Resolve(s: Spec, profile: Option<string>, ingress: int -> Option<string>, i: int):
    (Option<MediaAddress>, Source)
  {
    var found := ResolveExternal(Override(s, i), s.externalAddress, profile, ingress(i));
    if found.0.Some? then (Some(Literal(found.0.value)), found.1)
    else if s.mode == ServiceMode && s.serviceType == ClusterIP then (Some(ClusterDns(i)), FromClusterIP)
    else (None, Unresolved)
  }

  function PieceFor(s: Spec, i: int): Piece
    requires s.replicas >= 1
  {
    PieceOf(s.start, s.end, s.replicas, i)
  }

  function Services(s: Spec, n: int): seq<Action>
    requires s.replicas >= 1
    decreases n
  {
    if n <= 0 then [] else Services(s, n - 1) + [ApplyService(n - 1, Ports(PieceFor(s, n - 1)))]
  }

  function Reads(n: int): seq<Action>
    decreases n
  {
    if n <= 0 then [] else Reads(n - 1) + [ReadIngress(n - 1)]
  }

  function RelayFor(s: Spec, profile: Option<string>, ingress: int -> Option<string>, i: int): RelayStatus
    requires s.replicas >= 1 && Resolve(s, profile, ingress, i).0.Some?
  {
    var found := Resolve(s, profile, ingress, i);
    RelayStatus(i, found.0.value, found.1, PieceFor(s, i))
  }

  /** The reported status of the first `n` replicas. */
  function Relays(s: Spec, profile: Option<string>, ingress: int -> Option<string>, n: int): seq<RelayStatus>
    requires s.replicas >= 1 && n >= 0
    requires forall i :: 0 <= i < n ==> Resolve(s, profile, ingress, i).0.Some?
  {
    seq(n, i requires 0 <= i < n => RelayFor(s, profile, ingress, i))
  }

  lemma RelaysAre(s: Spec, profile: Option<string>, ingress: int -> Option<string>, n: int, relays: seq<RelayStatus>)
    requires s.replicas >= 1 && |relays| == n
    requires forall i :: 0 <= i < n ==> Resolve(s, profile, ingress, i).0.Some?
    requires forall i :: 0 <= i < n ==> relays[i] == RelayFor(s, profile, ingress, i)
    ensures relays == Relays(s, profile, ingress, n)
  {
  }

  function Workloads(s: Spec, profile: Option<string>, ingress: int -> Option<string>, n: int): seq<Action>
    requires s.replicas >= 1
    requires forall i :: 0 <= i < n ==> Resolve(s, profile, ingress, i).0.Some?
    decreases n
  {
    if n <= 0 then []
    else
      Workloads(s, profile, ingress, n - 1)
      + [ApplyService(n - 1, Ports(PieceFor(s, n - 1))),
         ApplyDeployment(n - 1, Resolve(s, profile, ingress, n - 1).0.value, PieceFor(s, n - 1))]
  }

  /** The first replica from `i` on that has no address; the number of replicas if all have one. */
  function FirstUnresolved(s: Spec, profile: Option<string>, ingress: int -> Option<string>, i: int): (k: int)
    requires 0 <= i <= s.replicas
    ensures i <= k <= s.replicas
    ensures forall j :: i <= j < k ==> Resolve(s, profile, ingress, j).0.Some?
    ensures k < s.replicas ==> Resolve(s, profile, ingress, k).0.None?
    decreases s.replicas - i
  {
    if i == s.replicas || Resolve(s, profile, ingress, i).0.None? then i
    else FirstUnresolved(s, profile, ingress, i + 1)
  }

  /** All the calls of a run in which no call fails. */
  function Script(s: Spec, profile: Option<string>, ingress: int -> Option<string>): seq<Action>
    requires ValidSpec(s)
  {
    var k := FirstUnresolved(s, profile, ingress, 0);
    if k < s.replicas then Services(s, s.replicas) + Reads(k + 1)
    else Services(s, s.replicas) + Reads(s.replicas) + Workloads(s, profile, ingress, s.replicas)
  }

  function Verdict(s: Spec, profile: Option<string>, ingress: int -> Option<string>): Outcome
    requires ValidSpec(s)
  {
    var k := FirstUnresolved(s, profile, ingress, 0);
    if k == s.replicas then Reported(Relays(s, profile, ingress, s.replicas))
    else if s.serviceType == LoadBalancer then WaitingForLoadBalancer(k)
    else AddressUnavailable(k)
  }

  lemma WorkloadsGrow(s: Spec, profile: Option<string>, ingress: int -> Option<string>, n: int)
    requires s.replicas >= 1 && n >= 0
    requires forall i :: 0 <= i <= n ==> Resolve(s, profile, ingress, i).0.Some?
    ensures Workloads(s, profile, ingress, n + 1)
         == Workloads(s, profile, ingress, n)
          + [ApplyService(n, Ports(PieceFor(s, n))),
             ApplyDeployment(n, Resolve(s, profile, ingress, n).0.value, PieceFor(s, n))]
  {
  }

  lemma Associates<T>(a: seq<T>, b: seq<T>, c: seq<T>)
    ensures a + b + c == a + (b + c)
  {
  }

  lemma OneMoreWorkload(head: seq<Action>, s: Spec, profile: Option<string>, ingress: int -> Option<string>, n: int)
    requires s.replicas >= 1 && n >= 0
    requires forall i :: 0 <= i <= n ==> Resolve(s, profile, ingress, i).0.Some?
    ensures head + Workloads(s, profile, ingress, n)
          + [ApplyService(n, Ports(PieceFor(s, n))),
             ApplyDeployment(n, Resolve(s, profile, ingress, n).0.value, PieceFor(s, n))]
         == head + Workloads(s, profile, ingress, n + 1)
  {
    WorkloadsGrow(s, profile, ingress, n);
    Associates(head, Workloads(s, profile, ingress, n),
               [ApplyService(n, Ports(PieceFor(s, n))),
                ApplyDeployment(n, Resolve(s, profile, ingress, n).0.value, PieceFor(s, n))]);
  }

  lemma OneMoreRead(head: seq<Action>, n: int)
    requires n >= 0
    ensures head + Reads(n) + [ReadIngress(n)] == head + Reads(n + 1)
  {
  }

  // ---- prefixes ----

  lemma {:induction false} ServicesArePrefix(s: Spec, n: int, m: int)
    requires s.replicas >= 1 && 0 <= n <= m
    ensures Services(s, n) <= Services(s, m)
    ensures n < m ==> Services(s, n) + [ApplyService(n, Ports(PieceFor(s, n)))] <= Services(s, m)
    decreases m - n
  {
    if n < m {
      ServicesArePrefix(s, n, m - 1);
    }
  }

  lemma {:induction false} ReadsArePrefix(n: int, m: int)
    requires 0 <= n <= m
    ensures Reads(n) <= Reads(m)
    decreases m - n
  {
    if n < m {
      ReadsArePrefix(n, m - 1);
    }
  }

  lemma {:induction false} WorkloadsArePrefix(s: Spec, profile: Option<string>, ingress: int -> Option<string>,
                                              n: int, m: int)
    requires s.replicas >= 1 && 0 <= n <= m
    requires forall i :: 0 <= i < m ==> Resolve(s, profile, ingress, i).0.Some?
    ensures Workloads(s, profile, ingress, n) <= Workloads(s, profile, ingress, m)
    decreases m - n
  {
    if n < m {
      WorkloadsArePrefix(s, profile, ingress, n, m - 1);
    }
  }

  lemma ServicesExtend(s: Spec, profile: Option<string>, ingress: int -> Option<string>, n: int)
    requires ValidSpec(s) && 0 <= n < s.replicas
    ensures Services(s, n) < Script(s, profile, ingress)
  {
    ServicesArePrefix(s, n, s.replicas);
  }

  lemma UnderHead<T>(head: seq<T>, a: seq<T>, b: seq<T>)
    requires a <= b
    ensures head + a <= head + b
    ensures a < b ==> head + a < head + b
  {
  }

  lemma ReadsExtend(s: Spec, profile: Option<string>, ingress: int -> Option<string>, n: int)
    requires ValidSpec(s) && 0 <= n < s.replicas
    requires forall i :: 0 <= i < n ==> Resolve(s, profile, ingress, i).0.Some?
    ensures Services(s, s.replicas) + Reads(n) < Script(s, profile, ingress)
  {
    var k := FirstUnresolved(s, profile, ingress, 0);
    var m := if k < s.replicas then k + 1 else s.replicas;
    assert n < m;
    ReadsArePrefix(n, m);
    ReadsAt(n);
    ReadsAt(m);
    UnderHead(Services(s, s.replicas), Reads(n), Reads(m));
  }

  lemma FirstUnresolvedIs(s: Spec, profile: Option<string>, ingress: int -> Option<string>, i: int, k: int)
    requires 0 <= i <= k < s.replicas
    requires forall j :: i <= j < k ==> Resolve(s, profile, ingress, j).0.Some?
    requires Resolve(s, profile, ingress, k).0.None?
    ensures FirstUnresolved(s, profile, ingress, i) == k
  {
  }

  lemma NoneUnresolved(s: Spec, profile: Option<string>, ingress: int -> Option<string>, i: int)
    requires 0 <= i <= s.replicas
    requires forall j :: i <= j < s.replicas ==> Resolve(s, profile, ingress, j).0.Some?
    ensures FirstUnresolved(s, profile, ingress, i) == s.replicas
  {
  }

  lemma WhenAllResolve(s: Spec, profile: Option<string>, ingress: int -> Option<string>)
    requires ValidSpec(s) && AllResolve(s, profile, ingress)
    ensures Script(s, profile, ingress)
         == Services(s, s.replicas) + Reads(s.replicas) + Workloads(s, profile, ingress, s.replicas)
    ensures Verdict(s, profile, ingress) == Reported(Relays(s, profile, ingress, s.replicas))
  {
    NoneUnresolved(s, profile, ingress, 0);
  }

  lemma WhenOneWaits(s: Spec, profile: Option<string>, ingress: int -> Option<string>, k: int)
    requires ValidSpec(s) && 0 <= k < s.replicas && Resolve(s, profile, ingress, k).0.None?
    requires forall j :: 0 <= j < k ==> Resolve(s, profile, ingress, j).0.Some?
    ensures Script(s, profile, ingress) == Services(s, s.replicas) + Reads(k + 1)
    ensures Verdict(s, profile, ingress)
         == if s.serviceType == LoadBalancer then WaitingForLoadBalancer(k) else AddressUnavailable(k)
  {
    FirstUnresolvedIs(s, profile, ingress, 0, k);
  }

  /** The workloads before replica `n`, and its Service after them, are proper prefixes of the script. */
  lemma WorkloadsExtend(s: Spec, profile: Option<string>, ingress: int -> Option<string>, n: int)
    requires ValidSpec(s) && 0 <= n < s.replicas
    requires AllResolve(s, profile, ingress)
    ensures var done := Services(s, s.replicas) + Reads(s.replicas) + Workloads(s, profile, ingress, n);
      && done < Script(s, profile, ingress)
      && done + [ApplyService(n, Ports(PieceFor(s, n)))] < Script(s, profile, ingress)
  {
    var head, all := Services(s, s.replicas) + Reads(s.replicas), Workloads(s, profile, ingress, s.replicas);
    WhenAllResolve(s, profile, ingress);
    var pair := PairPrefix(s, profile, ingress, n);
    LongerTails(head, Workloads(s, profile, ingress, n), pair[0], pair[1], all);
  }

  lemma PairPrefix(s: Spec, profile: Option<string>, ingress: int -> Option<string>, n: int) returns (pair: seq<Action>)
    requires ValidSpec(s) && 0 <= n < s.replicas && AllResolve(s, profile, ingress)
    ensures |pair| == 2 && pair[0] == ApplyService(n, Ports(PieceFor(s, n)))
    ensures Workloads(s, profile, ingress, n) + [pair[0], pair[1]] <= Workloads(s, profile, ingress, s.replicas)
  {
    pair := [ApplyService(n, Ports(PieceFor(s, n))),
             ApplyDeployment(n, Resolve(s, profile, ingress, n).0.value, PieceFor(s, n))];
    WorkloadsGrow(s, profile, ingress, n);
    WorkloadsArePrefix(s, profile, ingress, n + 1, s.replicas);
  }

  lemma LongerTails<T>(head: seq<T>, done: seq<T>, a: T, b: T, all: seq<T>)
    requires done + [a, b] <= all
    ensures head + done < head + all && head + done + [a] < head + all
  {
    assert done < all && done + [a] < all;
  }

  // ---- what an operator may rely on ----

  ghost predicate AllResolve(s: Spec, profile: Option<string>, ingress: int -> Option<string>) {
    forall i :: 0 <= i < s.replicas ==> Resolve(s, profile, ingress, i).0.Some?
  }

  lemma {:induction false} ServicesAt(s: Spec, n: int)
    requires s.replicas >= 1 && n >= 0
    ensures |Services(s, n)| == n
    ensures forall i :: 0 <= i < n ==> Services(s, n)[i] == ApplyService(i, Ports(PieceFor(s, i)))
  {
    if n > 0 {
      ServicesAt(s, n - 1);
    }
  }

  lemma {:induction false} ReadsAt(n: int)
    requires n >= 0
    ensures |Reads(n)| == n
    ensures forall i :: 0 <= i < n ==> Reads(n)[i] == ReadIngress(i)
  {
    if n > 0 {
      ReadsAt(n - 1);
    }
  }

  lemma {:induction false} WorkloadsAt(s: Spec, profile: Option<string>, ingress: int -> Option<string>, n: int)
    requires s.replicas >= 1 && n >= 0
    requires forall i :: 0 <= i < n ==> Resolve(s, profile, ingress, i).0.Some?
    ensures |Workloads(s, profile, ingress, n)| == 2 * n
    ensures forall k :: 0 <= k < 2 * n ==>
      Workloads(s, profile, ingress, n)[k]
      == if k % 2 == 0 then ApplyService(k / 2, Ports(PieceFor(s, k / 2)))
         else ApplyDeployment(k / 2, Resolve(s, profile, ingress, k / 2).0.value, PieceFor(s, k / 2))
  {
    if n > 0 {
      WorkloadsAt(s, profile, ingress, n - 1);
    }
  }

  /** The Services come first, and list their replica's ports whenever they are applied; addresses are
      read after the last of them, in order; a Deployment appears only when every replica resolves,
      with its replica's address and ports. */
  ghost predicate Ordered(s: Spec, profile: Option<string>, ingress: int -> Option<string>, calls: seq<Action>, k: int)
    requires ValidSpec(s) && 0 <= k < |calls|
  {
    && (k < s.replicas ==> calls[k] == ApplyService(k, Ports(PieceFor(s, k))))
    && (calls[k].ApplyService? ==>
          0 <= calls[k].replica < s.replicas && calls[k].ports == Ports(PieceFor(s, calls[k].replica)))
    && (calls[k].ReadIngress? ==> k == s.replicas + calls[k].replica)
    && (s.replicas <= k < 2 * s.replicas ==> calls[k] == ReadIngress(k - s.replicas))
    && (2 * s.replicas <= k ==>
          && calls[k].replica == (k - 2 * s.replicas) / 2
          && (if (k - 2 * s.replicas) % 2 == 0 then calls[k].ApplyService? else calls[k].ApplyDeployment?))
    && (calls[k].ApplyDeployment? ==>
          && AllResolve(s, profile, ingress)
          && 0 <= calls[k].replica < s.replicas
          && k == 2 * s.replicas + 2 * calls[k].replica + 1
          && calls[k].address == Resolve(s, profile, ingress, calls[k].replica).0.value
          && calls[k].bounds == PieceFor(s, calls[k].replica))
  }

  lemma WaitingScriptIsOrdered(s: Spec, profile: Option<string>, ingress: int -> Option<string>, n: int, k: int)
    requires ValidSpec(s) && 0 <= n <= s.replicas && 0 <= k < |Services(s, s.replicas) + Reads(n)|
    ensures Ordered(s, profile, ingress, Services(s, s.replicas) + Reads(n), k)
  {
    ServicesAt(s, s.replicas);
    ReadsAt(n);
  }

  lemma ResolvedScriptIsOrdered(s: Spec, profile: Option<string>, ingress: int -> Option<string>, k: int)
    requires ValidSpec(s) && AllResolve(s, profile, ingress)
    ensures var calls := Services(s, s.replicas) + Reads(s.replicas) + Workloads(s, profile, ingress, s.replicas);
      0 <= k < |calls| ==> Ordered(s, profile, ingress, calls, k)
  {
    var head := Services(s, s.replicas) + Reads(s.replicas);
    ServicesAt(s, s.replicas);
    ReadsAt(s.replicas);
    if 0 <= k < |head| {
      WaitingScriptIsOrdered(s, profile, ingress, s.replicas, k);
    } else if |head| <= k < |head + Workloads(s, profile, ingress, s.replicas)| {
      WorkloadsAt(s, profile, ingress, s.replicas);
      InTail(head, Workloads(s, profile, ingress, s.replicas), k - |head|);
    }
  }

  /** In every run, failing or not, the calls are ordered: no address is asked for before the last
      Service is applied, and nothing is deployed unless every replica resolved. */
  lemma RunsAreOrdered(s: Spec, profile: Option<string>, ingress: int -> Option<string>, calls: seq<Action>)
    requires ValidSpec(s) && calls <= Script(s, profile, ingress)
    ensures forall k :: 0 <= k < |calls| ==> Ordered(s, profile, ingress, calls, k)
  {
    var at := FirstUnresolved(s, profile, ingress, 0);
    forall k | 0 <= k < |calls| ensures Ordered(s, profile, ingress, calls, k) {
      if at < s.replicas {
        WaitingScriptIsOrdered(s, profile, ingress, at + 1, k);
      } else {
        WhenAllResolve(s, profile, ingress);
        ResolvedScriptIsOrdered(s, profile, ingress, k);
      }
      assert calls[k] == Script(s, profile, ingress)[k];
    }
  }

  /** How far a run goes that no call cuts short: to the first replica without an address, or through
      one Service and one Deployment per replica. */
  lemma RunsStopAtTheFirstWithout(s: Spec, profile: Option<string>, ingress: int -> Option<string>)
    requires ValidSpec(s)
    ensures |Script(s, profile, ingress)| == match Verdict(s, profile, ingress)
      case WaitingForLoadBalancer(k) => s.replicas + k + 1
      case AddressUnavailable(k) => s.replicas + k + 1
      case _ => 4 * s.replicas
  {
    var k := FirstUnresolved(s, profile, ingress, 0);
    ServicesAt(s, s.replicas);
    ReadsAt(k + 1);
    ReadsAt(s.replicas);
    if k == s.replicas {
      WorkloadsAt(s, profile, ingress, s.replicas);
    }
  }

  predicate Deploys(a: Action, i: int) { a.ApplyDeployment? && a.replica == i }

  /** A run that no call cuts short deploys exactly one workload per replica when every address
      resolves, and none at all otherwise. */
  lemma OneDeploymentPerReplica(s: Spec, profile: Option<string>, ingress: int -> Option<string>, i: int)
    requires ValidSpec(s) && 0 <= i < s.replicas
    ensures var script := Script(s, profile, ingress);
      (exists k :: 0 <= k < |script| && Deploys(script[k], i)) <==> AllResolve(s, profile, ingress)
    ensures var script := Script(s, profile, ingress);
      forall k, k' | 0 <= k < |script| && 0 <= k' < |script| ::
        Deploys(script[k], i) && Deploys(script[k'], i) ==> k == k'
  {
    var script := Script(s, profile, ingress);
    RunsAreOrdered(s, profile, ingress, script);
    forall k | 0 <= k < |script| && Deploys(script[k], i)
      ensures AllResolve(s, profile, ingress) && k == 2 * s.replicas + 2 * i + 1
    {
      assert Ordered(s, profile, ingress, script, k);
    }
    if AllResolve(s, profile, ingress) {
      DeploymentAt(s, profile, ingress, i);
    }
  }

  lemma DeploymentAt(s: Spec, profile: Option<string>, ingress: int -> Option<string>, i: int)
    requires ValidSpec(s) && 0 <= i < s.replicas && AllResolve(s, profile, ingress)
    ensures var script, k := Script(s, profile, ingress), 2 * s.replicas + 2 * i + 1;
      k < |script| && Deploys(script[k], i)
  {
    WhenAllResolve(s, profile, ingress);
    ServicesAt(s, s.replicas);
    ReadsAt(s.replicas);
    WorkloadsAt(s, profile, ingress, s.replicas);
    InTail(Services(s, s.replicas) + Reads(s.replicas), Workloads(s, profile, ingress, s.replicas), 2 * i + 1);
  }

  lemma InTail<T>(head: seq<T>, tail: seq<T>, j: int)
    requires 0 <= j < |tail|
    ensures (head + tail)[|head| + j] == tail[j]
  {
  }

  lemma {:induction false} PortsOfPiece(p: Piece, port: int)
    ensures port in Ports(p) <==> p.0 <= port <= p.1
    decreases p.1 - p.0 + 1
  {
    if p.0 <= p.1 {
      PortsOfPiece((p.0, p.1 - 1), port);
    }
  }

  /** The ports of a piece in order, each once. */
  lemma {:induction false} PortsCountUp(p: Piece)
    requires p.0 <= p.1 + 1
    ensures |Ports(p)| == p.1 - p.0 + 1
    ensures forall j :: 0 <= j < |Ports(p)| ==> Ports(p)[j] == p.0 + j
    decreases p.1 - p.0 + 1
  {
    if p.0 <= p.1 {
      PortsCountUp((p.0, p.1 - 1));
    }
  }

  /** A call concerns a port if it lists it in a Service or bounds a Deployment around it. */
  predicate Serves(a: Action, port: int) {
    match a
    case ApplyService(_, ports) => port in ports
    case ApplyDeployment(_, _, bounds) => bounds.0 <= port <= bounds.1
    case ReadIngress(_) => false
  }

  lemma OnlyOwnerServes(s: Spec, profile: Option<string>, ingress: int -> Option<string>, calls: seq<Action>, k: int,
                        owner: int, port: int)
    requires ValidSpec(s) && 0 <= k < |calls| && Ordered(s, profile, ingress, calls, k) && !calls[k].ReadIngress?
    requires Owns(s.start, s.end, s.replicas, owner, port)
    ensures Serves(calls[k], port) <==> calls[k].replica == owner
  {
    EveryPortHasOneOwner(s.start, s.end, s.replicas, port);
    var i := calls[k].replica;
    PortsOfPiece(PieceFor(s, i), port);
    assert Serves(calls[k], port) <==> Owns(s.start, s.end, s.replicas, i, port);
  }

  /** Each port of the range has one owner: in every run, failing or not, it is in the ports of exactly
      the owner's Services and in the bounds of exactly the owner's Deployment, and when the run
      reports its relays, in the owner's range alone. */
  lemma PortOwnersAgree(s: Spec, profile: Option<string>, ingress: int -> Option<string>, calls: seq<Action>, port: int)
    returns (owner: int)
    requires ValidSpec(s) && calls <= Script(s, profile, ingress) && s.start <= port <= s.end
    ensures 0 <= owner < s.replicas
    ensures forall k :: 0 <= k < |calls| && !calls[k].ReadIngress? ==>
      (Serves(calls[k], port) <==> calls[k].replica == owner)
    ensures match Verdict(s, profile, ingress)
      case Reported(relays) =>
        |relays| == s.replicas && forall i :: 0 <= i < s.replicas ==>
          relays[i].replica == i && (relays[i].media.0 <= port <= relays[i].media.1 <==> i == owner)
      case _ => true
  {
    EveryPortHasOneOwner(s.start, s.end, s.replicas, port);
    owner :| Owns(s.start, s.end, s.replicas, owner, port);
    RunsAreOrdered(s, profile, ingress, calls);
    forall k | 0 <= k < |calls| && !calls[k].ReadIngress?
      ensures Serves(calls[k], port) <==> calls[k].replica == owner
    {
      OnlyOwnerServes(s, profile, ingress, calls, k, owner, port);
    }
    forall i | 0 <= i < s.replicas && PieceFor(s, i).0 <= port <= PieceFor(s, i).1 ensures i == owner {
      assert Owns(s.start, s.end, s.replicas, i, port);
    }
  }

  predicate Filled(address: Option<string>) { address.Some? && address.value != "" }

  /** The documented order of addresses: a replica's override, then the component's, then the
      profile's, then the Service's; the cluster name only when all are missing. */
  lemma AddressOrder(s: Spec, profile: Option<string>, ingress: int -> Option<string>, i: int)
    ensures var candidates :=
        [if i in s.overrides then Some(s.overrides[i]) else None, s.externalAddress, profile, ingress(i)];
      var sources := [ReplicaOverride, ComponentOverride, NetworkProfile, FromService];
      && (forall k :: 0 <= k < 4 && Filled(candidates[k]) && (forall j :: 0 <= j < k ==> !Filled(candidates[j])) ==>
            Resolve(s, profile, ingress, i) == (Some(Literal(candidates[k].value)), sources[k]))
      && ((forall k :: 0 <= k < 4 ==> !Filled(candidates[k])) ==>
            Resolve(s, profile, ingress, i)
            == if s.mode == ServiceMode && s.serviceType == ClusterIP then (Some(ClusterDns(i)), FromClusterIP)
               else (None, Unresolved))
  {
    var candidates := [if i in s.overrides then Some(s.overrides[i]) else None, s.externalAddress, profile, ingress(i)];
    forall k | 0 <= k < 4 && Filled(candidates[k]) && (forall j :: 0 <= j < k ==> !Filled(candidates[j]))
      ensures Resolve(s, profile, ingress, i)
           == (Some(Literal(candidates[k].value)), [ReplicaOverride, ComponentOverride, NetworkProfile, FromService][k])
    {
      assert k > 0 ==> !Filled(candidates[0]);
      assert k > 1 ==> !Filled(candidates[1]);
      assert k > 2 ==> !Filled(candidates[2]);
    }
    if forall k :: 0 <= k < 4 ==> !Filled(candidates[k]) {
      assert !Filled(candidates[0]) && !Filled(candidates[1]) && !Filled(candidates[2]) && !Filled(candidates[3]);
    }
  }

  // ---- the addresses in the calls and in the report ----

  /** The replica has none of the four addresses, and the cluster name is not to be used. */
  predicate NoAddress(s: Spec, profile: Option<string>, ingress: int -> Option<string>, i: int) {
    && (i in s.overrides ==> s.overrides[i] == "")
    && !Filled(s.externalAddress) && !Filled(profile) && !Filled(ingress(i))
    && !(s.mode == ServiceMode && s.serviceType == ClusterIP)
  }

  /** The address and source that the order of addresses gives a replica. */
  predicate RightAddress(s: Spec, profile: Option<string>, ingress: int -> Option<string>, i: int,
                         address: MediaAddress, source: Source) {
    match source
    case ReplicaOverride => i in s.overrides && s.overrides[i] != "" && address == Literal(s.overrides[i])
    case ComponentOverride =>
      && (i in s.overrides ==> s.overrides[i] == "")
      && Filled(s.externalAddress) && address == Literal(s.externalAddress.value)
    case NetworkProfile =>
      && (i in s.overrides ==> s.overrides[i] == "") && !Filled(s.externalAddress)
      && Filled(profile) && address == Literal(profile.value)
    case FromService =>
      && (i in s.overrides ==> s.overrides[i] == "") && !Filled(s.externalAddress) && !Filled(profile)
      && Filled(ingress(i)) && address == Literal(ingress(i).value)
    case FromClusterIP =>
      && (i in s.overrides ==> s.overrides[i] == "") && !Filled(s.externalAddress) && !Filled(profile)
      && !Filled(ingress(i)) && s.mode == ServiceMode && s.serviceType == ClusterIP && address == ClusterDns(i)
    case Unresolved => false
  }

  lemma ResolvedAddressIsRight(s: Spec, profile: Option<string>, ingress: int -> Option<string>, i: int)
    ensures Resolve(s, profile, ingress, i).0.None? <==> NoAddress(s, profile, ingress, i)
    ensures Resolve(s, profile, ingress, i).0.Some? ==>
      RightAddress(s, profile, ingress, i, Resolve(s, profile, ingress, i).0.value, Resolve(s, profile, ingress, i).1)
  {
  }

  /** The first replica without an address. */
  ghost predicate FirstWithout(s: Spec, profile: Option<string>, ingress: int -> Option<string>, k: int) {
    && 0 <= k < s.replicas && NoAddress(s, profile, ingress, k)
    && forall j :: 0 <= j < k ==> !NoAddress(s, profile, ingress, j)
  }

  /** In every run, failing or not, each Deployment is given its own replica's address; a run that no
      call cuts short reports every replica with its address and where that came from, or names the
      first one without. */
  lemma AddressesReachTheCalls(s: Spec, profile: Option<string>, ingress: int -> Option<string>, calls: seq<Action>)
    requires ValidSpec(s) && calls <= Script(s, profile, ingress)
    ensures forall k :: 0 <= k < |calls| && calls[k].ApplyDeployment? ==>
      exists source :: RightAddress(s, profile, ingress, calls[k].replica, calls[k].address, source)
    ensures match Verdict(s, profile, ingress)
      case Reported(relays) =>
        && |relays| == s.replicas
        && forall i :: 0 <= i < s.replicas ==>
             relays[i].replica == i && RightAddress(s, profile, ingress, i, relays[i].address, relays[i].source)
      case WaitingForLoadBalancer(k) => FirstWithout(s, profile, ingress, k) && s.serviceType == LoadBalancer
      case AddressUnavailable(k) => FirstWithout(s, profile, ingress, k) && s.serviceType != LoadBalancer
      case ApiFailure => false
  {
    forall i ensures Resolve(s, profile, ingress, i).0.None? <==> NoAddress(s, profile, ingress, i) {
      ResolvedAddressIsRight(s, profile, ingress, i);
    }
    forall i | Resolve(s, profile, ingress, i).0.Some? ensures
      RightAddress(s, profile, ingress, i, Resolve(s, profile, ingress, i).0.value, Resolve(s, profile, ingress, i).1)
    {
      ResolvedAddressIsRight(s, profile, ingress, i);
    }
    RunsAreOrdered(s, profile, ingress, calls);
    forall k | 0 <= k < |calls| && calls[k].ApplyDeployment?
      ensures exists source :: RightAddress(s, profile, ingress, calls[k].replica, calls[k].address, source)
    {
      assert Ordered(s, profile, ingress, calls, k);
      assert RightAddress(s, profile, ingress, calls[k].replica, calls[k].address,
                          Resolve(s, profile, ingress, calls[k].replica).1);
    }
  }
}
