/** How the controllers turn a validated resource into the arguments of a database call. */
module Controllers {
  import opened Common
  import opened DialPlan
  import opened Refinement

  // ---- call routes ----

  datatype RouteTarget = RouteTarget(
    sipUser: Option<string>, asteriskPool: Option<string>, trunk: Option<string>, extension: Option<string>)

  datatype RouteSpec = RouteSpec(gateway: Name, scope: Name, priority: int, calledNumber: string, target: RouteTarget)

  /** What the models accept: a dialable pattern, exactly one kind of target, an extension for pools. */
  predicate ValidRoute(r: RouteSpec) {
    && r.calledNumber != "" && Dialable(r.calledNumber) && |r.calledNumber| <= 64
    && 0 <= r.priority <= 1_000_000
    && One(Truthy(r.target.sipUser)) + One(Truthy(r.target.asteriskPool)) + One(Truthy(r.target.trunk)) == 1
    && (Truthy(r.target.asteriskPool) ==> Truthy(r.target.extension))
  }

  function PoolHost(pool: string, namespace: string): string {
    pool + "-asterisk-pool." + namespace + ".svc.cluster.local"
  }

  /** Three tests in turn, each overwriting what the ones before it set. */
  method RouteArguments(r: RouteSpec, namespace: string, uid: string) returns (row: RouteRow)
    ensures row.gateway == r.gateway && row.scope == r.scope && row.priority == r.priority
    ensures row.calledNumber == r.calledNumber && row.uid == uid
    ensures ValidRoute(r) ==>
      && (row.kind == SIPUser <==> Truthy(r.target.sipUser))
      && (row.kind == AsteriskPool <==> Truthy(r.target.asteriskPool))
      && (row.kind == SIPTrunk <==> Truthy(r.target.trunk))
      && (row.kind != AsteriskPool ==> row.targetHost == row.targetExtension == None)
      && (row.kind == SIPUser ==> Some(row.targetRef) == r.target.sipUser)
      && (row.kind == SIPTrunk ==> Some(row.targetRef) == r.target.trunk)
      && (row.kind == AsteriskPool ==>
            && Some(row.targetRef) == r.target.asteriskPool && row.targetExtension == r.target.extension
            && row.targetHost == Some(row.targetRef + "-asterisk-pool." + namespace + ".svc.cluster.local")
            && row.targetExtension.Some? && row.targetExtension.value != "")
    ensures ValidRoute(r) ==> forall name :: Validated(OnRoute(Put(name, row)))
  {
    var kind, ref := Unset, "";
    var extension: Option<string>, host: Option<string> := None, None;
    if Truthy(r.target.sipUser) {
      kind, ref := SIPUser, r.target.sipUser.value;
    }
    if Truthy(r.target.asteriskPool) {
      kind, ref := AsteriskPool, r.target.asteriskPool.value;
      extension := r.target.extension;
      host := Some(PoolHost(r.target.asteriskPool.value, namespace));
    }
    if Truthy(r.target.trunk) {
      kind, ref := SIPTrunk, r.target.trunk.value;
    }
    row := RouteRow(r.gateway, r.scope, r.priority, r.calledNumber, kind, ref, extension, host, uid);
  }

  // ---- trunks ----

  datatype TrunkResource = TrunkResource(
    gateway: Name, terminationUri: string, sources: seq<Cidr>, dialPolicy: Option<Name>, digestRealm: Option<string>)

  /** Trusted source networks require an inbound dial policy. */
  predicate ValidTrunk(k: TrunkResource) {
    k.sources != [] ==> k.dialPolicy.Some?
  }

  /** `callerId` and `login` (user name and password) come from Secrets; without a login the trunk has
      no digest columns. */
  function TrunkArguments(md5: Md5, k: TrunkResource, uid: string, callerId: Option<string>,
                          login: Option<(string, string)>): (spec: TrunkSpec)
    requires login.Some? ==> k.digestRealm.Some?
    ensures ValidTrunk(k) ==> forall name :: Validated(OnTrunk(Put(name, spec)))
    ensures spec.sources == k.sources && spec.row.inboundPolicy == k.dialPolicy && spec.row.uid == uid
    ensures spec.row.gateway == k.gateway && spec.row.terminationUri == k.terminationUri
    ensures spec.row.outboundCallerId == callerId
    ensures match login
      case Some((username, password)) =>
        && spec.row.digestUsername == Some(username) && spec.row.digestRealm == k.digestRealm
        && spec.row.digestHa1 == Some(md5(username + ":" + k.digestRealm.value + ":" + password))
      case None => spec.row.digestUsername == spec.row.digestRealm == spec.row.digestHa1 == None
  {
    TrunkSpec(
      TrunkRow(k.gateway, k.terminationUri, k.dialPolicy, callerId,
               if login.Some? then Some(login.value.0) else None,
               if login.Some? then k.digestRealm else None,
               if login.Some? then Some(Ha1(md5, login.value.0, k.digestRealm.value, login.value.1)) else None, uid),
      k.sources)
  }

  // ---- mailboxes ----

  datatype MailboxResource = MailboxResource(
    sipUser: Name, pool: Name, mailbox: Option<string>, fallback: FallbackSpec,
    emailEnabled: bool, emailTo: Option<string>, emailFrom: Option<string>, emailProvider: string)

  datatype PoolResource = PoolResource(voicemail: bool, depositExtension: string, databaseSecret: Option<string>)

  datatype MailboxRequest = Invalid(reason: string) | Accepted(spec: MailboxSpec)

  predicate Digits(s: string) { s != "" && forall i :: 0 <= i < |s| ==> '0' <= s[i] <= '9' }

  predicate ValidMailbox(m: MailboxResource) {
    && (m.mailbox.Some? ==> Digits(m.mailbox.value))
    && 1 <= m.fallback.timeoutSeconds <= 120
    && (m.fallback.enabled ==> m.fallback.onBusy || m.fallback.onUnavailable || m.fallback.onNoAnswer)
  }

  /** The mailbox number defaults to the user's extension; the gateway is the user's; the pool must
      run voicemail on the gateway's database. */
  function MailboxArguments(m: MailboxResource, user: UserSpec, pool: PoolResource, gatewaySecret: string,
                            namespace: string, uid: string): (r: MailboxRequest)
    ensures r.Accepted? <==> pool.voicemail && pool.databaseSecret == Some(gatewaySecret)
    ensures r.Accepted? && ValidMailbox(m) && Digits(user.extension) ==>
      && (forall name :: Validated(OnMailbox(Put(name, r.spec))))
      && Digits(r.spec.mailbox)
      && r.spec.mailbox == (match m.mailbox case Some(number) => number case None => user.extension)
    ensures r.Accepted? ==>
      && r.spec.uid == uid && r.spec.gateway == user.domain && r.spec.sipUser == m.sipUser
      && r.spec.sipAuthUsername == user.username && r.spec.sipExtension == user.extension
      && r.spec.callerId == user.callerId && r.spec.fallback == m.fallback
      && r.spec.pool == m.pool && r.spec.targetExtension == pool.depositExtension
      && r.spec.targetHost == m.pool + "-asterisk-pool." + namespace + ".svc.cluster.local"
      && r.spec.emailEnabled == m.emailEnabled && r.spec.emailTo == m.emailTo && r.spec.emailFrom == m.emailFrom
      && r.spec.emailProvider == m.emailProvider
  {
    if !pool.voicemail then Invalid("pool does not enable voicemail")
    else if pool.databaseSecret != Some(gatewaySecret) then
      Invalid("gateway and pool must use the same database")
    else
      Accepted(MailboxSpec(uid, user.domain, m.sipUser, user.username, user.extension, m.pool,
                           PoolHost(m.pool, namespace), pool.depositExtension,
                           if Truthy(m.mailbox) then m.mailbox.value else user.extension,
                           user.callerId, m.fallback, m.emailEnabled, m.emailTo, m.emailFrom, m.emailProvider))
  }
}
