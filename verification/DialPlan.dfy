/** The runtime tables, the transactions the operator runs on them, and the plan they stand for.

    `Tables` holds the rows (one namespace, so the namespace column is dropped); `Apply` is the
    effect of one committed or rolled-back transaction. `Plan` is what an administrator thinks of:
    for each live resource, the arguments of its last committed reconcile, and who set up each login
    and each voicemail number last. */
module DialPlan {
  import opened Common

  /** A network, as PostgreSQL's canonical text for it, so that equal networks are equal strings. */
  type Cidr = string

  type Md5 = string -> string

  // ---- rows ----

  datatype OwnedRow = OwnedRow(gateway: Name, uid: string)

  datatype UserRow = UserRow(
    gateway: Name, extension: string, authUsername: string, callerId: Option<string>, policy: Name, uid: string)

  datatype SubscriberRow = SubscriberRow(
    password: string, ha1: string, ha1b: string, callerId: Option<string>, owner: Name)

  datatype TrunkRow = TrunkRow(
    gateway: Name, terminationUri: string, inboundPolicy: Option<Name>, outboundCallerId: Option<string>,
    digestUsername: Option<string>, digestRealm: Option<string>, digestHa1: Option<string>, uid: string)

  /** `Unset` is the empty string a route controller starts from. */
  datatype TargetKind = SIPUser | AsteriskPool | SIPTrunk | Unset

  datatype RouteRow = RouteRow(
    gateway: Name, scope: Name, priority: int, calledNumber: string, kind: TargetKind, targetRef: Name,
    targetExtension: Option<string>, targetHost: Option<string>, uid: string)

  datatype MailboxRow = MailboxRow(
    gateway: Name, sipUser: Name, sipAuthUsername: string, sipExtension: string, pool: Name,
    targetHost: string, targetExtension: string, mailbox: string,
    fallbackEnabled: int, timeoutSeconds: int, onBusy: int, onUnavailable: int, onNoAnswer: int,
    emailEnabled: int, emailTo: Option<string>, emailFrom: Option<string>, emailProvider: Option<string>,
    uid: string)

  /** A row of Asterisk's own `voicemail` table; its password is the caller's PIN. */
  datatype VoicemailRow = VoicemailRow(uniqueid: nat, password: string, fullname: string, email: Option<string>)

  datatype Tables = Tables(
    scopes: map<Name, OwnedRow>,
    policies: map<Name, OwnedRow>,
    policyScopes: map<(Name, Name), int>,
    users: map<Name, UserRow>,
    subscribers: map<(string, Name), SubscriberRow>,
    trunks: map<Name, TrunkRow>,
    cidrs: set<(Name, Cidr)>,
    routes: map<Name, RouteRow>,
    mailboxes: map<Name, MailboxRow>,
    voicemail: map<(string, string), VoicemailRow>,
    nextUniqueId: nat)

  const EMPTY_TABLES := Tables(map[], map[], map[], map[], map[], map[], {}, map[], map[], map[], 1)

  // ---- the arguments of a reconcile ----

  datatype PolicySpec = PolicySpec(uid: string, gateway: Name, scopes: seq<Name>)

  datatype UserSpec = UserSpec(
    uid: string, username: string, domain: Name, extension: string, policy: Name, password: string,
    callerId: Option<string>)

  datatype TrunkSpec = TrunkSpec(row: TrunkRow, sources: seq<Cidr>)

  datatype FallbackSpec = FallbackSpec(
    enabled: bool, timeoutSeconds: int, onBusy: bool, onUnavailable: bool, onNoAnswer: bool)

  datatype MailboxSpec = MailboxSpec(
    uid: string, gateway: Name, sipUser: Name, sipAuthUsername: string, sipExtension: string, pool: Name,
    targetHost: string, targetExtension: string, mailbox: string, callerId: Option<string>,
    fallback: FallbackSpec, emailEnabled: bool, emailTo: Option<string>, emailFrom: Option<string>,
    emailProvider: string)

  /** A reconcile (upsert) or a delete of one resource. */
  datatype Change<S> = Put(name: Name, spec: S) | Drop(name: Name)

  /** One database call of the operator. `ChangePin` is not the operator's: it is a caller changing
      the PIN through Asterisk, which writes the same row. */
  datatype Op =
    | OnScope(scope: Change<OwnedRow>)
    | OnPolicy(policy: Change<PolicySpec>)
    | OnUser(user: Change<UserSpec>)
    | OnTrunk(trunk: Change<TrunkSpec>)
    | OnRoute(route: Change<RouteRow>)
    | OnMailbox(box: Change<MailboxSpec>)
    | ChangePin(key: (string, string), pin: string)

  datatype Txn = Txn(tables: Tables, committed: bool)

  // ---- how arguments become rows ----

  function Ha1(md5: Md5, username: string, realm: string, password: string): string {
    md5(username + ":" + realm + ":" + password)
  }

  function Ha1b(md5: Md5, username: string, realm: string, password: string): string {
    md5(username + "@" + realm + ":" + realm + ":" + password)
  }

  function SubscriberOf(md5: Md5, name: Name, u: UserSpec): SubscriberRow {
    SubscriberRow("", Ha1(md5, u.username, u.domain, u.password), Ha1b(md5, u.username, u.domain, u.password),
                  u.callerId, name)
  }

  function UserOf(u: UserSpec): UserRow {
    UserRow(u.domain, u.extension, u.username, u.callerId, u.policy, u.uid)
  }

  function Int(flag: bool): int { if flag then 1 else 0 }

  function MailboxOf(m: MailboxSpec): MailboxRow {
    MailboxRow(m.gateway, m.sipUser, m.sipAuthUsername, m.sipExtension, m.pool, m.targetHost, m.targetExtension,
               m.mailbox, Int(m.fallback.enabled), m.fallback.timeoutSeconds, Int(m.fallback.onBusy),
               Int(m.fallback.onUnavailable), Int(m.fallback.onNoAnswer), Int(m.emailEnabled), m.emailTo,
               m.emailFrom, if m.emailEnabled then Some(m.emailProvider) else None, m.uid)
  }

  function FullName(m: MailboxSpec): string {
    if Truthy(m.callerId) then m.callerId.value else m.sipAuthUsername
  }

  function Email(m: MailboxSpec): Option<string> {
    if m.emailEnabled then m.emailTo else None
  }

  /** The `voicemail` row after an upsert that would number a new row `id`: an existing row keeps
      its number and its PIN. */
  function VoicemailOf(m: MailboxSpec, prior: Option<VoicemailRow>, id: nat): VoicemailRow {
    match prior
    case Some(row) => row.(fullname := FullName(m), email := Email(m))
    case None => VoicemailRow(id, m.mailbox, FullName(m), Email(m))
  }

  // ---- table operations ----

  function Lookup<K, V>(m: map<K, V>, k: K): Option<V> {
    if k in m then Some(m[k]) else None
  }

  lemma SameLookupsSameMap<K, V>(a: map<K, V>, b: map<K, V>)
    requires forall k :: Lookup(a, k) == Lookup(b, k)
    ensures a == b
  {
    forall k | k in a || k in b ensures k in a && k in b && a[k] == b[k] {
      assert Lookup(a, k) == Lookup(b, k);
    }
  }

  function Changed<S>(rows: map<Name, S>, c: Change<S>): map<Name, S> {
    match c
    case Put(n, spec) => rows[n := spec]
    case Drop(n) => rows - {n}
  }

  function PolicyRows(rows: map<Name, OwnedRow>, c: Change<PolicySpec>): map<Name, OwnedRow> {
    match c
    case Put(n, p) => rows[n := OwnedRow(p.gateway, p.uid)]
    case Drop(n) => rows - {n}
  }

  function WithoutPolicy(rows: map<(Name, Name), int>, policy: Name): map<(Name, Name), int> {
    map k | k in rows && k.0 != policy :: rows[k]
  }

  /** The scope rows of a policy: each listed scope with its position in the list. */
  function Positions(policy: Name, scopes: seq<Name>): map<(Name, Name), int> {
    if scopes == [] then map[]
    else
      var last := |scopes| - 1;
      Positions(policy, scopes[..last])[(policy, scopes[last]) := last]
  }

  lemma {:induction false} PositionsAt(policy: Name, scopes: seq<Name>)
    ensures forall k :: k in Positions(policy, scopes) <==> k.0 == policy && k.1 in scopes
    ensures Distinct(scopes) ==> forall i :: 0 <= i < |scopes| ==> Positions(policy, scopes)[(policy, scopes[i])] == i
  {
    if scopes != [] {
      var last := |scopes| - 1;
      PositionsAt(policy, scopes[..last]);
      assert scopes == scopes[..last] + [scopes[last]];
      if Distinct(scopes) {
        forall i | 0 <= i < last ensures Positions(policy, scopes)[(policy, scopes[i])] == i {
          assert scopes[..last][i] == scopes[i];
        }
      }
    }
  }

  function ScopeRows(rows: map<(Name, Name), int>, c: Change<PolicySpec>): map<(Name, Name), int> {
    match c
    case Put(n, p) => WithoutPolicy(rows, n) + Positions(n, p.scopes)
    case Drop(n) => WithoutPolicy(rows, n)
  }

  /** Two rows of `kubevoip_sip_user` that its unique constraints do not allow together. */
  predicate Clash(u: UserRow, v: UserRow) {
    u.gateway == v.gateway && (u.extension == v.extension || u.authUsername == v.authUsername)
  }

  predicate Taken(users: map<Name, UserRow>, name: Name, row: UserRow) {
    exists other :: other in users && other != name && Clash(users[other], row)
  }

  function UserRows(rows: map<Name, UserRow>, c: Change<UserSpec>): map<Name, UserRow> {
    match c
    case Put(n, u) => rows[n := UserOf(u)]
    case Drop(n) => rows - {n}
  }

  function Credentials(md5: Md5, rows: map<(string, Name), SubscriberRow>, c: Change<UserSpec>):
    map<(string, Name), SubscriberRow>
  {
    match c
    case Put(n, u) => rows[(u.username, u.domain) := SubscriberOf(md5, n, u)]
    case Drop(n) => map k | k in rows && rows[k].owner != n :: rows[k]
  }

  function TrunkRows(rows: map<Name, TrunkRow>, c: Change<TrunkSpec>): map<Name, TrunkRow> {
    match c
    case Put(n, k) => rows[n := k.row]
    case Drop(n) => rows - {n}
  }

  function WithoutTrunk(rows: set<(Name, Cidr)>, trunk: Name): set<(Name, Cidr)> {
    set k | k in rows && k.0 != trunk
  }

  function Sources(trunk: Name, cidrs: seq<Cidr>): set<(Name, Cidr)> {
    set c | c in cidrs :: (trunk, c)
  }

  function SourceRows(rows: set<(Name, Cidr)>, c: Change<TrunkSpec>): set<(Name, Cidr)> {
    match c
    case Put(n, k) => WithoutTrunk(rows, n) + Sources(n, k.sources)
    case Drop(n) => WithoutTrunk(rows, n)
  }

  function MailboxRows(rows: map<Name, MailboxRow>, c: Change<MailboxSpec>): map<Name, MailboxRow> {
    match c
    case Put(n, m) => rows[n := MailboxOf(m)]
    case Drop(n) => rows - {n}
  }

  /** Asterisk's table: an upsert keyed by mailbox number, or a delete of the number the mailbox
      resource had last. */
  function VoicemailRows(rows: map<(string, string), VoicemailRow>, boxes: map<Name, MailboxRow>, id: nat,
                         c: Change<MailboxSpec>): map<(string, string), VoicemailRow>
  {
    match c
    case Put(_, m) =>
      var key := ("default", m.mailbox);
      rows[key := VoicemailOf(m, Lookup(rows, key), id)]
    case Drop(n) => if n in boxes then rows - {("default", boxes[n].mailbox)} else rows
  }

  // ---- transactions ----

  /** Whether every unique constraint holds, so that the transaction is not rolled back. */
  predicate Commits(t: Tables, op: Op) {
    match op
    case OnPolicy(Put(_, p)) => Distinct(p.scopes)
    case OnTrunk(Put(_, k)) => Distinct(k.sources)
    case OnUser(Put(n, u)) => !Taken(t.users, n, UserOf(u))
    case _ => true
  }

  function Effect(md5: Md5, t: Tables, op: Op): Tables {
    match op
    case OnScope(c) => t.(scopes := Changed(t.scopes, c))
    case OnPolicy(c) => t.(policies := PolicyRows(t.policies, c), policyScopes := ScopeRows(t.policyScopes, c))
    case OnUser(c) => t.(users := UserRows(t.users, c), subscribers := Credentials(md5, t.subscribers, c))
    case OnTrunk(c) => t.(trunks := TrunkRows(t.trunks, c), cidrs := SourceRows(t.cidrs, c))
    case OnRoute(c) => t.(routes := Changed(t.routes, c))
    case OnMailbox(c) =>
      t.(mailboxes := MailboxRows(t.mailboxes, c),
         voicemail := VoicemailRows(t.voicemail, t.mailboxes, t.nextUniqueId, c),
         nextUniqueId := if c.Put? then t.nextUniqueId + 1 else t.nextUniqueId)
    case ChangePin(key, pin) =>
      if key in t.voicemail then t.(voicemail := t.voicemail[key := t.voicemail[key].(password := pin)]) else t
  }

  /** One transaction: all of its effect, or none when a unique constraint fails. */
  function Apply(md5: Md5, t: Tables, op: Op): Txn {
    if Commits(t, op) then Txn(Effect(md5, t, op), true) else Txn(t, false)
  }

  function Run(md5: Md5, t: Tables, ops: seq<Op>): Tables
    decreases |ops|
  {
    if ops == [] then t else Run(md5, Apply(md5, t, ops[0]).tables, ops[1..])
  }

  lemma {:induction false} RunSplits(md5: Md5, t: Tables, ops: seq<Op>, k: nat)
    requires k <= |ops|
    ensures Run(md5, t, ops) == Run(md5, Run(md5, t, ops[..k]), ops[k..])
    decreases k
  {
    if k > 0 {
      RunSplits(md5, Apply(md5, t, ops[0]).tables, ops[1..], k - 1);
      assert ops[..k][1..] == ops[1..][..k-1];
    }
  }

  lemma RunGrows(md5: Md5, t: Tables, ops: seq<Op>, k: nat)
    requires k < |ops|
    ensures Run(md5, t, ops[..k+1]) == Apply(md5, Run(md5, t, ops[..k]), ops[k]).tables
  {
    RunSplits(md5, t, ops[..k+1], k);
    assert ops[..k+1][..k] == ops[..k] && ops[..k+1][k..] == [ops[k]];
    assert Run(md5, Run(md5, t, ops[..k]), [ops[k]]) == Apply(md5, Run(md5, t, ops[..k]), ops[k]).tables;
  }

  // ---- the plan ----

  datatype Plan = Plan(
    scopes: map<Name, OwnedRow>,
    policies: map<Name, PolicySpec>,
    users: map<Name, UserSpec>,
    trunks: map<Name, TrunkSpec>,
    routes: map<Name, RouteRow>,
    mailboxes: map<Name, MailboxSpec>,
    logins: map<(string, Name), (Name, UserSpec)>,
    numbers: map<(string, string), MailboxSpec>,
    pins: map<(string, string), string>)

  const EMPTY_PLAN := Plan(map[], map[], map[], map[], map[], map[], map[], map[], map[])

  predicate SameIdentity(u: UserSpec, v: UserSpec) {
    u.domain == v.domain && (u.extension == v.extension || u.username == v.username)
  }

  /** Whether the administrator's request is accepted: no repeated scope or source network, and no
      other live user with the same extension or username on that gateway. */
  predicate Accepts(p: Plan, op: Op) {
    match op
    case OnPolicy(Put(_, q)) => Distinct(q.scopes)
    case OnTrunk(Put(_, k)) => Distinct(k.sources)
    case OnUser(Put(n, u)) => forall other :: other in p.users && other != n ==> !SameIdentity(p.users[other], u)
    case _ => true
  }

  /** A login belongs to the user who claimed it last, under any name that user ever had. */
  function LoginsAfter(logins: map<(string, Name), (Name, UserSpec)>, c: Change<UserSpec>):
    map<(string, Name), (Name, UserSpec)>
  {
    match c
    case Put(n, u) => logins[(u.username, u.domain) := (n, u)]
    case Drop(n) => map k | k in logins && logins[k].0 != n :: logins[k]
  }

  /** The key of a mailbox's voicemail user. */
  function NumberOf(m: MailboxSpec): (string, string) { ("default", m.mailbox) }

  /** The numbers that a change gives up: that of a deleted mailbox. */
  function GivenUp(boxes: map<Name, MailboxSpec>, c: Change<MailboxSpec>): set<(string, string)> {
    if c.Drop? && c.name in boxes then {NumberOf(boxes[c.name])} else {}
  }

  function NumbersAfter(numbers: map<(string, string), MailboxSpec>, boxes: map<Name, MailboxSpec>,
                        c: Change<MailboxSpec>): map<(string, string), MailboxSpec> {
    if c.Put? then numbers[NumberOf(c.spec) := c.spec] else numbers - GivenUp(boxes, c)
  }

  /** An accepted request replaces or removes one resource and touches no other. */
  function Advance(p: Plan, op: Op): Plan {
    if !Accepts(p, op) then p else
    match op
    case OnScope(c) => p.(scopes := Changed(p.scopes, c))
    case OnPolicy(c) => p.(policies := Changed(p.policies, c))
    case OnUser(c) => p.(users := Changed(p.users, c), logins := LoginsAfter(p.logins, c))
    case OnTrunk(c) => p.(trunks := Changed(p.trunks, c))
    case OnRoute(c) => p.(routes := Changed(p.routes, c))
    case OnMailbox(c) =>
      p.(mailboxes := Changed(p.mailboxes, c), numbers := NumbersAfter(p.numbers, p.mailboxes, c),
         pins := p.pins - GivenUp(p.mailboxes, c))
    case ChangePin(key, pin) => if key in p.numbers then p.(pins := p.pins[key := pin]) else p
  }

  function Pursue(p: Plan, ops: seq<Op>): Plan
    decreases |ops|
  {
    if ops == [] then p else Pursue(Advance(p, ops[0]), ops[1..])
  }

  /** Which requests of a history are accepted. */
  function Verdicts(p: Plan, ops: seq<Op>): seq<bool>
    decreases |ops|
  {
    if ops == [] then [] else [Accepts(p, ops[0])] + Verdicts(Advance(p, ops[0]), ops[1..])
  }

  lemma {:induction false} PursueGrows(p: Plan, ops: seq<Op>, k: nat)
    requires k < |ops|
    ensures Pursue(p, ops[..k+1]) == Advance(Pursue(p, ops[..k]), ops[k])
    ensures Verdicts(p, ops[..k+1]) == Verdicts(p, ops[..k]) + [Accepts(Pursue(p, ops[..k]), ops[k])]
    decreases k
  {
    if k == 0 {
      assert ops[..1][1..] == [];
    } else {
      PursueGrows(Advance(p, ops[0]), ops[1..], k - 1);
      assert ops[..k+1][1..] == ops[1..][..k] && ops[..k][1..] == ops[1..][..k-1];
    }
  }
}
