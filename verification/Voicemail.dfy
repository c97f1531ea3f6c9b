/** Asterisk's voicemail users: how the third migration numbers them, and what later requests keep. */
module Voicemail {
  import opened Common
  import opened DialPlan

  type Key = (string, string)

  // ---- the migration ----

  /** The `voicemail` table while the migration runs: its rows, the new column once it is added, the
      sequence once it is created, and which columns are the primary key. */
  class VoicemailTable {
    var rows: set<Key>
    var uniqueid: Option<map<Key, Option<nat>>>
    var sequence: Option<nat>
    var keyedByUniqueid: bool

    constructor (rows: set<Key>)
      ensures this.rows == rows && uniqueid == None && sequence == None && !keyedByUniqueid
    {
      this.rows, uniqueid, sequence, keyedByUniqueid := rows, None, None, false;
    }

    /** `order` is the order in which `row_number() over ()` happens to see the rows. Setting the
        column not null, and making it the primary key, would each fail on bad data; neither does. */
    method Upgrade(order: seq<Key>) returns (succeeded: bool)
      requires Distinct(order) && rows == set k | k in order
      modifies this
      ensures succeeded && rows == old(rows)
      ensures old(uniqueid).Some? ==>
        uniqueid == old(uniqueid) && sequence == old(sequence) && keyedByUniqueid == old(keyedByUniqueid)
      ensures old(uniqueid).None? ==>
        && uniqueid == Some(Numbers(order))
        && sequence == Some(|order| + 1)
        && keyedByUniqueid
    {
      if uniqueid.Some? {
        return true;
      }
      uniqueid := Some(map k | k in rows :: None);
      uniqueid := Some(map k | k in rows :: Some(RowNumber(order, k)));
      var ids := uniqueid.value;
      assert ids == Numbers(order);
      NumbersAreSound(order);
      var max := MaxId(order);
      sequence := Some(max + 1);
      if HasNull(ids) || HasDuplicate(ids) {
        return false;
      }
      keyedByUniqueid := true;
      return true;
    }
  }

  predicate HasNull(ids: map<Key, Option<nat>>) { exists k :: k in ids && ids[k] == None }

  predicate HasDuplicate(ids: map<Key, Option<nat>>) {
    exists k, k' :: k in ids && k' in ids && k != k' && ids[k] == ids[k']
  }

  function Numbers(order: seq<Key>): map<Key, Option<nat>> { map k | k in order :: Some(RowNumber(order, k)) }

  lemma NumbersAreSound(order: seq<Key>)
    requires Distinct(order)
    ensures !HasNull(Numbers(order)) && !HasDuplicate(Numbers(order))
  {
    RowNumbersAreOneToN(order);
  }

  function RowNumber(order: seq<Key>, k: Key): nat
    requires k in order
  {
    if order[|order| - 1] == k then |order| else RowNumber(order[..|order| - 1], k)
  }

  /** The numbers are those of the positions, counted from one: distinct, and filling 1..n. */
  lemma {:induction false} RowNumbersAreOneToN(order: seq<Key>)
    requires Distinct(order)
    ensures forall i :: 0 <= i < |order| ==> RowNumber(order, order[i]) == i + 1
    ensures forall k :: k in order ==> 1 <= RowNumber(order, k) <= |order|
    ensures forall k, k' :: k in order && k' in order && k != k' ==> RowNumber(order, k) != RowNumber(order, k')
  {
    if order != [] {
      var last := |order| - 1;
      RowNumbersAreOneToN(order[..last]);
      forall i | 0 <= i < last ensures RowNumber(order, order[i]) == i + 1 {
        assert order[..last][i] == order[i] && order[i] != order[last];
      }
    }
  }

  /** `coalesce((select max(uniqueid) from voicemail), 0)`. */
  method MaxId(order: seq<Key>) returns (max: nat)
    requires Distinct(order)
    ensures max == |order|
  {
    var ids := Numbers(order);
    RowNumbersAreOneToN(order);
    if order == [] {
      return 0;
    }
    ghost var last := order[|order| - 1];
    assert last in ids && ids[last] == Some(|order|);
    assert forall k :: k in ids ==> ids[k].Some? && ids[k].value <= ids[last].value;
    var top :| top in ids && forall k :: k in ids ==> Above(ids, top, k);
    assert Above(ids, top, last);
    max := ids[top].value;
  }

  /** `b` is not above `a`; a null never counts. */
  predicate Above(ids: map<Key, Option<nat>>, a: Key, b: Key)
    requires a in ids && b in ids
  {
    ids[b].Some? ==> ids[a].Some? && ids[b].value <= ids[a].value
  }

  // ---- numbers stay unique ----

  /** Row numbers are positive, below the sequence, and no two rows share one. */
  ghost predicate IdsSound(rows: map<Key, VoicemailRow>, next: nat) {
    && (forall k :: k in rows ==> 1 <= rows[k].uniqueid < next)
    && (forall k, k' :: k in rows && k' in rows && k != k' ==> rows[k].uniqueid != rows[k'].uniqueid)
  }

  /** The voicemail users and the sequence are as the migration leaves them; with no rows, as the
      schema starts. */
  ghost predicate Migrated(t: Tables, order: seq<Key>) {
    && Distinct(order) && t.voicemail.Keys == (set k | k in order)
    && (forall k :: k in t.voicemail ==> Lookup(Numbers(order), k) == Some(Some(t.voicemail[k].uniqueid)))
    && t.nextUniqueId == |order| + 1
  }

  lemma FreshIsMigrated()
    ensures Migrated(EMPTY_TABLES, [])
  {
  }

  lemma MigratedIdsAreSound(t: Tables, order: seq<Key>)
    requires Migrated(t, order)
    ensures IdsSound(t.voicemail, t.nextUniqueId) && t.nextUniqueId >= 1
  {
    RowNumbersAreOneToN(order);
    forall k | k in t.voicemail ensures k in order && t.voicemail[k].uniqueid == RowNumber(order, k) {
      assert k in Numbers(order) && Numbers(order)[k] == Some(t.voicemail[k].uniqueid);
    }
    forall k, k' | k in t.voicemail && k' in t.voicemail && k != k'
      ensures t.voicemail[k].uniqueid != t.voicemail[k'].uniqueid
    {
      assert RowNumber(order, k) != RowNumber(order, k');
    }
  }

  lemma MailboxUpsertKeepsIds(t: Tables, c: Change<MailboxSpec>)
    requires IdsSound(t.voicemail, t.nextUniqueId) && t.nextUniqueId >= 1
    ensures IdsSound(VoicemailRows(t.voicemail, t.mailboxes, t.nextUniqueId, c),
                     if c.Put? then t.nextUniqueId + 1 else t.nextUniqueId)
  {
  }

  /** What a request does to the voicemail users, their mailboxes aside. */
  function VoicemailAfter(t: Tables, op: Op): map<Key, VoicemailRow> {
    if op.OnMailbox? then VoicemailRows(t.voicemail, t.mailboxes, t.nextUniqueId, op.box)
    else if op.ChangePin? && op.key in t.voicemail then t.voicemail[op.key := t.voicemail[op.key].(password := op.pin)]
    else t.voicemail
  }

  lemma OtherRequestsLeaveVoicemail(md5: Md5, t: Tables, op: Op)
    requires !op.OnMailbox? && !op.ChangePin?
    ensures Apply(md5, t, op).tables.voicemail == t.voicemail
    ensures Apply(md5, t, op).tables.nextUniqueId == t.nextUniqueId
  {
  }

  lemma MailboxesAndPinsTouchVoicemail(md5: Md5, t: Tables, op: Op)
    requires op.OnMailbox? || op.ChangePin?
    ensures Apply(md5, t, op).tables.voicemail == VoicemailAfter(t, op)
    ensures Apply(md5, t, op).tables.nextUniqueId == t.nextUniqueId + if op.OnMailbox? && op.box.Put? then 1 else 0
  {
  }

  lemma OnlyMailboxesAndPinsTouchVoicemail(md5: Md5, t: Tables, op: Op)
    ensures Apply(md5, t, op).tables.voicemail == VoicemailAfter(t, op)
    ensures Apply(md5, t, op).tables.nextUniqueId == t.nextUniqueId + if op.OnMailbox? && op.box.Put? then 1 else 0
  {
    if op.OnMailbox? || op.ChangePin? {
      MailboxesAndPinsTouchVoicemail(md5, t, op);
    } else {
      OtherRequestsLeaveVoicemail(md5, t, op);
    }
  }

  lemma RequestKeepsIds(md5: Md5, t: Tables, op: Op)
    requires IdsSound(t.voicemail, t.nextUniqueId) && t.nextUniqueId >= 1
    ensures IdsSound(Apply(md5, t, op).tables.voicemail, Apply(md5, t, op).tables.nextUniqueId)
    ensures Apply(md5, t, op).tables.nextUniqueId >= 1
  {
    OnlyMailboxesAndPinsTouchVoicemail(md5, t, op);
    if op.OnMailbox? {
      MailboxUpsertKeepsIds(t, op.box);
    }
  }

  lemma {:induction false} IdsStaySound(md5: Md5, t: Tables, ops: seq<Op>)
    requires IdsSound(t.voicemail, t.nextUniqueId) && t.nextUniqueId >= 1
    ensures IdsSound(Run(md5, t, ops).voicemail, Run(md5, t, ops).nextUniqueId)
    decreases |ops|
  {
    if ops != [] {
      RequestKeepsIds(md5, t, ops[0]);
      IdsStaySound(md5, Apply(md5, t, ops[0]).tables, ops[1..]);
    }
  }

  /** Whatever rows the migration met, no later run of requests ever gives two voicemail users the
      same number, or one beyond the sequence. */
  lemma NumbersStayUniqueAfterMigration(md5: Md5, t: Tables, order: seq<Key>, ops: seq<Op>)
    requires Migrated(t, order)
    ensures IdsSound(Run(md5, t, ops).voicemail, Run(md5, t, ops).nextUniqueId)
  {
    MigratedIdsAreSound(t, order);
    IdsStaySound(md5, t, ops);
  }

  // ---- a PIN belongs to its caller ----

  /** The one request that removes a voicemail user: deleting a mailbox that has its number. */
  predicate Removes(t: Tables, op: Op, key: Key) {
    op.OnMailbox? && op.box.Drop? && op.box.name in t.mailboxes && key == ("default", t.mailboxes[op.box.name].mailbox)
  }

  ghost predicate Spares(md5: Md5, t: Tables, ops: seq<Op>, key: Key)
    decreases |ops|
  {
    ops != [] ==> !Removes(t, ops[0], key) && Spares(md5, Apply(md5, t, ops[0]).tables, ops[1..], key)
  }

  /** The PIN the caller chose last, if any. */
  function ChosenPin(ops: seq<Op>, key: Key, initial: string): string
    decreases |ops|
  {
    if ops == [] then initial
    else ChosenPin(ops[1..], key, PinAfter(ops[0], key, initial))
  }

  lemma MailboxRequestAndThePin(rows: map<Key, VoicemailRow>, boxes: map<Name, MailboxRow>, id: nat,
                                c: Change<MailboxSpec>, key: Key)
    requires key in rows
    ensures var rows' := VoicemailRows(rows, boxes, id, c);
      && (key in rows' <==> !(c.Drop? && c.name in boxes && key == ("default", boxes[c.name].mailbox)))
      && (key in rows' ==> rows'[key].uniqueid == rows[key].uniqueid && rows'[key].password == rows[key].password)
  {
  }

  function PinAfter(op: Op, key: Key, pin: string): string {
    if op.ChangePin? && op.key == key then op.pin else pin
  }

  /** A stored voicemail user goes away exactly by `Removes`, and otherwise keeps its number and, but
      for the caller's own change, its PIN. */
  lemma OneRequestAndThePin(md5: Md5, t: Tables, op: Op, key: Key)
    requires key in t.voicemail
    ensures key in Apply(md5, t, op).tables.voicemail <==> !Removes(t, op, key)
    ensures !Removes(t, op, key) ==>
      var row := Apply(md5, t, op).tables.voicemail[key];
      && row.uniqueid == t.voicemail[key].uniqueid
      && row.password == PinAfter(op, key, t.voicemail[key].password)
  {
    OnlyMailboxesAndPinsTouchVoicemail(md5, t, op);
    if op.OnMailbox? {
      MailboxRequestAndThePin(t.voicemail, t.mailboxes, t.nextUniqueId, op.box, key);
    }
  }

  /** Over any run that spares it, a voicemail user keeps its number and the PIN its caller chose. */
  lemma {:induction false} PinSurvivesReconciles(md5: Md5, t: Tables, ops: seq<Op>, key: Key)
    requires key in t.voicemail && Spares(md5, t, ops, key)
    ensures key in Run(md5, t, ops).voicemail
    ensures Run(md5, t, ops).voicemail[key].password == ChosenPin(ops, key, t.voicemail[key].password)
    ensures Run(md5, t, ops).voicemail[key].uniqueid == t.voicemail[key].uniqueid
    decreases |ops|
  {
    if ops != [] {
      OneRequestAndThePin(md5, t, ops[0], key);
      PinSurvivesReconciles(md5, Apply(md5, t, ops[0]).tables, ops[1..], key);
    }
  }

  /** The request creates a voicemail user if the number has none. */
  predicate SetsUp(op: Op, key: Key) { op.OnMailbox? && op.box.Put? && NumberOf(op.box.spec) == key }

  /** The last request that created the voicemail user, with nothing after it that removes it. */
  lemma {:induction false} LastSetUp(md5: Md5, t: Tables, ops: seq<Op>, key: Key) returns (k: nat)
    requires key in Run(md5, t, ops).voicemail && !(key in t.voicemail && Spares(md5, t, ops, key))
    ensures k < |ops| && SetsUp(ops[k], key)
    ensures key !in Run(md5, t, ops[..k]).voicemail
    ensures var t' := Run(md5, t, ops[..k+1]);
      t' == Apply(md5, Run(md5, t, ops[..k]), ops[k]).tables && Spares(md5, t', ops[k+1..], key)
    decreases |ops|
  {
    var t1 := Apply(md5, t, ops[0]).tables;
    if key in t1.voicemail && Spares(md5, t1, ops[1..], key) {
      OnlyMailboxesAndPinsTouchVoicemail(md5, t, ops[0]);
      k := 0;
    } else {
      k := LastSetUp(md5, t1, ops[1..], key);
      RunAfterFirst(md5, t, ops, k);
      RunAfterFirst(md5, t, ops, k + 1);
      assert ops[1..][k+1..] == ops[k+2..];
      k := k + 1;
    }
  }

  lemma RunAfterFirst(md5: Md5, t: Tables, ops: seq<Op>, k: nat)
    requires k < |ops|
    ensures Run(md5, t, ops[..k+1]) == Run(md5, Apply(md5, t, ops[0]).tables, ops[1..][..k])
  {
    assert ops[..k+1][1..] == ops[1..][..k];
  }

  /** In every history, a voicemail user's PIN is its mailbox number, changed as its caller chose since
      the request that created it; its row number is the one the sequence then stood at. */
  lemma PinsOfEveryHistory(md5: Md5, ops: seq<Op>, key: Key) returns (k: nat)
    requires key in Run(md5, EMPTY_TABLES, ops).voicemail
    ensures k < |ops| && SetsUp(ops[k], key)
    ensures key !in Run(md5, EMPTY_TABLES, ops[..k]).voicemail
    ensures var row := Run(md5, EMPTY_TABLES, ops).voicemail[key];
      && row.password == ChosenPin(ops[k+1..], key, key.1)
      && row.uniqueid == Run(md5, EMPTY_TABLES, ops[..k]).nextUniqueId
  {
    k := LastSetUp(md5, EMPTY_TABLES, ops, key);
    var before, created := Run(md5, EMPTY_TABLES, ops[..k]), Run(md5, EMPTY_TABLES, ops[..k+1]);
    OnlyMailboxesAndPinsTouchVoicemail(md5, before, ops[k]);
    RunSplits(md5, EMPTY_TABLES, ops, k + 1);
    PinSurvivesReconciles(md5, created, ops[k+1..], key);
  }

  // ---- every mailbox has its voicemail user, unless numbers are shared ----

  ghost predicate AllServed(t: Tables) {
    forall n :: n in t.mailboxes ==> ("default", t.mailboxes[n].mailbox) in t.voicemail
  }

  ghost predicate SharesNumber(t: Tables, n: Name) {
    n in t.mailboxes && exists m :: m in t.mailboxes && m != n && t.mailboxes[m].mailbox == t.mailboxes[n].mailbox
  }

  /** A request leaves some live mailbox without its voicemail user exactly when it deletes a mailbox
      whose number another one shares. */
  lemma ServedUnlessSharedNumberDeleted(md5: Md5, t: Tables, op: Op)
    requires AllServed(t)
    ensures AllServed(Apply(md5, t, op).tables) <==>
      !(op.OnMailbox? && op.box.Drop? && SharesNumber(t, op.box.name))
  {
    var t' := Apply(md5, t, op).tables;
    if op.OnMailbox? && op.box.Drop? && SharesNumber(t, op.box.name) {
      var n := op.box.name;
      var m :| m in t.mailboxes && m != n && t.mailboxes[m].mailbox == t.mailboxes[n].mailbox;
      assert m in t'.mailboxes && ("default", t'.mailboxes[m].mailbox) !in t'.voicemail;
    } else {
      forall m | m in t'.mailboxes ensures ("default", t'.mailboxes[m].mailbox) in t'.voicemail {
        if m in t.mailboxes {
          assert ("default", t.mailboxes[m].mailbox) in t.voicemail;
        }
      }
    }
  }

  /** The number's voicemail user is named after the caller ID, or after the auth username if there is
      none, and has the address to send e-mail to exactly if e-mail is enabled. It keeps its row number
      and PIN if it had one, and has the number as PIN if it is new. All others are as they were. */
  predicate Upserted(before: map<Key, VoicemailRow>, after: map<Key, VoicemailRow>, m: MailboxSpec) {
    var key := ("default", m.mailbox);
    && key in after && after - {key} == before - {key}
    && after[key].fullname == (match m.callerId
                               case Some(callerId) => if callerId != "" then callerId else m.sipAuthUsername
                               case None => m.sipAuthUsername)
    && after[key].email == (if m.emailEnabled then m.emailTo else None)
    && (key in before ==> after[key].uniqueid == before[key].uniqueid && after[key].password == before[key].password)
    && (key !in before ==> after[key].password == m.mailbox)
  }

  lemma UpsertServes(md5: Md5, t: Tables, n: Name, m: MailboxSpec)
    ensures Upserted(t.voicemail, Apply(md5, t, OnMailbox(Put(n, m))).tables.voicemail, m)
    ensures AllServed(t) ==> AllServed(Apply(md5, t, OnMailbox(Put(n, m))).tables)
  {
    OnlyMailboxesAndPinsTouchVoicemail(md5, t, OnMailbox(Put(n, m)));
    if AllServed(t) {
      ServedUnlessSharedNumberDeleted(md5, t, OnMailbox(Put(n, m)));
    }
  }

  lemma DeletionServes(md5: Md5, t: Tables, n: Name)
    ensures AllServed(t) ==> (AllServed(Apply(md5, t, OnMailbox(Drop(n))).tables) <==> !SharesNumber(t, n))
  {
    if AllServed(t) {
      ServedUnlessSharedNumberDeleted(md5, t, OnMailbox(Drop(n)));
    }
  }

  /** Any two mailboxes may share a number. */
  lemma TwoMailboxes(md5: Md5, n: Name, a: MailboxSpec, m: Name, b: MailboxSpec)
    requires n != m && a.mailbox == b.mailbox
    ensures var t := Run(md5, EMPTY_TABLES, [OnMailbox(Put(n, a)), OnMailbox(Put(m, b))]);
      t.mailboxes == map[n := MailboxOf(a), m := MailboxOf(b)] && t.voicemail.Keys == {NumberOf(b)}
  {
    var t1 := Apply(md5, EMPTY_TABLES, OnMailbox(Put(n, a))).tables;
    assert [OnMailbox(Put(n, a)), OnMailbox(Put(m, b))][1..] == [OnMailbox(Put(m, b))];
    assert Run(md5, t1, [OnMailbox(Put(m, b))]) == Apply(md5, t1, OnMailbox(Put(m, b))).tables;
  }

  /** Both mailboxes of a shared number are served until one is deleted; the other is served again
      after its next reconcile, with its PIN back at the number. */
  lemma SharedNumberIsReachable(md5: Md5, n: Name, a: MailboxSpec, m: Name, b: MailboxSpec)
    requires n != m && a.mailbox == b.mailbox
    ensures var t := Run(md5, EMPTY_TABLES, [OnMailbox(Put(n, a)), OnMailbox(Put(m, b))]);
      var t' := Apply(md5, t, OnMailbox(Drop(n))).tables;
      && AllServed(t) && SharesNumber(t, n) && SharesNumber(t, m)
      && m in t'.mailboxes && NumberOf(b) !in t'.voicemail
      && StartsAfresh(md5, t', m, b)
  {
    TwoMailboxes(md5, n, a, m, b);
    var t := Run(md5, EMPTY_TABLES, [OnMailbox(Put(n, a)), OnMailbox(Put(m, b))]);
    assert t.mailboxes[n] == MailboxOf(a) && t.mailboxes[m] == MailboxOf(b);
    var t' := Apply(md5, t, OnMailbox(Drop(n))).tables;
    assert t'.voicemail == map[] && t'.mailboxes == map[m := MailboxOf(b)];
  }

  /** The mailbox has lost its voicemail user, and its next reconcile gives it one with a new PIN. */
  predicate StartsAfresh(md5: Md5, t: Tables, m: Name, b: MailboxSpec) {
    && NumberOf(b) !in t.voicemail
    && Lookup(Apply(md5, t, OnMailbox(Put(m, b))).tables.voicemail, NumberOf(b))
       == Some(VoicemailRow(t.nextUniqueId, b.mailbox, FullName(b), Email(b)))
  }
}
