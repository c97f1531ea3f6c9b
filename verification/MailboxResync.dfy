/** Re-syncing mailboxes, which write Asterisk's table under a number they may share: what the timer
    changes, and exactly when the order of a pass shows. */
module MailboxResync {
  import opened Common
  import opened DialPlan
  import opened Refinement

  type Key = (string, string)

  // ---- one mailbox ----

  lemma MailboxPut(md5: Md5, t: Tables, n: Name, m: MailboxSpec)
    ensures Apply(md5, t, OnMailbox(Put(n, m))).tables
         == t.(mailboxes := t.mailboxes[n := MailboxOf(m)],
               voicemail := t.voicemail[NumberOf(m) :=
                 VoicemailOf(m, Lookup(t.voicemail, NumberOf(m)), t.nextUniqueId)],
               nextUniqueId := t.nextUniqueId + 1)
  {
  }

  /** The timer's reconcile of a live mailbox always draws a number from the sequence. It touches no
      other voicemail user, and changes its own exactly when the number was given up, or was set up
      last under another name or e-mail: by a mailbox that shares or once had it. */
  lemma TimerOnMailbox(md5: Md5, t: Tables, p: Plan, n: Name, m: MailboxSpec)
    requires Stands(md5, t, p) && Lookup(p.mailboxes, n) == Some(m)
    ensures var t', key := Apply(md5, t, OnMailbox(Put(n, m))).tables, NumberOf(m);
      && t' == t.(voicemail := t'.voicemail, nextUniqueId := t.nextUniqueId + 1)
      && t'.voicemail - {key} == t.voicemail - {key} && key in t'.voicemail
      && (t'.voicemail == t.voicemail <==>
            key in p.numbers && FullName(p.numbers[key]) == FullName(m) && Email(p.numbers[key]) == Email(m))
  {
    MailboxPut(md5, t, n, m);
    assert t.mailboxes[n] == MailboxOf(m);
    VoicemailUpsert(t.voicemail, t.nextUniqueId, m);
  }

  lemma VoicemailUpsert(rows: map<Key, VoicemailRow>, id: nat, m: MailboxSpec)
    ensures var key := NumberOf(m);
      var rows' := rows[key := VoicemailOf(m, Lookup(rows, key), id)];
      && rows' - {key} == rows - {key}
      && (rows' == rows <==> key in rows && rows[key].fullname == FullName(m) && rows[key].email == Email(m))
  {
    var key := NumberOf(m);
    var rows' := rows[key := VoicemailOf(m, Lookup(rows, key), id)];
    if key in rows && rows[key].fullname == FullName(m) && rows[key].email == Email(m) {
      assert rows'[key] == rows[key];
    }
  }

  // ---- a pass over any mailboxes ----

  /** The reconciles of these mailboxes, in this order. */
  function Reconciles(asked: map<Name, MailboxSpec>, order: seq<Name>): seq<Op>
    requires forall n :: n in order ==> n in asked
  {
    seq(|order|, i requires 0 <= i < |order| => OnMailbox(Put(order[i], asked[order[i]])))
  }

  /** The last mailbox of a run that sets up the number. */
  function LastWith(asked: map<Name, MailboxSpec>, order: seq<Name>, key: Key): Option<MailboxSpec>
    requires forall n :: n in order ==> n in asked
  {
    if order == [] then None
    else
      var last := |order| - 1;
      if NumberOf(asked[order[last]]) == key then Some(asked[order[last]]) else LastWith(asked, order[..last], key)
  }

  lemma {:induction false} LastWithIsAsked(asked: map<Name, MailboxSpec>, order: seq<Name>, key: Key)
    requires forall n :: n in order ==> n in asked
    ensures LastWith(asked, order, key).None? ==> forall n :: n in order ==> NumberOf(asked[n]) != key
    ensures LastWith(asked, order, key).Some? ==>
      exists n :: n in order && asked[n] == LastWith(asked, order, key).value && NumberOf(asked[n]) == key
    decreases |order|
  {
    if order != [] {
      var last := |order| - 1;
      LastWithIsAsked(asked, order[..last], key);
      assert order == order[..last] + [order[last]];
    }
  }

  /** A voicemail user after a run whose last request for its number is `last`, if any: that one's name
      and e-mail, the row number and PIN it had, or its number as PIN. */
  predicate RowFollows(key: Key, before: Option<VoicemailRow>, after: Option<VoicemailRow>, last: Option<MailboxSpec>) {
    match last
    case None => after == before
    case Some(m) =>
      && after.Some? && after.value.fullname == FullName(m) && after.value.email == Email(m)
      && (before.Some? ==> after.value.uniqueid == before.value.uniqueid)
      && after.value.password == if before.Some? then before.value.password else key.1
  }

  ghost predicate RowsFollow(before: map<Key, VoicemailRow>, after: map<Key, VoicemailRow>,
                             asked: map<Name, MailboxSpec>, order: seq<Name>)
    requires forall n :: n in order ==> n in asked
  {
    forall key :: RowFollows(key, Lookup(before, key), Lookup(after, key), LastWith(asked, order, key))
  }

  ghost predicate BoxesFollow(before: map<Name, MailboxRow>, after: map<Name, MailboxRow>,
                              asked: map<Name, MailboxSpec>, order: seq<Name>)
    requires forall n :: n in order ==> n in asked
  {
    forall n :: Lookup(after, n) == if n in order then Some(MailboxOf(asked[n])) else Lookup(before, n)
  }

  /** The tables after a run of mailbox reconciles. */
  ghost predicate Settled(t: Tables, t': Tables, asked: map<Name, MailboxSpec>, order: seq<Name>)
    requires forall n :: n in order ==> n in asked
  {
    && t' == t.(mailboxes := t'.mailboxes, voicemail := t'.voicemail, nextUniqueId := t.nextUniqueId + |order|)
    && BoxesFollow(t.mailboxes, t'.mailboxes, asked, order)
    && RowsFollow(t.voicemail, t'.voicemail, asked, order)
  }

  lemma OneMoreRow(before: map<Key, VoicemailRow>, rows: map<Key, VoicemailRow>, asked: map<Name, MailboxSpec>,
                   order: seq<Name>, id: nat)
    requires order != [] && forall n :: n in order ==> n in asked
    requires RowsFollow(before, rows, asked, order[..|order| - 1])
    ensures var m := asked[order[|order| - 1]];
      RowsFollow(before, rows[NumberOf(m) := VoicemailOf(m, Lookup(rows, NumberOf(m)), id)], asked, order)
  {
    var m := asked[order[|order| - 1]];
    var rows' := rows[NumberOf(m) := VoicemailOf(m, Lookup(rows, NumberOf(m)), id)];
    forall key ensures RowFollows(key, Lookup(before, key), Lookup(rows', key), LastWith(asked, order, key)) {
      assert RowFollows(key, Lookup(before, key), Lookup(rows, key), LastWith(asked, order[..|order| - 1], key));
    }
  }

  lemma OneMoreBox(before: map<Name, MailboxRow>, rows: map<Name, MailboxRow>, asked: map<Name, MailboxSpec>,
                   order: seq<Name>)
    requires order != [] && forall n :: n in order ==> n in asked
    requires BoxesFollow(before, rows, asked, order[..|order| - 1])
    ensures var n := order[|order| - 1]; BoxesFollow(before, rows[n := MailboxOf(asked[n])], asked, order)
  {
    assert order == order[..|order| - 1] + [order[|order| - 1]];
  }

  lemma OneMoreSettles(md5: Md5, t: Tables, t1: Tables, asked: map<Name, MailboxSpec>, order: seq<Name>)
    requires order != [] && forall n :: n in order ==> n in asked
    requires Settled(t, t1, asked, order[..|order| - 1])
    ensures var n := order[|order| - 1]; Settled(t, Apply(md5, t1, OnMailbox(Put(n, asked[n]))).tables, asked, order)
  {
    var last := |order| - 1;
    MailboxPut(md5, t1, order[last], asked[order[last]]);
    OneMoreRow(t.voicemail, t1.voicemail, asked, order, t1.nextUniqueId);
    OneMoreBox(t.mailboxes, t1.mailboxes, asked, order);
  }

  lemma {:induction false} PassSettles(md5: Md5, t: Tables, asked: map<Name, MailboxSpec>, order: seq<Name>)
    requires forall n :: n in order ==> n in asked
    ensures Settled(t, Run(md5, t, Reconciles(asked, order)), asked, order)
    decreases |order|
  {
    if order != [] {
      var last := |order| - 1;
      var t1 := Run(md5, t, Reconciles(asked, order[..last]));
      PassSettles(md5, t, asked, order[..last]);
      assert Reconciles(asked, order)[..last] == Reconciles(asked, order[..last]);
      assert Reconciles(asked, order)[..last+1] == Reconciles(asked, order);
      RunGrows(md5, t, Reconciles(asked, order), last);
      OneMoreSettles(md5, t, t1, asked, order);
    }
  }

  // ---- when the order of a pass shows ----

  /** Equal, but for the row numbers of voicemail users. */
  ghost predicate SameButRowNumbers(a: Tables, b: Tables) {
    && b == a.(voicemail := b.voicemail)
    && a.voicemail.Keys == b.voicemail.Keys
    && forall k :: k in a.voicemail ==> b.voicemail[k] == a.voicemail[k].(uniqueid := b.voicemail[k].uniqueid)
  }

  /** What an operator can look up before the pass: mailboxes that share a number agree on its name and
      e-mail. */
  ghost predicate NumbersAgree(asked: map<Name, MailboxSpec>) {
    forall n, m :: n in asked && m in asked && NumberOf(asked[n]) == NumberOf(asked[m]) ==>
      FullName(asked[n]) == FullName(asked[m]) && Email(asked[n]) == Email(asked[m])
  }

  lemma LastOnesAgree(asked: map<Name, MailboxSpec>, order: seq<Name>, other: seq<Name>, key: Key)
    requires NumbersAgree(asked) && IsPass(asked, order) && IsPass(asked, other)
    ensures match LastWith(asked, order, key)
      case None => LastWith(asked, other, key).None?
      case Some(m) =>
        && LastWith(asked, other, key).Some?
        && FullName(m) == FullName(LastWith(asked, other, key).value)
        && Email(m) == Email(LastWith(asked, other, key).value)
  {
    LastWithIsAsked(asked, order, key);
    LastWithIsAsked(asked, other, key);
  }

  lemma SettledBoxesAgree(t: Tables, a: Tables, b: Tables, asked: map<Name, MailboxSpec>, order: seq<Name>,
                          other: seq<Name>)
    requires IsPass(asked, order) && IsPass(asked, other)
    requires BoxesFollow(t.mailboxes, a.mailboxes, asked, order) && BoxesFollow(t.mailboxes, b.mailboxes, asked, other)
    ensures a.mailboxes == b.mailboxes
  {
    forall n ensures Lookup(a.mailboxes, n) == Lookup(b.mailboxes, n) {
      assert n in order <==> n in other;
    }
    SameLookupsSameMap(a.mailboxes, b.mailboxes);
  }

  lemma AgreeingPassesAgree(t: Tables, a: Tables, b: Tables, asked: map<Name, MailboxSpec>, order: seq<Name>,
                            other: seq<Name>)
    requires NumbersAgree(asked) && IsPass(asked, order) && IsPass(asked, other)
    requires Settled(t, a, asked, order) && Settled(t, b, asked, other)
    ensures SameButRowNumbers(a, b)
  {
    PassLength(asked, order);
    PassLength(asked, other);
    SettledBoxesAgree(t, a, b, asked, order, other);
    forall k ensures k in a.voicemail <==> k in b.voicemail
      ensures k in a.voicemail && k in b.voicemail ==>
        b.voicemail[k] == a.voicemail[k].(uniqueid := b.voicemail[k].uniqueid)
    {
      LastOnesAgree(asked, order, other, k);
      assert RowFollows(k, Lookup(t.voicemail, k), Lookup(a.voicemail, k), LastWith(asked, order, k));
      assert RowFollows(k, Lookup(t.voicemail, k), Lookup(b.voicemail, k), LastWith(asked, other, k));
    }
  }

  lemma DisagreementShows(md5: Md5, t: Tables, asked: map<Name, MailboxSpec>, n: Name, m: Name)
    returns (order: seq<Name>, other: seq<Name>)
    requires n in asked && m in asked && NumberOf(asked[n]) == NumberOf(asked[m])
    requires FullName(asked[n]) != FullName(asked[m]) || Email(asked[n]) != Email(asked[m])
    ensures IsPass(asked, order) && IsPass(asked, other)
    ensures !SameButRowNumbers(Run(md5, t, Reconciles(asked, order)), Run(md5, t, Reconciles(asked, other)))
  {
    order := PassTo(asked, n);
    other := PassTo(asked, m);
    PassSettles(md5, t, asked, order);
    PassSettles(md5, t, asked, other);
    var a, b, k := Run(md5, t, Reconciles(asked, order)), Run(md5, t, Reconciles(asked, other)), NumberOf(asked[n]);
    assert RowFollows(k, Lookup(t.voicemail, k), Lookup(a.voicemail, k), Some(asked[n]));
    assert RowFollows(k, Lookup(t.voicemail, k), Lookup(b.voicemail, k), Some(asked[m]));
    assert a.voicemail[k].fullname != b.voicemail[k].fullname || a.voicemail[k].email != b.voicemail[k].email;
  }

  /** From any tables, every order of a pass over mailboxes ends the same, row numbers aside, exactly
      when those that share a number agree on its name and e-mail; otherwise the last one shows. */
  lemma OrderShowsIffNumbersDisagree(md5: Md5, t: Tables, asked: map<Name, MailboxSpec>)
    ensures (forall order, other :: IsPass(asked, order) && IsPass(asked, other) ==>
               SameButRowNumbers(Run(md5, t, Reconciles(asked, order)), Run(md5, t, Reconciles(asked, other))))
       <==> NumbersAgree(asked)
  {
    if NumbersAgree(asked) {
      forall order, other | IsPass(asked, order) && IsPass(asked, other)
        ensures SameButRowNumbers(Run(md5, t, Reconciles(asked, order)), Run(md5, t, Reconciles(asked, other)))
      {
        PassSettles(md5, t, asked, order);
        PassSettles(md5, t, asked, other);
        AgreeingPassesAgree(t, Run(md5, t, Reconciles(asked, order)), Run(md5, t, Reconciles(asked, other)), asked,
                            order, other);
      }
    } else {
      var n, m :| n in asked && m in asked && NumberOf(asked[n]) == NumberOf(asked[m])
        && (FullName(asked[n]) != FullName(asked[m]) || Email(asked[n]) != Email(asked[m]));
      var order, other := DisagreementShows(md5, t, asked, n, m);
    }
  }

  /** A second pass, in whatever order, then advances the sequence and changes nothing else. */
  lemma MailboxPassIsIdempotent(md5: Md5, t: Tables, asked: map<Name, MailboxSpec>, order: seq<Name>, again: seq<Name>)
    requires NumbersAgree(asked) && IsPass(asked, order) && IsPass(asked, again)
    ensures var t1 := Run(md5, t, Reconciles(asked, order));
      Run(md5, t1, Reconciles(asked, again)) == t1.(nextUniqueId := t1.nextUniqueId + |asked|)
  {
    var t1 := Run(md5, t, Reconciles(asked, order));
    var t2 := Run(md5, t1, Reconciles(asked, again));
    PassSettles(md5, t, asked, order);
    PassSettles(md5, t1, asked, again);
    PassLength(asked, again);
    forall n ensures Lookup(t2.mailboxes, n) == Lookup(t1.mailboxes, n) {
      assert n in order <==> n in again;
    }
    SameLookupsSameMap(t2.mailboxes, t1.mailboxes);
    forall k ensures Lookup(t2.voicemail, k) == Lookup(t1.voicemail, k) {
      LastOnesAgree(asked, order, again, k);
      assert RowFollows(k, Lookup(t.voicemail, k), Lookup(t1.voicemail, k), LastWith(asked, order, k));
      assert RowFollows(k, Lookup(t1.voicemail, k), Lookup(t2.voicemail, k), LastWith(asked, again, k));
    }
    SameLookupsSameMap(t2.voicemail, t1.voicemail);
  }
}
