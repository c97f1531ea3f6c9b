/** Message-waiting counts: the gateway's grouped join against the operator's own count. */
module Mwi {
  import opened Common
  import opened DialPlan
  import Like
  import Voicemail

  datatype Message = Message(mailboxUser: Option<string>, mailboxContext: Option<string>, dir: string)

  type Messages = map<int, Message>

  const INBOX := "%/INBOX"
  const OLD := "%/Old"
  const URGENT := "%/Urgent"

  predicate Belongs(m: Message, mailbox: string, context: string) {
    m.mailboxUser == Some(mailbox) && m.mailboxContext == Some(context)
  }

  function InFolder(messages: Messages, mailbox: string, context: string, pattern: string): set<int> {
    set id | id in messages && Belongs(messages[id], mailbox, context) && Like.Matches(messages[id].dir, pattern)
  }

  datatype Counts = Counts(unread: int, read: int, urgent: int)

  /** The operator's count for one mailbox. */
  function MessageCounts(messages: Messages, mailbox: string, context: string): Counts {
    Counts(|InFolder(messages, mailbox, context, INBOX)|, |InFolder(messages, mailbox, context, OLD)|,
           |InFolder(messages, mailbox, context, URGENT)|)
  }

  // ---- the gateway's query ----

  function BoxesOf(t: Tables, gateway: Name, username: string): set<Name> {
    set b | b in t.mailboxes && t.mailboxes[b].gateway == gateway && t.mailboxes[b].sipAuthUsername == username
  }

  /** The boxes of the user in the group of one mailbox number. */
  function Group(t: Tables, gateway: Name, username: string, number: string): set<Name> {
    set b | b in BoxesOf(t, gateway, username) && t.mailboxes[b].mailbox == number
  }

  /** The left join: each box with each of its messages, or alone. */
  function MessagesFor(messages: Messages, mailbox: string): set<Option<int>> {
    var hits := set id | id in messages && Belongs(messages[id], mailbox, "default") :: Some(id);
    if hits == {} then {None} else hits
  }

  /** The joined rows of a group that `count(m.id) filter (where m.dir like pattern)` counts. */
  function Counted(t: Tables, messages: Messages, gateway: Name, username: string, number: string, pattern: string):
    set<(Name, int)>
  {
    set b, m | b in Group(t, gateway, username, number) && m in MessagesFor(messages, t.mailboxes[b].mailbox)
               && m.Some? && m.value in messages && Like.Matches(messages[m.value].dir, pattern) :: (b, m.value)
  }

  function GroupCounts(t: Tables, messages: Messages, gateway: Name, username: string, number: string): Counts {
    Counts(|Counted(t, messages, gateway, username, number, INBOX)|,
           |Counted(t, messages, gateway, username, number, OLD)|,
           |Counted(t, messages, gateway, username, number, URGENT)|)
  }

  // ---- the two agree when the number has one box ----

  function Pairs<S, T>(names: set<S>, ids: set<T>): set<(S, T)> {
    set b, i | b in names && i in ids :: (b, i)
  }

  lemma {:induction false} PairsMultiply<S, T>(names: set<S>, ids: set<T>)
    ensures |Pairs(names, ids)| == |names| * |ids|
    decreases |names|
  {
    if names == {} {
      assert Pairs(names, ids) == {};
    } else {
      var x :| x in names;
      var rest := names - {x};
      var own := set i | i in ids :: (x, i);
      PairsMultiply(rest, ids);
      ImageHasSameSize(x, ids);
      assert Pairs(names, ids) == Pairs(rest, ids) + own && Pairs(rest, ids) !! own;
      assert |names| == |rest| + 1;
      assert (|rest| + 1) * |ids| == |rest| * |ids| + |ids|;
    }
  }

  lemma {:induction false} ImageHasSameSize<S, T>(x: S, ids: set<T>)
    ensures |set i | i in ids :: (x, i)| == |ids|
    decreases |ids|
  {
    if ids == {} {
      assert (set i | i in ids :: (x, i)) == {};
    } else {
      var k :| k in ids;
      var image := set i | i in ids :: (x, i);
      var rest := ids - {k};
      ImageHasSameSize(x, rest);
      assert image == (set i | i in rest :: (x, i)) + {(x, k)};
    }
  }

  lemma MessageIsJoined(messages: Messages, mailbox: string, id: int)
    requires id in messages && Belongs(messages[id], mailbox, "default")
    ensures Some(id) in MessagesFor(messages, mailbox)
  {
    var hits := set i | i in messages && Belongs(messages[i], mailbox, "default") :: Some(i);
    assert Some(id) in hits;
  }

  /** The gateway counts each message once per box of the group. */
  lemma GatewayCountsPerBox(t: Tables, messages: Messages, gateway: Name, username: string, number: string,
                            pattern: string)
    ensures |Counted(t, messages, gateway, username, number, pattern)|
         == |Group(t, gateway, username, number)| * |InFolder(messages, number, "default", pattern)|
  {
    var boxes, ids := Group(t, gateway, username, number), InFolder(messages, number, "default", pattern);
    var counted := Counted(t, messages, gateway, username, number, pattern);
    forall b, i | b in boxes && i in ids ensures (b, i) in counted {
      MessageIsJoined(messages, number, i);
      assert Some(i) in MessagesFor(messages, t.mailboxes[b].mailbox);
    }
    assert counted == Pairs(boxes, ids);
    PairsMultiply(boxes, ids);
  }

  lemma GatewayTriple(t: Tables, messages: Messages, gateway: Name, username: string, number: string)
    ensures var n, c := |Group(t, gateway, username, number)|, MessageCounts(messages, number, "default");
      GroupCounts(t, messages, gateway, username, number) == Counts(n * c.unread, n * c.read, n * c.urgent)
  {
    GatewayCountsPerBox(t, messages, gateway, username, number, INBOX);
    GatewayCountsPerBox(t, messages, gateway, username, number, OLD);
    GatewayCountsPerBox(t, messages, gateway, username, number, URGENT);
  }

  lemma OneBoxCounts(t: Tables, messages: Messages, gateway: Name, username: string, number: string)
    requires |Group(t, gateway, username, number)| == 1
    ensures GroupCounts(t, messages, gateway, username, number) == MessageCounts(messages, number, "default")
  {
    GatewayTriple(t, messages, gateway, username, number);
  }

  lemma OneInboxMessage(number: string) returns (messages: Messages)
    ensures MessageCounts(messages, number, "default").unread == 1
  {
    messages := map[0 := Message(Some(number), Some("default"), "/INBOX")];
    FolderTests("/INBOX");
    assert InFolder(messages, number, "default", INBOX) == {0};
  }

  ghost predicate AlwaysAgree(t: Tables, gateway: Name, username: string, number: string) {
    forall messages :: GroupCounts(t, messages, gateway, username, number) == MessageCounts(messages, number, "default")
  }

  /** For every mailbox of a user: the gateway's triple is the operator's, whatever the messages are,
      exactly when no other box of that user has the same number. */
  lemma CountsAgreeIffOneBox(t: Tables, gateway: Name, username: string, number: string)
    ensures AlwaysAgree(t, gateway, username, number) <==> |Group(t, gateway, username, number)| == 1
  {
    if |Group(t, gateway, username, number)| == 1 {
      forall messages ensures
        GroupCounts(t, messages, gateway, username, number) == MessageCounts(messages, number, "default")
      {
        OneBoxCounts(t, messages, gateway, username, number);
      }
    } else {
      var one := OneInboxMessage(number);
      GatewayTriple(t, one, gateway, username, number);
      assert GroupCounts(t, one, gateway, username, number) != MessageCounts(one, number, "default");
    }
  }

  // ---- what the gateway is told ----

  /** One row of the grouped query, which its `limit 1` leaves open; no row for a user without boxes. */
  ghost predicate MayReport(t: Tables, messages: Messages, gateway: Name, username: string,
                            report: Option<(string, Counts)>) {
    match report
    case None => BoxesOf(t, gateway, username) == {}
    case Some(row) =>
      && Group(t, gateway, username, row.0) != {}
      && row.1 == GroupCounts(t, messages, gateway, username, row.0)
  }

  /** How many of a mailbox's messages are in the folder of this name. */
  function FolderCount(messages: Messages, number: string, folder: string): int {
    |set id | id in messages && messages[id].mailboxUser == Some(number)
              && messages[id].mailboxContext == Some("default") && Like.EndsWith(messages[id].dir, "/" + folder)|
  }

  lemma PatternCountsFolder(messages: Messages, number: string, pattern: string, folder: string)
    requires forall dir :: Like.Matches(dir, pattern) <==> Like.EndsWith(dir, "/" + folder)
    ensures |InFolder(messages, number, "default", pattern)| == FolderCount(messages, number, folder)
  {
    var counted := set id | id in messages && messages[id].mailboxUser == Some(number)
      && messages[id].mailboxContext == Some("default") && Like.EndsWith(messages[id].dir, "/" + folder);
    forall id ensures id in InFolder(messages, number, "default", pattern) <==> id in counted {
      if id in messages {
        assert Like.Matches(messages[id].dir, pattern) <==> Like.EndsWith(messages[id].dir, "/" + folder);
      }
    }
    assert InFolder(messages, number, "default", pattern) == counted;
  }

  /** The operator's counts are those of the three folders, in this order. */
  lemma CountsAreOfFolders(messages: Messages, number: string)
    ensures MessageCounts(messages, number, "default")
         == Counts(FolderCount(messages, number, "INBOX"), FolderCount(messages, number, "Old"),
                   FolderCount(messages, number, "Urgent"))
  {
    assert "/" + "INBOX" == "/INBOX" && "/" + "Old" == "/Old" && "/" + "Urgent" == "/Urgent";
    forall dir
      ensures Like.Matches(dir, INBOX) <==> Like.EndsWith(dir, "/" + "INBOX")
      ensures Like.Matches(dir, OLD) <==> Like.EndsWith(dir, "/" + "Old")
      ensures Like.Matches(dir, URGENT) <==> Like.EndsWith(dir, "/" + "Urgent")
    {
      FolderTests(dir);
    }
    PatternCountsFolder(messages, number, INBOX, "INBOX");
    PatternCountsFolder(messages, number, OLD, "Old");
    PatternCountsFolder(messages, number, URGENT, "Urgent");
  }

  /** A user with one mailbox on a gateway, whatever others have there or the user has elsewhere, is
      reported exactly that mailbox's number with its new, old and urgent messages. */
  lemma OneMailboxOneReport(t: Tables, messages: Messages, gateway: Name, username: string, box: Name,
                            report: Option<(string, Counts)>)
    requires box in t.mailboxes
    requires t.mailboxes[box].gateway == gateway && t.mailboxes[box].sipAuthUsername == username
    requires forall b :: b in t.mailboxes && b != box && t.mailboxes[b].gateway == gateway ==>
      t.mailboxes[b].sipAuthUsername != username
    ensures var number := t.mailboxes[box].mailbox;
      MayReport(t, messages, gateway, username, report)
      <==> report == Some((number, Counts(FolderCount(messages, number, "INBOX"), FolderCount(messages, number, "Old"),
                                          FolderCount(messages, number, "Urgent"))))
  {
    var number := t.mailboxes[box].mailbox;
    assert BoxesOf(t, gateway, username) == {box};
    OneBoxOneGroup(t, gateway, username, box, number);
    OneBoxCounts(t, messages, gateway, username, number);
    CountsAreOfFolders(messages, number);
    if report.Some? {
      OneBoxOneGroup(t, gateway, username, box, report.value.0);
    }
  }

  /** Nothing is reported exactly for a user without a mailbox on the gateway. */
  lemma NoMailboxNoReport(t: Tables, messages: Messages, gateway: Name, username: string)
    ensures MayReport(t, messages, gateway, username, None) <==>
      forall b :: b in t.mailboxes && t.mailboxes[b].gateway == gateway ==> t.mailboxes[b].sipAuthUsername != username
  {
    forall b ensures b in BoxesOf(t, gateway, username) <==>
      b in t.mailboxes && t.mailboxes[b].gateway == gateway && t.mailboxes[b].sipAuthUsername == username
    {
    }
  }

  lemma OneBoxOneGroup(t: Tables, gateway: Name, username: string, box: Name, number: string)
    requires BoxesOf(t, gateway, username) == {box}
    ensures box in t.mailboxes
    ensures Group(t, gateway, username, number) == if number == t.mailboxes[box].mailbox then {box} else {}
  {
    assert box in BoxesOf(t, gateway, username);
    forall b ensures b in Group(t, gateway, username, number) <==> b == box && t.mailboxes[box].mailbox == number {
      assert b in BoxesOf(t, gateway, username) <==> b == box;
    }
  }

  ghost predicate ReportsAgree(t: Tables, gateway: Name, username: string) {
    forall messages, report :: MayReport(t, messages, gateway, username, report) && report.Some? ==>
      report.value.1 == MessageCounts(messages, report.value.0, "default")
  }

  /** Every possible report of a user's mailbox has the operator's counts, whatever the messages are,
      exactly when no two of the user's boxes share a number. */
  lemma ReportsAgreeIffNumbersDiffer(t: Tables, gateway: Name, username: string)
    ensures ReportsAgree(t, gateway, username) <==> forall number :: |Group(t, gateway, username, number)| <= 1
  {
    if forall number :: |Group(t, gateway, username, number)| <= 1 {
      forall messages, report | MayReport(t, messages, gateway, username, report) && report.Some?
        ensures report.value.1 == MessageCounts(messages, report.value.0, "default")
      {
        OneBoxCounts(t, messages, gateway, username, report.value.0);
      }
    } else {
      var number :| |Group(t, gateway, username, number)| > 1;
      var one := OneInboxMessage(number);
      GatewayTriple(t, one, gateway, username, number);
      var report := Some((number, GroupCounts(t, one, gateway, username, number)));
      assert MayReport(t, one, gateway, username, report);
    }
  }

  /** Two mailboxes of one user may have the same number, and then the counts differ. */
  lemma SharedBoxIsReachable(md5: Md5, n: Name, a: MailboxSpec, m: Name, b: MailboxSpec)
    requires n != m && a.gateway == b.gateway && a.sipAuthUsername == b.sipAuthUsername && a.mailbox == b.mailbox
    ensures var t := Run(md5, EMPTY_TABLES, [OnMailbox(Put(n, a)), OnMailbox(Put(m, b))]);
      && Group(t, a.gateway, a.sipAuthUsername, a.mailbox) == {n, m}
      && !AlwaysAgree(t, a.gateway, a.sipAuthUsername, a.mailbox)
  {
    Voicemail.TwoMailboxes(md5, n, a, m, b);
    var t := Run(md5, EMPTY_TABLES, [OnMailbox(Put(n, a)), OnMailbox(Put(m, b))]);
    assert Group(t, a.gateway, a.sipAuthUsername, a.mailbox) == {n, m};
    CountsAgreeIffOneBox(t, a.gateway, a.sipAuthUsername, a.mailbox);
  }

  /** Each pattern is a test of the folder name at the end of the path. */
  lemma FolderTests(dir: string)
    ensures Like.Matches(dir, INBOX) <==> Like.EndsWith(dir, "/INBOX")
    ensures Like.Matches(dir, OLD) <==> Like.EndsWith(dir, "/Old")
    ensures Like.Matches(dir, URGENT) <==> Like.EndsWith(dir, "/Urgent")
  {
    Like.SuffixPattern(dir, "/INBOX");
    Like.SuffixPattern(dir, "/Old");
    Like.SuffixPattern(dir, "/Urgent");
    assert "%" + "/INBOX" == INBOX && "%" + "/Old" == OLD && "%" + "/Urgent" == URGENT;
  }

  lemma FoldersDiffer(dir: string)
    ensures !(Like.Matches(dir, INBOX) && Like.Matches(dir, OLD))
    ensures !(Like.Matches(dir, INBOX) && Like.Matches(dir, URGENT))
    ensures !(Like.Matches(dir, OLD) && Like.Matches(dir, URGENT))
  {
    FolderTests(dir);
    if Like.EndsWith(dir, "/INBOX") { assert dir[|dir| - 1] == dir[|dir| - 6..][5] == 'X'; }
    if Like.EndsWith(dir, "/Old") { assert dir[|dir| - 1] == dir[|dir| - 4..][3] == 'd'; }
    if Like.EndsWith(dir, "/Urgent") { assert dir[|dir| - 1] == dir[|dir| - 7..][6] == 't'; }
  }

  /** No message is counted twice: the three classes are disjoint, and their counts add up to at most
      the mailbox's messages. */
  lemma CountsAreOfDifferentMessages(messages: Messages, mailbox: string, context: string)
    ensures InFolder(messages, mailbox, context, INBOX) !! InFolder(messages, mailbox, context, OLD)
    ensures InFolder(messages, mailbox, context, INBOX) !! InFolder(messages, mailbox, context, URGENT)
    ensures InFolder(messages, mailbox, context, OLD) !! InFolder(messages, mailbox, context, URGENT)
    ensures var c := MessageCounts(messages, mailbox, context);
      c.unread + c.read + c.urgent <= |set id | id in messages && Belongs(messages[id], mailbox, context)|
  {
    var a, b := InFolder(messages, mailbox, context, INBOX), InFolder(messages, mailbox, context, OLD);
    var c := InFolder(messages, mailbox, context, URGENT);
    var all := set id | id in messages && Belongs(messages[id], mailbox, context);
    forall id | id in all ensures !(id in a && id in b) && !(id in a && id in c) && !(id in b && id in c) {
      FoldersDiffer(messages[id].dir);
    }
    assert a !! b && (a + b) !! c;
    assert |a + b + c| == |a| + |b| + |c|;
    SubsetIsNoLarger(a + b + c, all);
  }
}
