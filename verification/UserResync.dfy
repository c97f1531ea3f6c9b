/** Re-syncing SIP users, whose unique constraints span resources: when a pass commits in every
    order, what it then leaves behind, and exactly when repeated passes converge. */
module UserResync {
  import opened Common
  import opened DialPlan
  import opened Refinement

  /** The reconciles of these users, in this order; `asked` is the spec of each SIPUser resource. */
  function Reconciles(asked: map<Name, UserSpec>, order: seq<Name>): seq<Op>
    requires forall n :: n in order ==> n in asked
  {
    if order == [] then [] else [OnUser(Put(order[0], asked[order[0]]))] + Reconciles(asked, order[1..])
  }

  function After(md5: Md5, t: Tables, asked: map<Name, UserSpec>, n: Name): Tables
    requires n in asked
  {
    Apply(md5, t, OnUser(Put(n, asked[n]))).tables
  }

  /** The user rows after one reconcile: refused, or with the row asked for. */
  function UsersAfter(users: map<Name, UserRow>, asked: map<Name, UserSpec>, n: Name): map<Name, UserRow>
    requires n in asked
  {
    if Taken(users, n, UserOf(asked[n])) then users else users[n := UserOf(asked[n])]
  }

  lemma ReconcileOne(md5: Md5, t: Tables, asked: map<Name, UserSpec>, n: Name)
    requires n in asked
    ensures After(md5, t, asked, n).users == UsersAfter(t.users, asked, n)
    ensures After(md5, t, asked, n).subscribers
         == if Taken(t.users, n, UserOf(asked[n])) then t.subscribers
            else t.subscribers[(asked[n].username, asked[n].domain) := SubscriberOf(md5, n, asked[n])]
  {
  }

  lemma FirstReconcile(md5: Md5, t: Tables, asked: map<Name, UserSpec>, order: seq<Name>)
    requires order != [] && forall n :: n in order ==> n in asked
    ensures Run(md5, t, Reconciles(asked, order))
         == Run(md5, After(md5, t, asked, order[0]), Reconciles(asked, order[1..]))
  {
    assert Reconciles(asked, order)[1..] == Reconciles(asked, order[1..]);
  }

  // ---- when a pass commits in every order ----

  /** Every transaction of the run commits. */
  ghost predicate AllCommit(md5: Md5, t: Tables, ops: seq<Op>)
    decreases |ops|
  {
    ops != [] ==> Commits(t, ops[0]) && AllCommit(md5, Apply(md5, t, ops[0]).tables, ops[1..])
  }

  /** No two of the rows asked for may not stand together. */
  ghost predicate GoalsApart(asked: map<Name, UserSpec>) {
    forall n, m :: n in asked && m in asked && n != m ==> !Clash(UserOf(asked[n]), UserOf(asked[m]))
  }

  /** What an operator can look up before the pass: no request has the identity of a stored user
      other than its own, nor of another request. */
  ghost predicate Compatible(users: map<Name, UserRow>, asked: map<Name, UserSpec>) {
    && (forall n, m :: n in asked && m in users && m != n ==> !Clash(users[m], UserOf(asked[n])))
    && GoalsApart(asked)
  }

  /** The tables after reconciling the listed users, all accepted: their rows and credentials are as
      asked, and every other row of every table is as before. */
  ghost predicate Reconciled(md5: Md5, t: Tables, t': Tables, asked: map<Name, UserSpec>, order: seq<Name>) {
    && t' == t.(users := t'.users, subscribers := t'.subscribers)
    && (forall n :: n in order && n in asked ==>
          Lookup(t'.users, n) == Some(UserOf(asked[n])) && Holds(md5, t'.subscribers, n, asked[n]))
    && (forall n :: n !in order ==> Lookup(t'.users, n) == Lookup(t.users, n))
    && (forall k :: (forall n :: n in order && n in asked ==> k != (asked[n].username, asked[n].domain)) ==>
          Lookup(t'.subscribers, k) == Lookup(t.subscribers, k))
  }

  lemma CompatibleReconcile(md5: Md5, t: Tables, asked: map<Name, UserSpec>, n: Name)
    requires n in asked && Compatible(t.users, asked)
    ensures Commits(t, OnUser(Put(n, asked[n])))
    ensures Compatible(After(md5, t, asked, n).users, asked)
    ensures Reconciled(md5, t, After(md5, t, asked, n), asked, [n])
  {
  }

  lemma {:induction false} CompatiblePass(md5: Md5, t: Tables, asked: map<Name, UserSpec>, order: seq<Name>)
    requires Distinct(order) && forall n :: n in order ==> n in asked
    requires Compatible(t.users, asked)
    ensures var t' := Run(md5, t, Reconciles(asked, order));
      && AllCommit(md5, t, Reconciles(asked, order))
      && Compatible(t'.users, asked)
      && Reconciled(md5, t, t', asked, order)
    decreases |order|
  {
    if order != [] {
      var n, rest := order[0], order[1..];
      var t1 := After(md5, t, asked, n);
      CompatibleReconcile(md5, t, asked, n);
      CompatiblePass(md5, t1, asked, rest);
      FirstReconcile(md5, t, asked, order);
      assert n !in rest && forall m :: m in order <==> m == n || m in rest;
      OneThenTheRest(md5, t, t1, Run(md5, t1, Reconciles(asked, rest)), asked, n, rest);
      SameMembersReconcile(md5, t, Run(md5, t1, Reconciles(asked, rest)), asked, [n] + rest, order);
      assert Reconciles(asked, order)[1..] == Reconciles(asked, rest);
    }
  }

  lemma OneThenTheRest(md5: Md5, t: Tables, t1: Tables, t2: Tables, asked: map<Name, UserSpec>, n: Name,
                        rest: seq<Name>)
    requires GoalsApart(asked) && n in asked && n !in rest && forall m :: m in rest ==> m in asked
    requires Reconciled(md5, t, t1, asked, [n]) && Reconciled(md5, t1, t2, asked, rest)
    ensures Reconciled(md5, t, t2, asked, [n] + rest)
  {
    var mine := (asked[n].username, asked[n].domain);
    forall m | m in rest && m in asked ensures mine != (asked[m].username, asked[m].domain) {
      assert !Clash(UserOf(asked[n]), UserOf(asked[m]));
    }
    assert Lookup(t2.subscribers, mine) == Lookup(t1.subscribers, mine);
    assert Holds(md5, t2.subscribers, n, asked[n]);
  }

  lemma SameMembersReconcile(md5: Md5, t: Tables, t': Tables, asked: map<Name, UserSpec>, a: seq<Name>, b: seq<Name>)
    requires Reconciled(md5, t, t', asked, a) && forall n :: n in a <==> n in b
    ensures Reconciled(md5, t, t', asked, b)
  {
  }

  /** A pass commits in every order exactly when its requests are compatible with the stored users
      and with each other. */
  lemma CommitsInEveryOrderIffCompatible(md5: Md5, t: Tables, asked: map<Name, UserSpec>)
    ensures (forall order :: IsPass(asked, order) ==> AllCommit(md5, t, Reconciles(asked, order)))
       <==> Compatible(t.users, asked)
  {
    if Compatible(t.users, asked) {
      forall order | IsPass(asked, order) ensures AllCommit(md5, t, Reconciles(asked, order)) {
        CompatiblePass(md5, t, asked, order);
      }
    } else if n, m :| n in asked && m in t.users && m != n && Clash(t.users[m], UserOf(asked[n])) {
      var order := PassFrom(asked, [n]);
      assert Taken(t.users, n, UserOf(asked[n])) && order[0] == n;
    } else {
      var n, m :| n in asked && m in asked && n != m && Clash(UserOf(asked[n]), UserOf(asked[m]));
      var order := PassFrom(asked, [n, m]);
      assert order[0] == n && order[1] == m;
      OneOfTwoFails(md5, t, asked, order);
    }
  }

  lemma OneOfTwoFails(md5: Md5, t: Tables, asked: map<Name, UserSpec>, order: seq<Name>)
    requires IsPass(asked, order) && |order| >= 2 && Clash(UserOf(asked[order[0]]), UserOf(asked[order[1]]))
    ensures !AllCommit(md5, t, Reconciles(asked, order))
  {
    var ops, n, m := Reconciles(asked, order), order[0], order[1];
    var t1 := After(md5, t, asked, n);
    assert ops[1..] == Reconciles(asked, order[1..]);
    if Commits(t, ops[0]) {
      assert t1.users[n] == UserOf(asked[n]) && n != m;
      assert Taken(t1.users, m, UserOf(asked[m]));
    }
  }

  // ---- order independence and idempotence ----

  lemma ReconciledTablesAgree(md5: Md5, t: Tables, t1: Tables, t2: Tables, asked: map<Name, UserSpec>,
                              order1: seq<Name>, order2: seq<Name>)
    requires forall n :: n in order1 || n in order2 ==> n in asked && n in order1 && n in order2
    requires Reconciled(md5, t, t1, asked, order1) && Reconciled(md5, t, t2, asked, order2)
    ensures t1 == t2
  {
    forall n ensures Lookup(t1.users, n) == Lookup(t2.users, n) {
      assert n in order1 || n !in order1;
    }
    forall k ensures Lookup(t1.subscribers, k) == Lookup(t2.subscribers, k) {
      if n :| n in order1 && n in asked && k == (asked[n].username, asked[n].domain) {
        assert Holds(md5, t1.subscribers, n, asked[n]) && Holds(md5, t2.subscribers, n, asked[n]);
      }
    }
    SameLookupsSameMap(t1.users, t2.users);
    SameLookupsSameMap(t1.subscribers, t2.subscribers);
  }

  /** A compatible pass ends in the same tables in every order, credentials included. */
  lemma UserPassIsOrderIndependent(md5: Md5, t: Tables, asked: map<Name, UserSpec>, order: seq<Name>,
                                 shuffled: seq<Name>)
    requires Compatible(t.users, asked) && IsPass(asked, order) && IsPass(asked, shuffled)
    ensures Run(md5, t, Reconciles(asked, order)) == Run(md5, t, Reconciles(asked, shuffled))
  {
    CompatiblePass(md5, t, asked, order);
    CompatiblePass(md5, t, asked, shuffled);
    ReconciledTablesAgree(md5, t, Run(md5, t, Reconciles(asked, order)), Run(md5, t, Reconciles(asked, shuffled)),
                          asked, order, shuffled);
  }

  /** A second pass, in whatever order, changes nothing. */
  lemma UserPassIsIdempotent(md5: Md5, t: Tables, asked: map<Name, UserSpec>, order: seq<Name>, again: seq<Name>)
    requires Compatible(t.users, asked) && IsPass(asked, order) && IsPass(asked, again)
    ensures var t1 := Run(md5, t, Reconciles(asked, order)); Run(md5, t1, Reconciles(asked, again)) == t1
  {
    var t1 := Run(md5, t, Reconciles(asked, order));
    var t2 := Run(md5, t1, Reconciles(asked, again));
    CompatiblePass(md5, t, asked, order);
    CompatiblePass(md5, t1, asked, again);
    assert Reconciled(md5, t1, t1, asked, again);
    ReconciledTablesAgree(md5, t1, t1, t2, asked, again, again);
  }

  // ---- when repeated passes converge ----

  /** What the unique constraints guarantee of the stored rows. */
  ghost predicate RowsApart(users: map<Name, UserRow>) {
    forall n, m :: n in users && m in users && n != m ==> !Clash(users[n], users[m])
  }

  /** They do in every store that pictures a plan, so in every reachable one. */
  lemma StoredRowsAreApart(md5: Md5, t: Tables, p: Plan)
    requires Stands(md5, t, p)
    ensures RowsApart(t.users)
  {
    forall n, m | n in t.users && m in t.users && n != m ensures !Clash(t.users[n], t.users[m]) {
      assert t.users[n] == UserOf(p.users[n]) && t.users[m] == UserOf(p.users[m]);
      assert !SameIdentity(p.users[n], p.users[m]);
    }
  }

  /** The user has the row and the credential it asks for. */
  ghost predicate Served(md5: Md5, t: Tables, asked: map<Name, UserSpec>, n: Name) {
    n in asked && Lookup(t.users, n) == Some(UserOf(asked[n])) && Holds(md5, t.subscribers, n, asked[n])
  }

  ghost predicate Converged(md5: Md5, t: Tables, asked: map<Name, UserSpec>) {
    forall n :: n in asked ==> Served(md5, t, asked, n)
  }

  /** The stored row of `m` stands in the way of `n`. */
  predicate Blocks(users: map<Name, UserRow>, asked: map<Name, UserSpec>, n: Name, m: Name) {
    n in asked && m in users && m != n && Clash(users[m], UserOf(asked[n]))
  }

  /** Users that wait for each other, or for somebody nobody asks to change. */
  ghost predicate Stuck(users: map<Name, UserRow>, asked: map<Name, UserSpec>, group: set<Name>) {
    && group != {} && group <= asked.Keys
    && forall n :: n in group ==> exists m :: Blocks(users, asked, n, m) && (m in group || m !in asked)
  }

  ghost predicate NothingStuck(users: map<Name, UserRow>, asked: map<Name, UserSpec>) {
    forall group :: !Stuck(users, asked, group)
  }

  predicate Free(users: map<Name, UserRow>, asked: map<Name, UserSpec>, n: Name) {
    n in asked && !Taken(users, n, UserOf(asked[n]))
  }

  /** The tables after several passes. */
  function AfterPasses(md5: Md5, t: Tables, asked: map<Name, UserSpec>, passes: seq<seq<Name>>): Tables
    requires forall i, n :: 0 <= i < |passes| && n in passes[i] ==> n in asked
    decreases |passes|
  {
    if passes == [] then t else AfterPasses(md5, Run(md5, t, Reconciles(asked, passes[0])), asked, passes[1..])
  }

  ghost predicate ArePasses(asked: map<Name, UserSpec>, passes: seq<seq<Name>>) {
    forall i :: 0 <= i < |passes| ==> IsPass(asked, passes[i])
  }

  // A group that is stuck stays stuck.

  lemma StuckStays(users: map<Name, UserRow>, asked: map<Name, UserSpec>, group: set<Name>, n: Name)
    requires n in asked && Stuck(users, asked, group)
    ensures Stuck(UsersAfter(users, asked, n), asked, group)
    ensures forall m :: m in group ==> Lookup(UsersAfter(users, asked, n), m) == Lookup(users, m)
  {
    var users' := UsersAfter(users, asked, n);
    if n in group {
      var b :| Blocks(users, asked, n, b);
      assert Taken(users, n, UserOf(asked[n]));
    } else {
      forall m | m in group ensures exists b :: Blocks(users', asked, m, b) && (b in group || b !in asked) {
        var b :| Blocks(users, asked, m, b) && (b in group || b !in asked);
        assert Blocks(users', asked, m, b);
      }
    }
  }

  lemma {:induction false} StuckThroughRun(md5: Md5, t: Tables, asked: map<Name, UserSpec>, group: set<Name>,
                                           order: seq<Name>)
    requires Stuck(t.users, asked, group) && forall n :: n in order ==> n in asked
    ensures var users' := Run(md5, t, Reconciles(asked, order)).users;
      Stuck(users', asked, group) && forall m :: m in group ==> Lookup(users', m) == Lookup(t.users, m)
    decreases |order|
  {
    if order != [] {
      FirstReconcile(md5, t, asked, order);
      ReconcileOne(md5, t, asked, order[0]);
      StuckStays(t.users, asked, group, order[0]);
      StuckThroughRun(md5, After(md5, t, asked, order[0]), asked, group, order[1..]);
    }
  }

  lemma {:induction false} RunKeepsRowsApart(md5: Md5, t: Tables, asked: map<Name, UserSpec>, order: seq<Name>)
    requires RowsApart(t.users) && forall n :: n in order ==> n in asked
    ensures RowsApart(Run(md5, t, Reconciles(asked, order)).users)
    decreases |order|
  {
    if order != [] {
      FirstReconcile(md5, t, asked, order);
      RunKeepsRowsApart(md5, After(md5, t, asked, order[0]), asked, order[1..]);
    }
  }

  lemma {:induction false} PassesKeepRowsApart(md5: Md5, t: Tables, asked: map<Name, UserSpec>, passes: seq<seq<Name>>)
    requires RowsApart(t.users) && ArePasses(asked, passes)
    ensures RowsApart(AfterPasses(md5, t, asked, passes).users)
    decreases |passes|
  {
    if passes != [] {
      RunKeepsRowsApart(md5, t, asked, passes[0]);
      PassesKeepRowsApart(md5, Run(md5, t, Reconciles(asked, passes[0])), asked, passes[1..]);
    }
  }

  lemma {:induction false} StuckThroughPasses(md5: Md5, t: Tables, asked: map<Name, UserSpec>, group: set<Name>,
                                              passes: seq<seq<Name>>)
    requires Stuck(t.users, asked, group) && ArePasses(asked, passes)
    ensures Stuck(AfterPasses(md5, t, asked, passes).users, asked, group)
    decreases |passes|
  {
    if passes != [] {
      StuckThroughRun(md5, t, asked, group, passes[0]);
      StuckThroughPasses(md5, Run(md5, t, Reconciles(asked, passes[0])), asked, group, passes[1..]);
    }
  }

  lemma ConvergedMeansNothingStuck(md5: Md5, t: Tables, asked: map<Name, UserSpec>)
    requires RowsApart(t.users) && Converged(md5, t, asked)
    ensures GoalsApart(asked) && NothingStuck(t.users, asked)
  {
    forall n, m | n in asked && m in asked && n != m ensures !Clash(UserOf(asked[n]), UserOf(asked[m])) {
      assert Served(md5, t, asked, n) && Served(md5, t, asked, m);
    }
    forall group | group != {} && group <= asked.Keys ensures !Stuck(t.users, asked, group) {
      var n :| n in group;
      assert Served(md5, t, asked, n);
      assert forall m :: !Blocks(t.users, asked, n, m);
    }
  }

  // When nothing is stuck, every pass serves somebody.

  lemma ReconcileServes(md5: Md5, t: Tables, asked: map<Name, UserSpec>, n: Name)
    requires n in asked && GoalsApart(asked)
    ensures Free(t.users, asked, n) ==> Served(md5, After(md5, t, asked, n), asked, n)
    ensures forall m :: Free(t.users, asked, m) ==> Free(After(md5, t, asked, n).users, asked, m)
  {
  }

  lemma ReconcileKeepsServed(md5: Md5, t: Tables, asked: map<Name, UserSpec>, n: Name, m: Name)
    requires n in asked && GoalsApart(asked) && Served(md5, t, asked, m)
    ensures Served(md5, After(md5, t, asked, n), asked, m)
  {
    ReconcileOne(md5, t, asked, n);
    if m != n {
      assert !Clash(UserOf(asked[m]), UserOf(asked[n]));
    }
  }

  lemma ReconcileUnsticks(users: map<Name, UserRow>, asked: map<Name, UserSpec>, n: Name)
    requires n in asked && GoalsApart(asked) && NothingStuck(users, asked)
    ensures NothingStuck(UsersAfter(users, asked, n), asked)
  {
    var users' := UsersAfter(users, asked, n);
    forall group ensures !Stuck(users', asked, group) {
      if Stuck(users', asked, group) && users' != users {
        forall m | m in group ensures exists b :: Blocks(users, asked, m, b) && (b in group || b !in asked) {
          var b :| Blocks(users', asked, m, b) && (b in group || b !in asked);
          assert b != n by {
            assert users'[n] == UserOf(asked[n]);
          }
          assert Blocks(users, asked, m, b);
        }
        assert Stuck(users, asked, group);
      }
    }
  }

  lemma {:induction false} RunServes(md5: Md5, t: Tables, asked: map<Name, UserSpec>, order: seq<Name>)
    requires GoalsApart(asked) && NothingStuck(t.users, asked) && forall n :: n in order ==> n in asked
    ensures var t' := Run(md5, t, Reconciles(asked, order));
      && NothingStuck(t'.users, asked)
      && (forall n :: Served(md5, t, asked, n) ==> Served(md5, t', asked, n))
      && (forall n :: n in order && Free(t.users, asked, n) ==> Served(md5, t', asked, n))
    decreases |order|
  {
    if order != [] {
      var t1 := After(md5, t, asked, order[0]);
      FirstReconcile(md5, t, asked, order);
      ReconcileServes(md5, t, asked, order[0]);
      ReconcileOne(md5, t, asked, order[0]);
      ReconcileUnsticks(t.users, asked, order[0]);
      forall n | Served(md5, t, asked, n) ensures Served(md5, t1, asked, n) {
        ReconcileKeepsServed(md5, t, asked, order[0], n);
      }
      RunServes(md5, t1, asked, order[1..]);
      assert forall n :: n in order <==> n == order[0] || n in order[1..];
    }
  }

  ghost function Waiting(md5: Md5, t: Tables, asked: map<Name, UserSpec>): set<Name> {
    set n | n in asked && !Served(md5, t, asked, n)
  }

  /** When nothing is stuck, somebody who waits is free to go. */
  lemma SomebodyIsFree(md5: Md5, t: Tables, asked: map<Name, UserSpec>) returns (n: Name)
    requires GoalsApart(asked) && NothingStuck(t.users, asked) && Waiting(md5, t, asked) != {}
    ensures n in Waiting(md5, t, asked) && Free(t.users, asked, n)
  {
    var waiting := Waiting(md5, t, asked);
    assert !Stuck(t.users, asked, waiting);
    n :| n in waiting && forall m :: Blocks(t.users, asked, n, m) ==> m !in waiting && m in asked;
    forall m | m in t.users && m != n ensures !Clash(t.users[m], UserOf(asked[n])) {
      if m in asked && m !in waiting {
        assert Served(md5, t, asked, m);
      } else {
        assert !Blocks(t.users, asked, n, m);
      }
    }
  }

  lemma {:induction false} PassesConverge(md5: Md5, t: Tables, asked: map<Name, UserSpec>, passes: seq<seq<Name>>)
    requires GoalsApart(asked) && NothingStuck(t.users, asked) && ArePasses(asked, passes)
    requires |Waiting(md5, t, asked)| <= |passes|
    ensures Converged(md5, AfterPasses(md5, t, asked, passes), asked)
    decreases |passes|
  {
    if passes == [] {
      assert Waiting(md5, t, asked) == {};
      forall n | n in asked ensures Served(md5, t, asked, n) {
        assert n !in Waiting(md5, t, asked);
      }
    } else {
      var t1 := Run(md5, t, Reconciles(asked, passes[0]));
      RunServes(md5, t, asked, passes[0]);
      var before, after := Waiting(md5, t, asked), Waiting(md5, t1, asked);
      if before != {} {
        var n := SomebodyIsFree(md5, t, asked);
        assert n in passes[0];
        assert n !in after;
        SubsetIsNoLarger(after, before - {n});
      } else {
        assert after == {};
      }
      PassesConverge(md5, t1, asked, passes[1..]);
    }
  }

  /** Every run of as many passes as there are users, each in any order, ends with every user served,
      exactly when the rows asked for may stand together and no group is stuck. Otherwise no run of
      passes, however long, ends so. */
  lemma ConvergesIffNothingStuck(md5: Md5, t: Tables, asked: map<Name, UserSpec>)
    requires RowsApart(t.users)
    ensures (forall passes :: |passes| == |asked| && ArePasses(asked, passes) ==>
               Converged(md5, AfterPasses(md5, t, asked, passes), asked))
       <==> GoalsApart(asked) && NothingStuck(t.users, asked)
    ensures !(GoalsApart(asked) && NothingStuck(t.users, asked)) ==>
      forall passes :: ArePasses(asked, passes) ==> !Converged(md5, AfterPasses(md5, t, asked, passes), asked)
  {
    if GoalsApart(asked) && NothingStuck(t.users, asked) {
      SubsetIsNoLarger(Waiting(md5, t, asked), asked.Keys);
      forall passes | |passes| == |asked| && ArePasses(asked, passes)
        ensures Converged(md5, AfterPasses(md5, t, asked, passes), asked)
      {
        PassesConverge(md5, t, asked, passes);
      }
    } else {
      forall passes | ArePasses(asked, passes) ensures !Converged(md5, AfterPasses(md5, t, asked, passes), asked) {
        NeverConverges(md5, t, asked, passes);
      }
      var order := PassFrom(asked, []);
      var passes := seq(|asked|, _ => order);
      assert ArePasses(asked, passes);
    }
  }

  lemma NeverConverges(md5: Md5, t: Tables, asked: map<Name, UserSpec>, passes: seq<seq<Name>>)
    requires RowsApart(t.users) && ArePasses(asked, passes)
    requires !(GoalsApart(asked) && NothingStuck(t.users, asked))
    ensures !Converged(md5, AfterPasses(md5, t, asked, passes), asked)
  {
    var t' := AfterPasses(md5, t, asked, passes);
    PassesKeepRowsApart(md5, t, asked, passes);
    if Converged(md5, t', asked) {
      ConvergedMeansNothingStuck(md5, t', asked);
      var group :| Stuck(t.users, asked, group);
      StuckThroughPasses(md5, t, asked, group, passes);
      assert false;
    }
  }

  // ---- two users in each other's way ----

  /** Two users whose requests clash with each other's stored rows keep those rows, however often and
      in whatever order either is reconciled. */
  lemma MutualBlock(md5: Md5, t: Tables, asked: map<Name, UserSpec>, a: Name, b: Name, order: seq<Name>)
    requires Blocks(t.users, asked, a, b) && Blocks(t.users, asked, b, a) && forall n :: n in order ==> n in asked
    ensures var users' := Run(md5, t, Reconciles(asked, order)).users;
      Lookup(users', a) == Lookup(t.users, a) && Lookup(users', b) == Lookup(t.users, b)
  {
    assert Stuck(t.users, asked, {a, b});
    StuckThroughRun(md5, t, asked, {a, b}, order);
  }

  /** Any two users of a gateway can be created; once their specs exchange usernames, they are stuck. */
  lemma ExchangedUsernamesNeverConverge(md5: Md5, a: Name, b: Name, u: UserSpec, v: UserSpec, order: seq<Name>)
    requires a != b && u.domain == v.domain && !SameIdentity(u, v)
    requires forall n :: n in order ==> n == a || n == b
    ensures var t := Run(md5, EMPTY_TABLES, [OnUser(Put(a, u)), OnUser(Put(b, v))]);
      var asked := map[a := u.(username := v.username), b := v.(username := u.username)];
      && t.users == map[a := UserOf(u), b := UserOf(v)]
      && Run(md5, t, Reconciles(asked, order)).users == t.users
  {
    var asked := map[a := u.(username := v.username), b := v.(username := u.username)];
    var t1 := Apply(md5, EMPTY_TABLES, OnUser(Put(a, u))).tables;
    var t := Apply(md5, t1, OnUser(Put(b, v))).tables;
    assert [OnUser(Put(a, u)), OnUser(Put(b, v))][1..] == [OnUser(Put(b, v))];
    assert Run(md5, t1, [OnUser(Put(b, v))]) == t;
    assert Blocks(t.users, asked, a, b) && Blocks(t.users, asked, b, a);
    MutualBlock(md5, t, asked, a, b, order);
    OnlyAskedChange(md5, t, asked, order);
    var users' := Run(md5, t, Reconciles(asked, order)).users;
    forall n ensures Lookup(users', n) == Lookup(t.users, n) {
      assert n == a || n == b || n !in asked;
    }
    SameLookupsSameMap(users', t.users);
  }

  lemma {:induction false} OnlyAskedChange(md5: Md5, t: Tables, asked: map<Name, UserSpec>, order: seq<Name>)
    requires forall n :: n in order ==> n in asked
    ensures forall n :: n !in asked ==> Lookup(Run(md5, t, Reconciles(asked, order)).users, n) == Lookup(t.users, n)
    decreases |order|
  {
    if order != [] {
      FirstReconcile(md5, t, asked, order);
      OnlyAskedChange(md5, After(md5, t, asked, order[0]), asked, order[1..]);
    }
  }
}
