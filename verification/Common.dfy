/** Vocabulary shared by every part of the model. */
module Common {

  datatype Option<+T> = None | Some(value: T)

  /** The name of a custom resource. All resources live in the one namespace the operator watches. */
  type Name = string

  predicate Distinct<T(==)>(s: seq<T>) {
    forall i, j :: 0 <= i < j < |s| ==> s[i] != s[j]
  }

  /** The database's text collation, as the rank of a name. A name has at most 63 characters, so
      every deterministic total order on names is given by such a ranking. */
  type Collation = Name -> int

  ghost predicate Deterministic(rank: Collation) {
    forall a, b :: rank(a) == rank(b) ==> a == b
  }

  lemma SubsetIsNoLarger<T>(a: set<T>, b: set<T>)
    requires a <= b
    ensures |a| <= |b|
  {
    assert b == a + (b - a);
  }

  function One(b: bool): nat { if b then 1 else 0 }

  /** PostgreSQL's `coalesce(column, '')`. */
  function OrEmpty(column: Option<string>): string {
    if column.Some? then column.value else ""
  }

  /** Python's truth value of a nullable string. */
  predicate Truthy(value: Option<string>) {
    value.Some? && value.value != ""
  }

  /** One pass of the timer: every resource asked for, once. */
  ghost predicate IsPass<S>(asked: map<Name, S>, order: seq<Name>) {
    Distinct(order) && forall n :: n in order <==> n in asked
  }

  /** There is a pass that begins with any chosen resources. */
  lemma PassFrom<S>(asked: map<Name, S>, head: seq<Name>) returns (order: seq<Name>)
    requires Distinct(head) && forall n :: n in head ==> n in asked
    ensures IsPass(asked, order) && head <= order
  {
    order := head;
    ghost var rest := asked.Keys - set n | n in head;
    while rest != {}
      invariant Distinct(order) && head <= order
      invariant forall n :: n in asked <==> n in order || n in rest
      invariant forall n :: n in rest ==> n !in order
      decreases |rest|
    {
      var n :| n in rest;
      order, rest := order + [n], rest - {n};
    }
  }

  lemma PassTo<S>(asked: map<Name, S>, last: Name) returns (order: seq<Name>)
    requires last in asked
    ensures IsPass(asked, order) && order != [] && order[|order| - 1] == last
  {
    var rest := PassFrom(asked - {last}, []);
    assert last !in rest;
    order := rest + [last];
    assert forall n :: n in order <==> n in rest || n == last;
  }

  lemma PassLength<S>(asked: map<Name, S>, order: seq<Name>)
    requires IsPass(asked, order)
    ensures |order| == |asked|
  {
    DistinctLength(order);
    assert (set n | n in order) == asked.Keys;
  }

  lemma {:induction false} DistinctLength(s: seq<Name>)
    requires Distinct(s)
    ensures |set n | n in s| == |s|
    decreases |s|
  {
    if s != [] {
      var last := |s| - 1;
      DistinctLength(s[..last]);
      assert s == s[..last] + [s[last]];
      assert (set n | n in s) == (set n | n in s[..last]) + {s[last]};
    }
  }
}
