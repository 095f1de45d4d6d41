/** Operations shared by the five collections: each collection is a map from the
    application-assigned integer id to the stored document. */
module Store {

  /** A set with no members is the empty set. */
  lemma MemberlessIsEmpty(s: set<int>)
    ensures (forall x :: x !in s) ==> s == {}
  {
    if forall x :: x !in s {
      assert forall x :: x in s <==> x in {};
    }
  }

  /** Every non-empty finite set of ids has a largest element; the result is one. */
  lemma {:induction false} Largest(s: set<int>) returns (m: int)
    requires s != {}
    ensures m in s
    ensures forall k | k in s :: k <= m
    decreases s
  {
    MemberlessIsEmpty(s);
    var x :| x in s;
    var rest := s - {x};
    if rest == {} {
      assert s == {x};
      m := x;
    } else {
      var r := Largest(rest);
      assert s == rest + {x};
      m := if x <= r then r else x;
    }
  }

  lemma MaxExists(s: set<int>)
    requires s != {}
    ensures exists m :: m in s && forall k | k in s :: k <= m
  {
    var m := Largest(s);
  }

  /** The id of the document a descending sort on "id" puts first. */
  function MaxKey(s: set<int>): (m: int)
    requires s != {}
    ensures m in s
    ensures forall k | k in s :: k <= m
  {
    MaxExists(s);
    var m :| m in s && forall k | k in s :: k <= m;
    m
  }

  /** The id every create route gives its new document: one more than the largest id in
      the collection, or 1 when the collection is empty. */
  function NextId<V>(m: map<int, V>): (id: int)
    ensures id !in m
    ensures forall k | k in m :: k < id
    ensures m.Keys == {} ==> id == 1
    ensures m.Keys != {} ==> id - 1 in m
  {
    if m.Keys == {} then 1 else MaxKey(m.Keys) + 1
  }

  /** NextId is the only id that is above every present id and whose predecessor is present
      (or is 1 on an empty collection), so any implementation of the rule agrees with it. */
  lemma NextIdUnique<V>(m: map<int, V>, n: int)
    requires forall k | k in m :: k < n
    requires if m.Keys == {} then n == 1 else n - 1 in m
    ensures NextId(m) == n
  {
  }

  /** When collection ids are never negative, the assigned id is positive. */
  lemma NextIdPositive<V>(m: map<int, V>)
    requires forall k | k in m :: k >= 0
    ensures NextId(m) >= 1
  {
  }

  /** Two creates in a row hand out consecutive ids. */
  lemma ConsecutiveIds<V>(m: map<int, V>, v: V)
    ensures NextId(m[NextId(m) := v]) == NextId(m) + 1
  {
  }

  /** Removing the document just inserted under the next id gives back the collection. */
  lemma InsertThenRemove<V>(m: map<int, V>, v: V)
    ensures m[NextId(m) := v] - {NextId(m)} == m
  {
  }

  /** Ids are not reserved forever: after deleting the newest document, the next create
      receives an id no larger than the deleted one. */
  lemma NewestIdReissued<V>(m: map<int, V>)
    requires m.Keys != {}
    requires forall k | k in m :: k >= 1
    ensures NextId(m - {NextId(m) - 1}) <= NextId(m) - 1
  {
  }
}
