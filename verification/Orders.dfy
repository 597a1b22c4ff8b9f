/** Least elements of finite sets under a strict total order. */
module Orders {

  ghost predicate Orders<T(!new)>(less: (T, T) -> bool, ids: set<T>) {
    && (forall i, j :: i in ids && j in ids && i != j ==> less(i, j) || less(j, i))
    && (forall i, j, k :: i in ids && j in ids && k in ids && less(i, j) && less(j, k) ==> less(i, k))
  }

  ghost predicate IsLeast<T(!new)>(less: (T, T) -> bool, ids: set<T>, i: T) {
    i in ids && forall j :: j in ids && j != i ==> less(i, j)
  }

  lemma {:induction false} LeastExists<T(!new)>(less: (T, T) -> bool, ids: set<T>)
    requires ids != {} && Orders(less, ids)
    ensures exists i :: IsLeast(less, ids, i)
    decreases ids
  {
    var i :| i in ids;
    if ids == {i} {
      assert IsLeast(less, ids, i);
    } else {
      var rest := ids - {i};
      LeastExists(less, rest);
      var k :| IsLeast(less, rest, k);
      var least := if less(i, k) then i else k;
      forall j | j in ids && j != least ensures less(least, j) {
        if j != i && j != k { assert less(k, j); }
      }
      assert IsLeast(less, ids, least);
    }
  }

  ghost function Least<T(!new)>(less: (T, T) -> bool, ids: set<T>): (i: T)
    requires ids != {} && Orders(less, ids)
    ensures IsLeast(less, ids, i)
  {
    LeastExists(less, ids);
    var i :| IsLeast(less, ids, i);
    i
  }
}
