/** The merged-into relation of memris entities: who stands for whom. */
module MergeForest {
  import opened Records

  type Entities = map<Id, Entity>

  /** m reaches e by following exactly n merge pointers upward. */
  ghost predicate Climbs(es: Entities, m: Id, e: Id, n: nat)
    decreases n
  {
    if n == 0 then m == e
    else m in es && es[m].mergedInto.Some? && Climbs(es, es[m].mergedInto.value, e, n - 1)
  }

  ghost predicate Under(es: Entities, m: Id, e: Id) {
    exists n: nat :: Climbs(es, m, e, n)
  }

  /** e and everything merged into it, directly or not. */
  ghost function Group(es: Entities, e: Id): set<Id> {
    {e} + set m | m in es && Under(es, m, e)
  }

  predicate Root(es: Entities, e: Id) {
    e in es && es[e].mergedInto.None?
  }

  /** The pointers followed upward from cur, stopping before one that would close a cycle. */
  function Walk(es: Entities, origin: Id, cur: Id, seen: set<Id>): Id
    decreases if cur in es then 1 + |es.Keys - seen| else 0
  {
    if cur !in es then origin
    else if es[cur].mergedInto.None? || es[cur].mergedInto.value in seen then cur
    else
      var up := es[cur].mergedInto.value;
      assert up in es ==> es.Keys - (seen + {up}) < es.Keys - seen by {
        assert up in es ==> up in es.Keys - seen && up !in es.Keys - (seen + {up});
      }
      assert up in es ==> |es.Keys - (seen + {up})| < |es.Keys - seen| by {
        if up in es { SmallerSet(es.Keys - (seen + {up}), es.Keys - seen); }
      }
      Walk(es, origin, up, seen + {up})
  }

  /** The entity that e stands for now. */
  function Canon(es: Entities, e: Id): Id {
    Walk(es, e, e, {e})
  }

  lemma SmallerSet<T>(a: set<T>, b: set<T>)
    requires a < b
    ensures |a| < |b|
  {
    var x :| x in b && x !in a;
    assert |b| == |b - {x}| + 1;
    SubsetSize(a, b - {x});
  }

  lemma SubsetSize<T>(a: set<T>, b: set<T>)
    requires a <= b
    ensures |a| <= |b|
  {
    assert b == a + (b - a);
  }

  // ---------------------------------------------------------------- the forest

  /** Every pointer goes to an existing entity and strictly up some ranking of the ids. */
  ghost predicate Ranked(es: Entities, rank: Id -> int) {
    forall m :: m in es && es[m].mergedInto.Some? ==>
      es[m].mergedInto.value in es && rank(m) < rank(es[m].mergedInto.value)
  }

  ghost predicate Forest(es: Entities) {
    exists rank: Id -> int :: Ranked(es, rank)
  }

  ghost function RankOf(es: Entities): (rank: Id -> int)
    requires Forest(es)
    ensures Ranked(es, rank)
  {
    var rank: Id -> int :| Ranked(es, rank);
    rank
  }

  lemma ClimbsRaiseRank(es: Entities, rank: Id -> int, m: Id, e: Id, n: nat)
    requires Ranked(es, rank) && Climbs(es, m, e, n)
    ensures rank(m) + n <= rank(e)
    ensures m in es ==> e in es
    decreases n
  {
    if n > 0 { ClimbsRaiseRank(es, rank, es[m].mergedInto.value, e, n - 1); }
  }

  /** A forest has no cycle. */
  lemma {:induction false} ForestHasNoCycle(es: Entities, e: Id, n: nat)
    requires Forest(es) && Climbs(es, e, e, n)
    ensures n == 0
  {
    var rank := RankOf(es);
    ClimbsRaiseRank(es, rank, e, e, n);
  }

  lemma {:induction false} ClimbsCompose(es: Entities, m: Id, e: Id, f: Id, n: nat, k: nat)
    requires Climbs(es, m, e, n) && Climbs(es, e, f, k)
    ensures Climbs(es, m, f, n + k)
    decreases n
  {
    if n > 0 { ClimbsCompose(es, es[m].mergedInto.value, e, f, n - 1, k); }
  }

  /** Two climbs from one entity: the shorter one is a prefix of the longer. */
  lemma {:induction false} ClimbsDeterministic(es: Entities, m: Id, e: Id, f: Id, n: nat, k: nat)
    requires Climbs(es, m, e, n) && Climbs(es, m, f, n + k)
    ensures Climbs(es, e, f, k)
    decreases n
  {
    if n > 0 { ClimbsDeterministic(es, es[m].mergedInto.value, e, f, n - 1, k); }
  }

  lemma RootIsUnique(es: Entities, m: Id, r: Id, q: Id, n: nat, k: nat)
    requires Climbs(es, m, r, n) && Climbs(es, m, q, k) && Root(es, r) && Root(es, q)
    ensures r == q
  {
    if n <= k { ClimbsDeterministic(es, m, r, q, n, k - n); }
    else { ClimbsDeterministic(es, m, q, r, k, n - k); }
  }

  lemma {:induction false} WalkReachesRoot(es: Entities, rank: Id -> int, e: Id, cur: Id, seen: set<Id>, n: nat)
    requires Ranked(es, rank) && cur in es && Climbs(es, e, cur, n)
    requires forall s :: s in seen ==> rank(s) <= rank(cur)
    ensures Root(es, Walk(es, e, cur, seen)) && Under(es, e, Walk(es, e, cur, seen))
    decreases |es.Keys - seen|
  {
    if es[cur].mergedInto.Some? {
      var up := es[cur].mergedInto.value;
      assert up !in seen;
      ClimbsCompose(es, e, cur, up, n, 1);
      SmallerSet(es.Keys - (seen + {up}), es.Keys - seen);
      WalkReachesRoot(es, rank, e, up, seen + {up}, n + 1);
    }
  }

  /** In a forest an existing entity stands for the one root above it; an unknown id for itself. */
  lemma CanonIsTheRoot(es: Entities, e: Id)
    requires Forest(es)
    ensures e in es ==> Root(es, Canon(es, e)) && Under(es, e, Canon(es, e))
    ensures e in es ==> forall r :: Root(es, r) && Under(es, e, r) ==> r == Canon(es, e)
    ensures e !in es ==> Canon(es, e) == e
    ensures Root(es, e) ==> Canon(es, e) == e
  {
    if e in es {
      var rank := RankOf(es);
      WalkReachesRoot(es, rank, e, e, {e}, 0);
      var n: nat :| Climbs(es, e, Canon(es, e), n);
      forall r | Root(es, r) && Under(es, e, r) ensures r == Canon(es, e) {
        var k: nat :| Climbs(es, e, r, k);
        RootIsUnique(es, e, r, Canon(es, e), k, n);
      }
    }
  }

  /** members and canonical_id are two sides of one relation, for every id that stands for
      itself: a root, or an id no entity has. */
  lemma MembersAreThoseItStandsFor(es: Entities, e: Id, m: Id)
    requires Forest(es) && (e in es ==> Root(es, e))
    ensures m in Group(es, e) <==> Canon(es, m) == e
  {
    CanonIsTheRoot(es, m);
    assert Climbs(es, e, e, 0);
    if e !in es && m in es && Under(es, m, e) {
      var n: nat :| Climbs(es, m, e, n);
      ClimbsRaiseRank(es, RankOf(es), m, e, n);
      assert false;
    }
  }

  // ---------------------------------------------------------------- how merges move it

  lemma {:induction false} ClimbsAfterMerge(es: Entities, es': Entities, l: Id, m: Id, r: Id, n: nat)
    requires Root(es, l) && l in es'
    requires forall x :: x in es && x != l ==> x in es' && es'[x].mergedInto == es[x].mergedInto
    requires Climbs(es, m, r, n)
    ensures Climbs(es', m, r, n)
    decreases n
  {
    if n > 0 { ClimbsAfterMerge(es, es', l, es[m].mergedInto.value, r, n - 1); }
  }

  /** Hanging one root below another keeps the forest: the losing tree keeps its ranks, and
      the winner is lifted above all of them. */
  lemma MergeKeepsForest(es: Entities, es': Entities, w: Id, l: Id)
    requires Forest(es) && Root(es, w) && Root(es, l) && w != l
    requires es'.Keys == es.Keys && es'[l].mergedInto == Some(w)
    requires forall x :: x in es && x != l ==> es'[x].mergedInto == es[x].mergedInto
    ensures Forest(es')
  {
    var rank := RankOf(es);
    var lifted := (x: Id) => if x == w then (if rank(w) > rank(l) then rank(w) else rank(l) + 1) else rank(x);
    assert Ranked(es', lifted);
  }

  /** Cutting pointers, or changing anything but pointers, keeps it too. */
  lemma FewerPointersKeepForest(es: Entities, es': Entities)
    requires Forest(es) && es.Keys <= es'.Keys
    requires forall x :: x in es' && es'[x].mergedInto.Some? ==> x in es && es[x].mergedInto == es'[x].mergedInto
    ensures Forest(es')
  {
    var rank := RankOf(es);
    assert Ranked(es', rank);
  }

  lemma DeletionKeepsForest(es: Entities, e: Id)
    requires Forest(es) && Group(es, e) == {e}
    ensures Forest(es - {e})
  {
    var rank := RankOf(es);
    forall m | m in es && m != e && es[m].mergedInto.Some? ensures es[m].mergedInto.value != e {
      assert m !in Group(es, e);
      assert Climbs(es, m, es[m].mergedInto.value, 1);
    }
    assert Ranked(es - {e}, rank);
  }

  /** Records that differ only off the pointers stand for the same entities. */
  lemma {:induction false} SamePointersSameClimbs(es: Entities, es': Entities, m: Id, e: Id, n: nat)
    requires es.Keys == es'.Keys
    requires forall x :: x in es ==> es'[x].mergedInto == es[x].mergedInto
    ensures Climbs(es, m, e, n) == Climbs(es', m, e, n)
    decreases n
  {
    if n > 0 && m in es && es[m].mergedInto.Some? {
      SamePointersSameClimbs(es, es', es[m].mergedInto.value, e, n - 1);
    }
  }

  lemma SamePointersSameGroup(es: Entities, es': Entities, e: Id)
    requires es.Keys == es'.Keys
    requires forall x :: x in es ==> es'[x].mergedInto == es[x].mergedInto
    ensures Group(es, e) == Group(es', e)
  {
    forall m, n: nat ensures Climbs(es, m, e, n) == Climbs(es', m, e, n) {
      SamePointersSameClimbs(es, es', m, e, n);
    }
    forall m ensures Under(es, m, e) == Under(es', m, e) {
      if Under(es, m, e) { var n: nat :| Climbs(es, m, e, n); assert Climbs(es', m, e, n); }
      if Under(es', m, e) { var n: nat :| Climbs(es', m, e, n); assert Climbs(es, m, e, n); }
    }
  }

  lemma SamePointersSameCanon(es: Entities, es': Entities, e: Id)
    requires Forest(es) && es.Keys == es'.Keys
    requires forall x :: x in es ==> es'[x].mergedInto == es[x].mergedInto
    ensures Canon(es', e) == Canon(es, e)
  {
    FewerPointersKeepForest(es, es');
    CanonIsTheRoot(es, e);
    CanonIsTheRoot(es', e);
    if e in es {
      var n: nat :| Climbs(es, e, Canon(es, e), n);
      SamePointersSameClimbs(es, es', e, Canon(es, e), n);
      assert Under(es', e, Canon(es, e)) && Root(es', Canon(es, e));
    }
  }

  /** Merging moves the canonical entity of what was folded, and of nothing else. */
  lemma MergeMovesCanon(es: Entities, es': Entities, keep: Id, fold: Id, e: Id)
    requires Forest(es) && Root(es, keep) && Root(es, fold) && keep != fold && e in es
    requires es'.Keys == es.Keys && es'[fold].mergedInto == Some(keep)
    requires forall x :: x in es && x != fold ==> es'[x].mergedInto == es[x].mergedInto
    ensures Canon(es', e) == if Canon(es, e) == fold then keep else Canon(es, e)
  {
    MergeKeepsForest(es, es', keep, fold);
    CanonIsTheRoot(es, e);
    CanonIsTheRoot(es', e);
    var r := Canon(es, e);
    var n: nat :| Climbs(es, e, r, n);
    ClimbsAfterMerge(es, es', fold, e, r, n);
    if r == fold {
      assert Climbs(es', fold, keep, 1) by {
        assert Climbs(es', keep, keep, 0);
      }
      ClimbsCompose(es', e, fold, keep, n, 1);
      assert Root(es', keep) && Under(es', e, keep);
    } else {
      assert Root(es', r) && Under(es', e, r);
    }
  }

  /** A climb that meets x, if at all, only where it ends is the same without x's own pointer. */
  lemma {:induction false} ClimbsWithout(es: Entities, es': Entities, x: Id, m: Id, e: Id, n: nat)
    requires forall y :: y in es && y != x ==> y in es' && es'[y].mergedInto == es[y].mergedInto
    requires Climbs(es, m, e, n)
    requires forall k: nat :: k < n ==> !Climbs(es, m, x, k)
    ensures Climbs(es', m, e, n)
    decreases n
  {
    if n > 0 {
      assert m != x by { assert !Climbs(es, m, x, 0); }
      var up := es[m].mergedInto.value;
      forall k: nat | k < n - 1
        ensures !Climbs(es, up, x, k)
      {
        assert !Climbs(es, m, x, k + 1);
      }
      ClimbsWithout(es, es', x, up, e, n - 1);
    }
  }

  /** What is not under e does not notice whether e is there, or where it points. */
  lemma SameCanonBeside(es: Entities, es': Entities, e: Id, x: Id)
    requires Forest(es) && Forest(es') && x in es && !Under(es, x, e)
    requires forall y :: y in es && y != e ==> y in es' && es'[y].mergedInto == es[y].mergedInto
    ensures Canon(es', x) == Canon(es, x) && Canon(es, x) != e && Canon(es, x) in es
  {
    assert x != e by {
      if x == e {
        assert Climbs(es, x, e, 0);
        assert false;
      }
    }
    CanonIsTheRoot(es, x);
    CanonIsTheRoot(es', x);
    var r := Canon(es, x);
    var n: nat :| Climbs(es, x, r, n);
    assert forall k: nat :: k < n ==> !Climbs(es, x, e, k);
    ClimbsWithout(es, es', e, x, r, n);
    assert Root(es', r) && Under(es', x, r);
  }

  /** Undoing a merge makes the loser stand for itself and for what is under it, and changes nothing else. */
  lemma UnmergeMovesCanon(es: Entities, es': Entities, x: Id, e: Id)
    requires Forest(es) && x in es && e in es && es'.Keys == es.Keys && es'[x].mergedInto.None?
    requires forall y :: y in es && y != x ==> es'[y].mergedInto == es[y].mergedInto
    ensures Canon(es', e) == if Under(es, e, x) then x else Canon(es, e)
  {
    FewerPointersKeepForest(es, es');
    CanonIsTheRoot(es', e);
    if Under(es, e, x) {
      var n: nat :| Climbs(es, e, x, n);
      forall k: nat | k < n
        ensures !Climbs(es, e, x, k)
      {
        if Climbs(es, e, x, k) {
          ClimbsDeterministic(es, e, x, x, k, n - k);
          ForestHasNoCycle(es, x, n - k);
        }
      }
      ClimbsWithout(es, es', x, e, x, n);
      assert Under(es', e, x) && Root(es', x);
    } else {
      CanonIsTheRoot(es, e);
      var r := Canon(es, e);
      var n: nat :| Climbs(es, e, r, n);
      assert forall k: nat :: k < n ==> !Climbs(es, e, x, k);
      ClimbsWithout(es, es', x, e, r, n);
      assert r != x;
      assert Under(es', e, r) && Root(es', r);
    }
  }
}
