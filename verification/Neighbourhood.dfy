/** What a neighbourhood query means: breadth first over the entities that stand for
    themselves, with the statements between them as edges. */
module Neighbourhood {
  import opened Records
  import opened MergeForest
  import opened GraphSpec

  datatype Direction = Out | In | Both

  datatype Query = Query(direction: Direction, properties: Option<set<string>>, valid: Time, known: Time, proposed: bool)

  predicate Shown(st: State, q: Query, i: Id) {
    i in st.statements
    && (q.properties.Some? ==> st.statements[i].property in q.properties.value)
    && Visible(st.statements[i], q.valid, q.known, q.proposed)
  }

  /** The statement is followed from its subject, who stands for a node of b. */
  predicate Leaves(st: State, q: Query, b: set<Id>, i: Id) {
    Shown(st, q, i) && q.direction != In && Canon(st.entities, st.statements[i].subject) in b
  }

  /** The statement is followed from its object. */
  predicate Enters(st: State, q: Query, b: set<Id>, i: Id) {
    Shown(st, q, i) && q.direction != Out
    && st.statements[i].target.Some? && Canon(st.entities, st.statements[i].target.value) in b
  }

  /** The statements found at some nodes. */
  function Touching(st: State, q: Query, b: set<Id>): set<Id> {
    set i | i in st.statements && (Leaves(st, q, b, i) || Enters(st, q, b, i))
  }

  /** The far end of a statement, followed through merges; a literal has none. */
  function Far(st: State, i: Id, outward: bool): Option<Id>
    requires i in st.statements
  {
    var s := st.statements[i];
    if !outward then Some(Canon(st.entities, s.subject))
    else if s.target.Some? then Some(Canon(st.entities, s.target.value))
    else None
  }

  function Fars(st: State, ids: set<Id>, outward: bool): set<Id> {
    set i | i in ids && i in st.statements && Far(st, i, outward).Some? :: Far(st, i, outward).value
  }

  lemma FarsOneMore(st: State, ids: set<Id>, i: Id, outward: bool)
    requires i in st.statements
    ensures Fars(st, ids + {i}, outward) ==
            Fars(st, ids, outward) + (if Far(st, i, outward).Some? then {Far(st, i, outward).value} else {})
  {
  }

  /** The nodes at the far end of those statements. */
  function Onward(st: State, q: Query, b: set<Id>): set<Id> {
    (set i | i in st.statements && Leaves(st, q, b, i) && st.statements[i].target.Some?
       :: Canon(st.entities, st.statements[i].target.value))
    + (set i | i in st.statements && Enters(st, q, b, i) :: Canon(st.entities, st.statements[i].subject))
  }

  /** The nodes at most k hops from start. */
  function Ball(st: State, q: Query, start: Id, k: nat): set<Id> {
    if k == 0 then {start}
    else Ball(st, q, start, k - 1) + Onward(st, q, Ball(st, q, start, k - 1))
  }

  /** The statement is met at hop h and not before. */
  predicate FirstMet(st: State, q: Query, start: Id, i: Id, h: nat) {
    1 <= h && i in Touching(st, q, Ball(st, q, start, h - 1))
    && (h >= 2 ==> i !in Touching(st, q, Ball(st, q, start, h - 2)))
  }

  // ---------------------------------------------------------------- independent reading: walks

  predicate Linked(st: State, q: Query, u: Id, v: Id) {
    v in Onward(st, q, {u})
  }

  /** A walk over links, each one statement long. */
  predicate Walked(st: State, q: Query, p: seq<Id>) {
    |p| > 0 && forall j :: 0 <= j < |p| - 1 ==> Linked(st, q, p[j], p[j + 1])
  }

  lemma OnwardFromOne(st: State, q: Query, b: set<Id>, v: Id) returns (u: Id)
    requires v in Onward(st, q, b)
    ensures u in b && Linked(st, q, u, v)
  {
    if i :| i in st.statements && Leaves(st, q, b, i) && st.statements[i].target.Some?
            && v == Canon(st.entities, st.statements[i].target.value) {
      u := Canon(st.entities, st.statements[i].subject);
      assert Leaves(st, q, {u}, i);
    } else {
      var i :| i in st.statements && Enters(st, q, b, i) && v == Canon(st.entities, st.statements[i].subject);
      u := Canon(st.entities, st.statements[i].target.value);
      assert Enters(st, q, {u}, i);
    }
  }

  lemma OnwardGrows(st: State, q: Query, b: set<Id>, c: set<Id>)
    requires b <= c
    ensures Onward(st, q, b) <= Onward(st, q, c)
    ensures Touching(st, q, b) <= Touching(st, q, c)
  {
    forall i | i in st.statements ensures Leaves(st, q, b, i) ==> Leaves(st, q, c, i) {}
    forall i | i in st.statements ensures Enters(st, q, b, i) ==> Enters(st, q, c, i) {}
  }

  lemma OnwardSplits(st: State, q: Query, b: set<Id>, c: set<Id>)
    ensures Onward(st, q, b + c) == Onward(st, q, b) + Onward(st, q, c)
    ensures Touching(st, q, b + c) == Touching(st, q, b) + Touching(st, q, c)
  {
    forall i | i in st.statements
      ensures Leaves(st, q, b + c, i) <==> Leaves(st, q, b, i) || Leaves(st, q, c, i)
      ensures Enters(st, q, b + c, i) <==> Enters(st, q, b, i) || Enters(st, q, c, i) {}
  }

  /** A node is in the ball exactly when a walk of at most k links reaches it. */
  lemma {:induction false} BallIsWalks(st: State, q: Query, start: Id, k: nat, v: Id)
    ensures v in Ball(st, q, start, k) <==>
            exists p :: Walked(st, q, p) && p[0] == start && p[|p| - 1] == v && |p| <= k + 1
  {
    if v in Ball(st, q, start, k) { var p := WalkInto(st, q, start, k, v); }
    forall p | Walked(st, q, p) && p[0] == start && p[|p| - 1] == v && |p| <= k + 1
      ensures v in Ball(st, q, start, k)
    {
      WalkStays(st, q, start, k, p);
    }
  }

  lemma {:induction false} WalkInto(st: State, q: Query, start: Id, k: nat, v: Id) returns (p: seq<Id>)
    requires v in Ball(st, q, start, k)
    ensures Walked(st, q, p) && p[0] == start && p[|p| - 1] == v && |p| <= k + 1
  {
    hide Linked, Onward;
    if k == 0 {
      p := [start];
    } else if v in Ball(st, q, start, k - 1) {
      p := WalkInto(st, q, start, k - 1, v);
    } else {
      var u := OnwardFromOne(st, q, Ball(st, q, start, k - 1), v);
      var p0 := WalkInto(st, q, start, k - 1, u);
      p := p0 + [v];
      forall j | 0 <= j < |p| - 1 ensures Linked(st, q, p[j], p[j + 1]) {
        if j < |p0| - 1 { assert Linked(st, q, p0[j], p0[j + 1]); }
      }
    }
  }

  lemma {:induction false} WalkStays(st: State, q: Query, start: Id, k: nat, p: seq<Id>)
    requires Walked(st, q, p) && p[0] == start && |p| <= k + 1
    ensures p[|p| - 1] in Ball(st, q, start, k)
    decreases k
  {
    if |p| == 1 {
      StartStays(st, q, start, k);
    } else {
      var u := p[|p| - 2];
      assert Walked(st, q, p[..|p| - 1]);
      WalkStays(st, q, start, k - 1, p[..|p| - 1]);
      OnwardGrows(st, q, {u}, Ball(st, q, start, k - 1));
      assert Linked(st, q, p[|p| - 2], p[|p| - 1]);
    }
  }

  lemma StartStays(st: State, q: Query, start: Id, k: nat)
    ensures start in Ball(st, q, start, k)
  {
  }

  lemma BallGrows(st: State, q: Query, start: Id, j: nat, k: nat)
    requires j <= k
    ensures Ball(st, q, start, j) <= Ball(st, q, start, k)
    decreases k
  {
    if j < k { BallGrows(st, q, start, j, k - 1); }
  }

  lemma {:induction false} BallSettles(st: State, q: Query, start: Id, j: nat, k: nat)
    requires j <= k && Ball(st, q, start, j + 1) == Ball(st, q, start, j)
    ensures Ball(st, q, start, k) == Ball(st, q, start, j)
    decreases k
  {
    hide Onward, Touching;
    if j < k { BallSettles(st, q, start, j, k - 1); }
  }

  lemma {:induction false} TouchedStaysTouched(st: State, q: Query, start: Id, j: nat, k: nat)
    requires j <= k
    ensures Touching(st, q, Ball(st, q, start, j)) <= Touching(st, q, Ball(st, q, start, k))
  {
    BallGrows(st, q, start, j, k);
    OnwardGrows(st, q, Ball(st, q, start, j), Ball(st, q, start, k));
  }

  /** The hop a statement is first met at is unique. */
  lemma {:induction false} FirstMetIsUnique(st: State, q: Query, start: Id, i: Id, h: nat, k: nat)
    requires FirstMet(st, q, start, i, h) && FirstMet(st, q, start, i, k)
    ensures h == k
  {
    hide Touching, Ball;
    if h < k { TouchedStaysTouched(st, q, start, h - 1, k - 2); }
    if k < h { TouchedStaysTouched(st, q, start, k - 1, h - 2); }
  }

  // ---------------------------------------------------------------- one hop of the search

  ghost function Outs(st: State, q: Query, u: Id): set<Id> {
    if q.direction == In then {} else Matching(st, Some(u), q.properties, None, q.valid, q.known, q.proposed)
  }

  ghost function Ins(st: State, q: Query, u: Id): set<Id> {
    if q.direction == Out then {} else Matching(st, None, q.properties, Some(u), q.valid, q.known, q.proposed)
  }

  /** Reading a node that stands for itself, through its members, meets exactly what touches it. */
  lemma ReadingANode(st: State, q: Query, u: Id)
    requires Forest(st.entities) && (u in st.entities ==> Root(st.entities, u))
    ensures Outs(st, q, u) + Ins(st, q, u) == Touching(st, q, {u})
    ensures Fars(st, Outs(st, q, u), true) + Fars(st, Ins(st, q, u), false) == Onward(st, q, {u})
  {
    forall m ensures m in Group(st.entities, u) <==> Canon(st.entities, m) == u {
      MembersAreThoseItStandsFor(st.entities, u, m);
    }
    hide Canon, Group, Forest;
    forall i | i in st.statements
      ensures i in Outs(st, q, u) <==> Leaves(st, q, {u}, i)
      ensures i in Ins(st, q, u) <==> Enters(st, q, {u}, i) {}
  }

  /** All nodes met stand for themselves. */
  lemma NodesStand(st: State, q: Query, b: set<Id>)
    requires Forest(st.entities)
    ensures forall v :: v in Onward(st, q, b) && v in st.entities ==> Root(st.entities, v)
  {
    forall x | Canon(st.entities, x) in st.entities ensures Root(st.entities, Canon(st.entities, x)) {
      CanonIsTheRoot(st.entities, x);
    }
  }

  // ---------------------------------------------------------------- the search, hop by hop

  /** Where the search stands before a hop: the frontier is what the last hop newly reached. */
  ghost predicate Searched(st: State, q: Query, start: Id, hop: nat, frontier: set<Id>, seen: set<Id>, found: map<Id, nat>) {
    && hop >= 1
    && seen == Ball(st, q, start, hop - 1)
    && frontier <= seen
    && (hop == 1 ==> frontier == {start} && found == map[])
    && (hop >= 2 ==> seen == Ball(st, q, start, hop - 2) + frontier
                     && found.Keys == Touching(st, q, Ball(st, q, start, hop - 2)))
    && (forall i :: i in found ==> found[i] < hop && FirstMet(st, q, start, i, found[i]))
    && (forall v :: v in frontier && v in st.entities ==> Root(st.entities, v))
  }

  function AtHop(found: map<Id, nat>, ids: set<Id>, hop: nat): map<Id, nat> {
    found + map i | i in ids - found.Keys :: hop
  }

  lemma NotedTwice(found: map<Id, nat>, a: set<Id>, b: set<Id>, hop: nat)
    ensures AtHop(AtHop(found, a, hop), b, hop) == AtHop(found, a + b, hop)
    ensures AtHop(found, {}, hop) == found
  {
  }

  lemma ReachedTwice<T>(seen: set<T>, a: set<T>, b: set<T>)
    ensures (a - seen) + (b - (seen + (a - seen))) == (a + b) - seen
    ensures seen + (a - seen) + (b - (seen + (a - seen))) == seen + ((a + b) - seen)
  {
  }

  /** What a hop has gathered once some nodes of its frontier are visited. */
  ghost predicate Gathered(st: State, q: Query, done: set<Id>, seen0: set<Id>, found0: map<Id, nat>, hop: nat,
                           reached: set<Id>, seen: set<Id>, found: map<Id, nat>) {
    && reached == Onward(st, q, done) - seen0
    && seen == seen0 + reached
    && found == AtHop(found0, Touching(st, q, done), hop)
  }

  lemma GatheredNothing(st: State, q: Query, seen0: set<Id>, found0: map<Id, nat>, hop: nat)
    ensures Gathered(st, q, {}, seen0, found0, hop, {}, seen0, found0)
  {
    NothingTouchesNothing(st, q);
  }

  lemma GatheredOneMore(st: State, q: Query, done: set<Id>, node: Id, seen0: set<Id>, found0: map<Id, nat>, hop: nat,
                        reached: set<Id>, seen: set<Id>, found: map<Id, nat>)
    requires Gathered(st, q, done, seen0, found0, hop, reached, seen, found)
    ensures var unseen := Onward(st, q, {node}) - seen;
            Gathered(st, q, done + {node}, seen0, found0, hop, reached + unseen, seen + unseen,
                     AtHop(found, Touching(st, q, {node}), hop))
  {
    hide Touching, Onward, AtHop;
    OnwardSplits(st, q, done, {node});
    NotedTwice(found0, Touching(st, q, done), Touching(st, q, {node}), hop);
    ReachedTwice(seen0, Onward(st, q, done), Onward(st, q, {node}));
  }

  lemma SearchStarts(st: State, q: Query, e: Id)
    requires Forest(st.entities)
    ensures var start := Canon(st.entities, e);
            Searched(st, q, start, 1, {start}, {start}, map[])
  {
    CanonIsTheRoot(st.entities, e);
  }

  lemma SearchedOneMore(st: State, q: Query, start: Id, hop: nat, frontier: set<Id>, seen: set<Id>, found: map<Id, nat>)
    requires Forest(st.entities) && Searched(st, q, start, hop, frontier, seen, found)
    ensures forall v :: v in frontier && v in st.entities ==> Root(st.entities, v)
    ensures var reached := Onward(st, q, frontier) - seen;
            Searched(st, q, start, hop + 1, reached, seen + reached, AtHop(found, Touching(st, q, frontier), hop))
  {
    hide Onward, Touching, Root, Forest;
    var before := if hop == 1 then {} else Ball(st, q, start, hop - 2);
    var now := Touching(st, q, frontier);
    OnwardSplits(st, q, before, frontier);
    assert before + frontier == seen;
    NodesStand(st, q, frontier);
    NothingTouchesNothing(st, q);
    forall i | i in now - found.Keys ensures FirstMet(st, q, start, i, hop) {}
  }

  lemma NothingTouchesNothing(st: State, q: Query)
    ensures Touching(st, q, {}) == {} && Onward(st, q, {}) == {}
  {
  }

  lemma {:induction false} TouchedMeansMet(st: State, q: Query, start: Id, i: Id, k: nat) returns (h: nat)
    requires i in Touching(st, q, Ball(st, q, start, k))
    ensures 1 <= h <= k + 1 && FirstMet(st, q, start, i, h)
  {
    hide Touching, Ball;
    if k > 0 && i in Touching(st, q, Ball(st, q, start, k - 1)) {
      h := TouchedMeansMet(st, q, start, i, k - 1);
    } else {
      h := k + 1;
    }
  }

  /** The report a finished search makes: each statement once, at the hop it is first met. */
  ghost predicate Reports(st: State, q: Query, start: Id, reach: nat, found: map<Id, nat>) {
    && (forall i, h: nat :: h <= reach && FirstMet(st, q, start, i, h) ==> i in found && found[i] == h)
    && (forall i :: i in found ==> found[i] <= reach && FirstMet(st, q, start, i, found[i]))
  }

  lemma SearchDone(st: State, q: Query, start: Id, reach: nat, hop: nat, frontier: set<Id>, seen: set<Id>, found: map<Id, nat>)
    requires reach >= 1 && Searched(st, q, start, hop, frontier, seen, found)
    requires hop == reach + 1 || (hop <= reach && frontier == {})
    ensures Reports(st, q, start, reach, found)
  {
    hide Touching, Ball;
    if hop <= reach {
      assert Ball(st, q, start, hop - 1) == Ball(st, q, start, hop - 2);
      BallSettles(st, q, start, hop - 2, reach - 1);
    }
    assert found.Keys == Touching(st, q, Ball(st, q, start, reach - 1));
    forall i, h: nat | h <= reach && FirstMet(st, q, start, i, h) ensures i in found && found[i] == h {
      TouchedStaysTouched(st, q, start, h - 1, reach - 1);
      FirstMetIsUnique(st, q, start, i, h, found[i]);
    }
  }
}
