/** Assertions and their retractions as a stack, from what can be seen before the first of them. */
module Stacks {
  import opened Records
  import opened MergeForest
  import opened GraphSpec
  import opened TimelineLaws
  import opened TimelineRuns

  ghost predicate NoEndAhead(ss: Statements, now: Time) {
    forall i :: i in ss && ss[i].validTo.Some? ==> ss[i].validTo.value <= now
  }

  /** The statement makes this very claim, perhaps of a name merged into the subject, and is not withdrawn. */
  ghost predicate Makes(st: State, i: Id, c: Claim) {
    && i in st.statements && st.statements[i].status != Retracted && st.statements[i].subject in Group(st.entities, c.subject)
    && st.statements[i].property == c.property
    && st.statements[i].target == c.target && st.statements[i].literal == c.literal
  }

  /** A claim that may be made, and that no statement makes now. */
  ghost predicate Sayable(onto: Ontology, st: State, c: Claim) {
    && Lookup(st.entities, c.subject).Ok?
    && ClaimProblem(onto, st.entities, st.entities[c.subject], c).None?
    && forall i :: !Makes(st, i, c)
  }

  ghost predicate IsNew(onto: Ontology, st: State, t: Tell) {
    t.id !in st.statements && t.validFrom.None? && Sayable(onto, st, t.claim)
  }

  /** New claims, each another one, under new ids, as the clock goes on. */
  ghost predicate AllNew(onto: Ontology, st: State, tells: seq<Tell>, since: Time) {
    && (forall k :: 0 <= k < |tells| ==> since <= tells[k].at && IsNew(onto, st, tells[k]))
    && (forall j, k :: 0 <= j < k < |tells| ==>
          tells[j].at <= tells[k].at && tells[j].id != tells[k].id && tells[j].claim != tells[k].claim)
  }

  lemma NewIsNotFound(onto: Ontology, st: State, t: Tell, now: Time)
    requires IsNew(onto, st, t) && Settled(st.statements, now)
    ensures Found(st, t.claim, now).None?
  {
    hide Group, ClaimProblem;
    forall i
      ensures i !in Alike(st, t.claim, now)
    {
      assert !Makes(st, i, t.claim);
    }
    assert Alike(st, t.claim, now) == {};
  }

  lemma NewIsPlaced(onto: Ontology, st: State, t: Tell)
    requires IsNew(onto, st, t) && Settled(st.statements, t.at)
    ensures Assert(onto, st, t.id, t.claim, Confirmed, t.validFrom, t.at)
         == Outcome(Place(onto, st, t.id, NewStatement(t.claim, Confirmed, t.validFrom, t.at),
                          st.entities[t.claim.subject], t.at), Ok(t.id))
  {
    NewIsNotFound(onto, st, t, t.at);
    hide Alike, Place, ClaimProblem, NewStatement, Makes;
  }

  /** Saying one thing leaves every other sayable. */
  lemma SayableStays(onto: Ontology, st: State, t: Tell, c: Claim)
    requires IsNew(onto, st, t) && Settled(st.statements, t.at) && Sayable(onto, st, c) && t.claim != c
    ensures Sayable(onto, Assert(onto, st, t.id, t.claim, Confirmed, t.validFrom, t.at).state, c)
  {
    hide Assert, Place, Displaced, ClaimProblem, Group;
    NewIsPlaced(onto, st, t);
    var new_ := NewStatement(t.claim, Confirmed, t.validFrom, t.at);
    var st' := Place(onto, st, t.id, new_, st.entities[t.claim.subject], t.at);
    PlaceFrame(onto, st, t.id, new_, st.entities[t.claim.subject], t.at);
    forall i
      ensures !Makes(st', i, c)
    {
      assert !Makes(st, i, c);
      if i == t.id && Makes(st', i, c) {
        RootUnderRoot(st.entities, t.claim.subject, c.subject);
      }
    }
  }

  lemma SaidFrame(onto: Ontology, st: State, t: Tell)
    requires IsNew(onto, st, t) && Settled(st.statements, t.at)
    ensures var said := Assert(onto, st, t.id, t.claim, Confirmed, t.validFrom, t.at).state;
      said.entities == st.entities && said.statements.Keys == st.statements.Keys + {t.id}
  {
    hide Assert, Place, Displaced, ClaimProblem, Makes;
    NewIsPlaced(onto, st, t);
    PlaceFrame(onto, st, t.id, NewStatement(t.claim, Confirmed, t.validFrom, t.at), st.entities[t.claim.subject], t.at);
  }

  /** What is still to be said stays new. */
  lemma OthersStayNew(onto: Ontology, st: State, t: Tell, u: Tell)
    requires Settled(st.statements, t.at) && IsNew(onto, st, t) && IsNew(onto, st, u) && t.id != u.id && t.claim != u.claim
    ensures IsNew(onto, Assert(onto, st, t.id, t.claim, Confirmed, t.validFrom, t.at).state, u)
  {
    hide Assert, Sayable, Settled;
    SayableStays(onto, st, t, u.claim);
    SaidFrame(onto, st, t);
  }

  lemma AllStayNew(onto: Ontology, st: State, tells: seq<Tell>, since: Time)
    requires tells != [] && AllNew(onto, st, tells, since) && Settled(st.statements, tells[0].at)
    ensures var t := tells[0];
      AllNew(onto, Assert(onto, st, t.id, t.claim, Confirmed, t.validFrom, t.at).state, tells[1..], t.at)
  {
    hide IsNew, Assert;
    var t := tells[0];
    forall k | 1 <= k < |tells|
      ensures IsNew(onto, Assert(onto, st, t.id, t.claim, Confirmed, t.validFrom, t.at).state, tells[k])
    {
      OthersStayNew(onto, st, t, tells[k]);
    }
  }

  lemma NewEndsNothingAhead(onto: Ontology, st: State, t: Tell)
    requires Settled(st.statements, t.at) && NoEndAhead(st.statements, t.at) && IsNew(onto, st, t)
    ensures NoEndAhead(Assert(onto, st, t.id, t.claim, Confirmed, t.validFrom, t.at).state.statements, t.at)
  {
    hide Assert, Place, Displaced, ClaimProblem, Makes, Settled;
    NewIsPlaced(onto, st, t);
    PlaceFrame(onto, st, t.id, NewStatement(t.claim, Confirmed, t.validFrom, t.at), st.entities[t.claim.subject], t.at);
  }

  lemma NewKeepsOrder(onto: Ontology, st: State, t: Tell)
    requires Orderly(onto, st, t.at) && NoEndAhead(st.statements, t.at) && IsNew(onto, st, t)
    ensures var st' := Assert(onto, st, t.id, t.claim, Confirmed, t.validFrom, t.at).state;
      Orderly(onto, st', t.at) && NoEndAhead(st'.statements, t.at)
  {
    OrderlyParts(onto, st, t.at);
    hide Orderly, Assert, Sayable, Settled, NoEndAhead;
    NewIsNotFound(onto, st, t, t.at);
    NewEndsNothingAhead(onto, st, t);
    hide Found;
    AssertKeepsOrder(onto, st, t.id, t.claim, Confirmed, t.validFrom, t.at);
  }

  /** In an orderly state with no end ahead, new claims that start as they are made all fit, one on top of the other. */
  lemma {:induction false} NewTellsFit(onto: Ontology, st: State, tells: seq<Tell>, since: Time)
    requires Orderly(onto, st, since) && NoEndAhead(st.statements, since) && AllNew(onto, st, tells, since)
    ensures EachFits(onto, st, tells)
    decreases |tells|
  {
    if tells != [] {
      var t := tells[0];
      LaterIsOrderly(onto, st, since, t.at);
      OrderlyParts(onto, st, t.at);
      NewIsNotFound(onto, st, t, t.at);
      NewIsPlaced(onto, st, t);
      NewKeepsOrder(onto, st, t);
      AllStayNew(onto, st, tells, since);
      assert Root(st.entities, t.claim.subject);
      OneOpenValueDisplaced(onto, st, t.id, t.claim, t.validFrom, t.at);
      hide Orderly, Assert, Place, Displaced, Found, Settled, AllNew, NoEndAhead, IsNew;
      NewTellsFit(onto, Assert(onto, st, t.id, t.claim, Confirmed, t.validFrom, t.at).state, tells[1..], t.at);
    }
  }

  lemma OrderlyParts(onto: Ontology, st: State, now: Time)
    requires Orderly(onto, st, now)
    ensures Settled(st.statements, now)
  {
  }

  /** So, from such a state, saying any new claims and then taking them back, the last one first, whenever that is, leaves
      every earlier statement as it was. */
  lemma NewTellsLeaveNothing(onto: Ontology, st: State, tells: seq<Tell>, since: Time)
    requires Orderly(onto, st, since) && NoEndAhead(st.statements, since) && AllNew(onto, st, tells, since)
    ensures AsBefore(st.statements, SaidAndUnsaid(onto, st, tells).statements)
  {
    hide *;
    NewTellsFit(onto, st, tells, since);
    SayingAndUnsayingIsNothing(onto, st, tells);
  }

  // ---------------------------------------------------------------- any well-bracketed talk

  /** A claim said, more talk, the claim unsaid, and more talk. */
  datatype Talk = Silence | Say(t: Tell, reason: Option<string>, inside: Talk, rest: Talk)

  ghost function Talked(onto: Ontology, st: State, talk: Talk): State
    decreases talk
  {
    match talk
    case Silence => st
    case Say(t, reason, inside, rest) =>
      var said := Assert(onto, st, t.id, t.claim, Confirmed, t.validFrom, t.at).state;
      Talked(onto, Retract(Talked(onto, said, inside), t.id, reason, t.unsaidAt).state, rest)
  }

  function Ids(talk: Talk): set<Id> {
    match talk
    case Silence => {}
    case Say(t, _, inside, rest) => {t.id} + Ids(inside) + Ids(rest)
  }

  function EndOf(talk: Talk, since: Time): Time {
    match talk
    case Silence => since
    case Say(t, _, _, rest) => EndOf(rest, t.unsaidAt)
  }

  /** The clock goes on, ids are never used twice, values start as they are said, and nothing is said while it is said
      already. */
  predicate Coherent(talk: Talk, since: Time, aloud: set<Claim>, used: set<Id>) {
    match talk
    case Silence => true
    case Say(t, _, inside, rest) =>
      && since <= t.at && t.validFrom.None? && t.claim !in aloud && t.id !in used
      && Coherent(inside, t.at, aloud + {t.claim}, used + {t.id})
      && EndOf(inside, t.at) <= t.unsaidAt
      && Coherent(rest, t.unsaidAt, aloud, used + {t.id} + Ids(inside))
  }

  ghost predicate AllSayable(onto: Ontology, st: State, talk: Talk) {
    match talk
    case Silence => true
    case Say(t, _, inside, rest) =>
      Sayable(onto, st, t.claim) && AllSayable(onto, st, inside) && AllSayable(onto, st, rest)
  }

  /** Every record is as it was, and any other is withdrawn. */
  ghost predicate Leaves(st: State, st': State, ids: set<Id>) {
    && st'.entities == st.entities && st'.statements.Keys <= st.statements.Keys + ids
    && AsBefore(st.statements, st'.statements)
    && forall i :: i in st'.statements && i !in st.statements ==> st'.statements[i].status == Retracted
  }

  lemma {:induction false} InsideStaysSayable(onto: Ontology, st: State, t: Tell, talk: Talk, since: Time,
                                              aloud: set<Claim>, used: set<Id>)
    requires IsNew(onto, st, t) && Settled(st.statements, t.at)
    requires AllSayable(onto, st, talk) && Coherent(talk, since, aloud, used) && t.claim in aloud
    ensures AllSayable(onto, Assert(onto, st, t.id, t.claim, Confirmed, t.validFrom, t.at).state, talk)
    decreases talk
  {
    hide IsNew, Sayable, Assert;
    match talk
    case Silence =>
    case Say(u, _, inside, rest) =>
      SayableStays(onto, st, t, u.claim);
      InsideStaysSayable(onto, st, t, inside, u.at, aloud + {u.claim}, used + {u.id});
      InsideStaysSayable(onto, st, t, rest, u.unsaidAt, aloud, used + {u.id} + Ids(inside));
  }

  lemma {:induction false} LeftSayable(onto: Ontology, st: State, st': State, ids: set<Id>, talk: Talk)
    requires Leaves(st, st', ids) && AllSayable(onto, st, talk)
    ensures AllSayable(onto, st', talk)
    decreases talk
  {
    hide ClaimProblem, Group;
    match talk
    case Silence =>
    case Say(u, _, inside, rest) =>
      assert forall i :: Makes(st', i, u.claim) ==> Makes(st, i, u.claim);
      LeftSayable(onto, st, st', ids, inside);
      LeftSayable(onto, st, st', ids, rest);
  }

  lemma LeavesTwice(st: State, mid: State, st': State, a: set<Id>, b: set<Id>)
    requires Leaves(st, mid, a) && Leaves(mid, st', b)
    ensures Leaves(st, st', a + b)
  {
  }

  /** Withdrawn records have no part in any timeline. */
  lemma LeavesInOrder(onto: Ontology, st: State, st': State, ids: set<Id>, now: Time, later: Time)
    requires Orderly(onto, st, now) && now <= later && Leaves(st, st', ids) && Settled(st'.statements, later)
    ensures Orderly(onto, st', later)
  {
    hide Forest, Canon, Ontology.SingleValued;
    forall i, j | Slot(onto, st', i, j) && st'.statements[i].status == Confirmed && st'.statements[j].status == Confirmed
      ensures Slot(onto, st, i, j)
    {
    }
    hide Slot, Apart;
  }

  lemma UnsaidIsSettled(st: State, id: Id, reason: Option<string>, now: Time, later: Time)
    requires Settled(st.statements, now) && NoEndAhead(st.statements, now) && now <= later
    requires id in st.statements && st.statements[id].status == Confirmed
    ensures var st' := Retract(st, id, reason, later).state;
      && Settled(st'.statements, later) && NoEndAhead(st'.statements, later)
      && st'.entities == st.entities && st'.statements.Keys == st.statements.Keys
      && st'.statements[id].status == Retracted
      && forall i :: i in st.statements && st.statements[i].status == Retracted ==> st'.statements[i] == st.statements[i]
  {
    RetractFrame(st, id, reason, later);
    hide Retract;
  }

  lemma UnsaidAtOnce(onto: Ontology, st: State, t: Tell, reason: Option<string>)
    requires Orderly(onto, st, t.at) && NoEndAhead(st.statements, t.at) && IsNew(onto, st, t)
    ensures var said := Assert(onto, st, t.id, t.claim, Confirmed, t.validFrom, t.at).state;
      && AsBefore(st.statements, Retract(said, t.id, reason, t.unsaidAt).state.statements)
      && t.id in said.statements && said.statements[t.id].status == Confirmed
      && (said.statements[t.id].supersedes.Some? ==> said.statements[t.id].supersedes.value in st.statements)
  {
    OrderlyParts(onto, st, t.at);
    assert Root(st.entities, t.claim.subject);
    hide Assert, Place, Retract, Displaced, Found, Settled, Makes, ClaimProblem;
    NewIsNotFound(onto, st, t, t.at);
    NewIsPlaced(onto, st, t);
    OneOpenValueDisplaced(onto, st, t.id, t.claim, t.validFrom, t.at);
    hide Orderly, NoEndAhead;
    RetractUndoesAssertIff(onto, st, t.id, t.claim, t.validFrom, t.at, reason, t.unsaidAt);
    AssertedIsThere(onto, st, t);
  }

  /** What was said, and perhaps talked about, once unsaid leaves what there was before. */
  lemma UnsaidLeaves(onto: Ontology, st: State, t: Tell, reason: Option<string>, talked: State, ids: set<Id>, now: Time)
    requires Orderly(onto, st, t.at) && NoEndAhead(st.statements, t.at) && IsNew(onto, st, t)
    requires Leaves(Assert(onto, st, t.id, t.claim, Confirmed, t.validFrom, t.at).state, talked, ids)
    requires Settled(talked.statements, now) && NoEndAhead(talked.statements, now) && now <= t.unsaidAt
    ensures var out := Retract(talked, t.id, reason, t.unsaidAt).state;
      && Leaves(st, out, {t.id} + ids) && Settled(out.statements, t.unsaidAt) && NoEndAhead(out.statements, t.unsaidAt)
  {
    hide Assert, Retract, Settled, NoEndAhead, Orderly, Sayable;
    var said := Assert(onto, st, t.id, t.claim, Confirmed, t.validFrom, t.at).state;
    UnsaidAtOnce(onto, st, t, reason);
    OrderlyParts(onto, st, t.at);
    SaidFrame(onto, st, t);
    RetractAgrees(said, talked, t.id, reason, t.unsaidAt);
    UnsaidIsSettled(talked, t.id, reason, now, t.unsaidAt);
  }

  /** From an orderly state with no end ahead: any well-bracketed talk of sayable claims leaves every record as it was, and
      beside these only withdrawn ones. */
  lemma {:induction false} TalkLeavesNothing(onto: Ontology, st: State, talk: Talk, since: Time, aloud: set<Claim>,
                                             used: set<Id>)
    requires Orderly(onto, st, since) && NoEndAhead(st.statements, since) && st.statements.Keys <= used
    requires AllSayable(onto, st, talk) && Coherent(talk, since, aloud, used)
    ensures var st' := Talked(onto, st, talk);
      && Leaves(st, st', Ids(talk)) && since <= EndOf(talk, since)
      && Orderly(onto, st', EndOf(talk, since)) && NoEndAhead(st'.statements, EndOf(talk, since))
    decreases talk
  {
    match talk
    case Silence =>
    case Say(t, reason, inside, rest) =>
      LaterIsOrderly(onto, st, since, t.at);
      assert NoEndAhead(st.statements, t.at);
      assert IsNew(onto, st, t) && Settled(st.statements, t.at);
      hide Settled, Orderly, NoEndAhead, Sayable, Assert, Retract, Leaves;
      NewKeepsOrder(onto, st, t);
      SaidFrame(onto, st, t);
      InsideStaysSayable(onto, st, t, inside, t.at, aloud + {t.claim}, used + {t.id});
      var said := Assert(onto, st, t.id, t.claim, Confirmed, t.validFrom, t.at).state;
      TalkLeavesNothing(onto, said, inside, t.at, aloud + {t.claim}, used + {t.id});
      var talked := Talked(onto, said, inside);
      var now := EndOf(inside, t.at);
      OrderlyParts(onto, talked, now);
      UnsaidLeaves(onto, st, t, reason, talked, Ids(inside), now);
      var unsaid := Retract(talked, t.id, reason, t.unsaidAt).state;
      LeavesInOrder(onto, st, unsaid, {t.id} + Ids(inside), t.at, t.unsaidAt);
      LeftSayable(onto, st, unsaid, {t.id} + Ids(inside), rest);
      LeavesKeys(st, unsaid, {t.id} + Ids(inside));
      TalkLeavesNothing(onto, unsaid, rest, t.unsaidAt, aloud, used + {t.id} + Ids(inside));
      LeavesTwice(st, unsaid, Talked(onto, unsaid, rest), {t.id} + Ids(inside), Ids(rest));
  }

  lemma LeavesKeys(st: State, st': State, ids: set<Id>)
    requires Leaves(st, st', ids)
    ensures st'.statements.Keys <= st.statements.Keys + ids
  {
  }
}
