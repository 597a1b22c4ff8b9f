/** What putting statements back does to timelines, at every instant: one reinstated, or all a removal withdrew. */
module RestoreTimelines {
  import opened Records
  import opened MergeForest
  import opened GraphSpec
  import opened TimelineLaws
  import opened RemovalLaws
  import opened MergeTimelines
  import opened RestoreLaws

  // ---------------------------------------------------------------- one statement

  /** The value as it is written when it comes back. */
  ghost function AsWritten(onto: Ontology, st: State, id: Id, back: Statement, now: Time): (w: Statement)
    ensures w.subject == back.subject && w.property == back.property && w.Start() == back.Start()
    ensures w.status == back.status && w.recordedAt == back.recordedAt && w.retractedAt == back.retractedAt
  {
    if back.validTo.Some? then back else ClosedByNewer(st.statements, Newer(onto, st, id, back, now), back)
  }

  /** As written, it meets no other confirmed value of its timeline but a predecessor it closes. */
  ghost predicate ReturnsApart(onto: Ontology, st: State, id: Id, back: Statement, now: Time) {
    forall j | Slot(onto, st, id, j) && j != id && st.statements[j].status == Confirmed
               && j !in ClosedByReturn(st.statements, back)
             :: Apart(AsWritten(onto, st, id, back, now), st.statements[j])
  }

  lemma EndedBefore(w: Statement, p: Statement)
    requires p.validTo == Some(w.Start())
    ensures Apart(w, p)
  {
  }

  lemma WrittenApartIff(onto: Ontology, st: State, id: Id, back: Statement, now: Time)
    requires TimelineSafe(onto, st) && id in st.statements && st.statements[id].status == Retracted
    requires back.status == Confirmed
    requires back.subject == st.statements[id].subject && back.property == st.statements[id].property
    ensures TimelineSafe(onto, BackIn(onto, st, id, back, now)) <==> ReturnsApart(onto, st, id, back, now)
  {
    hide BackIn, Newer, ClosedByNewer, Canon, Apart, ClosedByReturn;
    var st', w := BackIn(onto, st, id, back, now), AsWritten(onto, st, id, back, now);
    BackInFrame(onto, st, id, back, now);
    forall i, j
      ensures Slot(onto, st', i, j) <==> Slot(onto, st, i, j)
    {
      SameSlots(onto, st, st', i, j);
    }
    ClosersWereOpen(st.statements, back);
    forall j | j in ClosedByReturn(st.statements, back)
      ensures Apart(w, st'.statements[j])
    {
      EndedBefore(w, st'.statements[j]);
    }
    if ReturnsApart(onto, st, id, back, now) {
      forall i, j | Slot(onto, st', i, j) && i != j
                    && st'.statements[i].status == Confirmed && st'.statements[j].status == Confirmed
        ensures Apart(st'.statements[i], st'.statements[j])
      {
        SlotIsMutual(onto, st, i, j);
        ApartBothWays(st'.statements[i], st'.statements[j]);
        if i != id && j != id {
          SlotsAreThere(onto, st, i, j);
          StillApart(st.statements, st'.statements, ClosedByReturn(st.statements, back), back.Start(), i, j);
        }
      }
    } else {
      var j :| Slot(onto, st, id, j) && j != id && st.statements[j].status == Confirmed
               && j !in ClosedByReturn(st.statements, back) && !Apart(w, st.statements[j]);
      SlotsAreThere(onto, st, id, j);
      assert Slot(onto, st', id, j);
    }
  }

  /** What comes back is over by t: the end it carries is, or, when it carries none, a current replacement has started. */
  ghost predicate OverBy(onto: Ontology, st: State, id: Id, back: Statement, now: Time, t: Time) {
    if back.validTo.Some? then back.validTo.value <= t
    else exists n :: n in Newer(onto, st, id, back, now) && st.statements[n].Start() <= t
  }

  /** A confirmed value of the timeline that a return does not look at: not the predecessor it closes nor, if it carries no
      end, one that replaced it and is current. One that replaced it and has ended since is among these. */
  ghost predicate Overlooked(onto: Ontology, st: State, id: Id, back: Statement, now: Time, j: Id) {
    && Slot(onto, st, id, j) && j != id && st.statements[j].status == Confirmed
    && j !in ClosedByReturn(st.statements, back)
    && (back.validTo.Some? || j !in Newer(onto, st, id, back, now))
  }

  /** What comes back is over before any value it does not look at, or starts after it. */
  ghost predicate ReturnsSafely(onto: Ontology, st: State, id: Id, back: Statement, now: Time) {
    forall j | Overlooked(onto, st, id, back, now, j) && LastsPast(st.statements[j], back.Start())
             :: OverBy(onto, st, id, back, now, Max(back.Start(), st.statements[j].Start()))
  }

  predicate IsOverBy(s: Statement, t: Time) {
    s.validTo.Some? && s.validTo.value <= t
  }

  lemma SpansApartIff(a: Statement, b: Statement)
    ensures Apart(a, b) <==> IsOverBy(a, Max(a.Start(), b.Start())) || IsOverBy(b, Max(a.Start(), b.Start()))
  {
    var t := Max(a.Start(), b.Start());
    assert a.ValidAt(t) && b.ValidAt(t) ==> !Apart(a, b);
  }

  lemma WrittenIsOverIff(onto: Ontology, st: State, id: Id, back: Statement, now: Time, t: Time)
    ensures IsOverBy(AsWritten(onto, st, id, back, now), t) <==> OverBy(onto, st, id, back, now, t)
  {
    hide Newer;
    var newer := Newer(onto, st, id, back, now);
    if back.validTo.None? && newer != {} {
      var n :| n in newer && EarliestStart(st.statements, newer) == st.statements[n].Start();
    }
  }

  /** A value that lasts past the start of what comes back is met exactly when that is not over by then. */
  lemma MeetsIff(onto: Ontology, st: State, id: Id, back: Statement, now: Time, j: Id)
    requires j in st.statements
    ensures Apart(AsWritten(onto, st, id, back, now), st.statements[j])
            <==> (LastsPast(st.statements[j], back.Start()) ==>
                    OverBy(onto, st, id, back, now, Max(back.Start(), st.statements[j].Start())))
  {
    hide AsWritten, OverBy, Apart;
    SpansApartIff(AsWritten(onto, st, id, back, now), st.statements[j]);
    WrittenIsOverIff(onto, st, id, back, now, Max(back.Start(), st.statements[j].Start()));
  }

  /** A current replacement is never met by what carries no end. */
  lemma CurrentReplacementsAreMissed(onto: Ontology, st: State, id: Id, back: Statement, now: Time, j: Id)
    requires back.validTo.None? && j in Newer(onto, st, id, back, now)
    ensures Apart(AsWritten(onto, st, id, back, now), st.statements[j])
  {
    MeetsIff(onto, st, id, back, now, j);
    hide AsWritten, Newer, Apart;
  }

  lemma ReturnsApartIff(onto: Ontology, st: State, id: Id, back: Statement, now: Time)
    ensures ReturnsApart(onto, st, id, back, now) <==> ReturnsSafely(onto, st, id, back, now)
  {
    hide AsWritten, Newer, Apart, Canon, OverBy, LastsPast, ClosedByReturn, Ontology.SingleValued;
    forall j | j in st.statements
      ensures Apart(AsWritten(onto, st, id, back, now), st.statements[j])
              <==> (LastsPast(st.statements[j], back.Start()) ==>
                      OverBy(onto, st, id, back, now, Max(back.Start(), st.statements[j].Start())))
    {
      MeetsIff(onto, st, id, back, now, j);
    }
    forall j | back.validTo.None? && j in Newer(onto, st, id, back, now)
      ensures Apart(AsWritten(onto, st, id, back, now), st.statements[j])
    {
      CurrentReplacementsAreMissed(onto, st, id, back, now, j);
    }
  }

  /** A value put back keeps timelines apart exactly when every confirmed value of its timeline that it does not look at is
      over before it starts, or starts once it is over: at the end it carries, or at the start of a current replacement.
      A replacement that has ended since is not looked at, and so may be met. */
  lemma PutBackKeepsTimelineIff(onto: Ontology, st: State, id: Id, back: Statement, now: Time)
    requires TimelineSafe(onto, st) && id in st.statements && st.statements[id].status == Retracted
    requires back.status == Confirmed
    requires back.subject == st.statements[id].subject && back.property == st.statements[id].property
    ensures TimelineSafe(onto, BackIn(onto, st, id, back, now)) <==> ReturnsSafely(onto, st, id, back, now)
  {
    hide *;
    WrittenApartIff(onto, st, id, back, now);
    ReturnsApartIff(onto, st, id, back, now);
  }

  /** In a timeline of its own subject, what a return with no end does not look at is what it closes, what was recorded no
      later, and what is not current. */
  lemma OverlookedIff(onto: Ontology, st: State, id: Id, back: Statement, now: Time, j: Id)
    requires Forest(st.entities) && Settled(st.statements, now) && Root(st.entities, back.subject)
    requires id in st.statements && st.statements[id].subject == back.subject
    requires st.statements[id].property == back.property && back.validTo.None?
    requires Slot(onto, st, id, j) && j != id && st.statements[j].status == Confirmed
    requires j !in ClosedByReturn(st.statements, back)
    ensures Overlooked(onto, st, id, back, now, j)
            <==> st.statements[j].recordedAt <= back.recordedAt || !st.statements[j].ValidAt(now)
  {
    hide Forest, ClosedByReturn, Ontology.SingleValued;
    CanonIsTheRoot(st.entities, back.subject);
    MembersAreThoseItStandsFor(st.entities, back.subject, st.statements[j].subject);
    CurrentMember(st, back.subject, back.property, now, j);
    hide Canon, Group, Current;
  }

  lemma StillApart(ss: Statements, ss': Statements, closed: set<Id>, at: Time, i: Id, j: Id)
    requires i in ss && j in ss && i in ss' && j in ss' && Apart(ss[i], ss[j])
    requires forall x :: x in closed && x in ss && x in {i, j} ==> ss[x].validTo.None? && ss'[x] == ss[x].(validTo := Some(at))
    requires forall x :: x in {i, j} && x !in closed ==> ss'[x] == ss[x]
    ensures Apart(ss'[i], ss'[j])
  {
    assert forall t :: ss'[i].ValidAt(t) ==> ss[i].ValidAt(t);
    assert forall t :: ss'[j].ValidAt(t) ==> ss[j].ValidAt(t);
  }

  lemma ClosersWereOpen(ss: Statements, back: Statement)
    ensures forall i :: i in ClosedByReturn(ss, back) ==> i in ss && ss[i].validTo.None? && ss[i].status == Confirmed
  {
  }

  lemma SameSlots(onto: Ontology, st: State, st': State, i: Id, j: Id)
    requires st'.entities == st.entities && st'.statements.Keys == st.statements.Keys
    requires forall x :: x in st.statements ==>
      st'.statements[x].subject == st.statements[x].subject && st'.statements[x].property == st.statements[x].property
    ensures Slot(onto, st', i, j) <==> Slot(onto, st, i, j)
  {
    hide Canon;
  }

  lemma SlotIsMutual(onto: Ontology, st: State, i: Id, j: Id)
    ensures Slot(onto, st, i, j) <==> Slot(onto, st, j, i)
  {
    hide Canon;
  }

  lemma SlotsAreThere(onto: Ontology, st: State, i: Id, j: Id)
    requires Slot(onto, st, i, j)
    ensures i in st.statements && j in st.statements
  {
    hide Canon;
  }

  // ---------------------------------------------------------------- all of a removal

  /** Where the last of the returning statements to end it does so. */
  ghost function EndedAt(ss: Statements, notes: seq<Note>, i: Id): Option<Time>
    requires forall n :: n in notes ==> n.0 in ss
    decreases |notes|
  {
    if notes == [] then None
    else
      var back := Back(ss, notes[|notes| - 1]);
      if i in ClosedByReturn(ss, back) then Some(back.Start()) else EndedAt(ss, notes[..|notes| - 1], i)
  }

  /** What a restore makes of a statement it does not put back. */
  ghost function Left(ss: Statements, notes: seq<Note>, i: Id): Statement
    requires i in ss && forall n :: n in notes ==> n.0 in ss
  {
    if EndedAt(ss, notes, i).Some? then ss[i].(validTo := EndedAt(ss, notes, i)) else ss[i]
  }

  lemma NothingPutBack(onto: Ontology, st: State, now: Time)
    ensures PutBackAll(onto, st, [], now) == map[]
  {
  }

  lemma {:induction false} OthersAreLeft(onto: Ontology, st: State, notes: seq<Note>, now: Time, i: Id)
    requires Distinctly(st.statements, notes) && i in st.statements && !Noted(notes, i)
    ensures (st.statements + PutBackAll(onto, st, notes, now))[i] == Left(st.statements, notes, i)
    decreases |notes|
  {
    hide PutBack, Newer, Reclosed, PutBackAll;
    if notes == [] {
      NothingPutBack(onto, st, now);
    } else {
      var n := |notes| - 1;
      var front, back := notes[..n], Back(st.statements, notes[n]);
      FrontNotes(notes, i);
      OthersAreLeft(onto, st, front, now, i);
      LastIsPutBack(onto, st, notes, now);
      PutBackShape(onto, st, notes[n].0, back, now);
      ClosersWereOpen(st.statements, back);
      assert notes[n].0 != i;
    }
  }

  /** Note k is about a value that comes back confirmed. */
  predicate Confirms(notes: seq<Note>, k: int) {
    0 <= k < |notes| && notes[k].1 == Confirmed
  }

  ghost function Returned(onto: Ontology, st: State, notes: seq<Note>, now: Time, k: nat): Statement
    requires k < |notes| && notes[k].0 in st.statements
  {
    AsWritten(onto, st, notes[k].0, Back(st.statements, notes[k]), now)
  }

  /** No returning value meets another, or a value that stays, ended or not by a returning one. */
  ghost predicate AllReturnApart(onto: Ontology, st: State, notes: seq<Note>, now: Time)
    requires forall n :: n in notes ==> n.0 in st.statements
  {
    && (forall k, m | Confirms(notes, k) && Confirms(notes, m) && k != m && Slot(onto, st, notes[k].0, notes[m].0)
          :: Apart(Returned(onto, st, notes, now, k), Returned(onto, st, notes, now, m)))
    && (forall k, j | Confirms(notes, k) && Slot(onto, st, notes[k].0, j) && !Noted(notes, j)
                      && st.statements[j].status == Confirmed
          :: Apart(Returned(onto, st, notes, now, k), Left(st.statements, notes, j)))
  }

  predicate SameClaim(a: Statement, b: Statement) {
    a.subject == b.subject && a.property == b.property && a.Start() == b.Start() && a.recordedAt == b.recordedAt
  }

  /** The statements after a restore, one by one. */
  ghost predicate Restored(onto: Ontology, st: State, st': State, notes: seq<Note>, now: Time)
    requires Distinctly(st.statements, notes)
  {
    && st'.statements.Keys == st.statements.Keys
    && (forall k :: 0 <= k < |notes| ==>
          var s := st'.statements[notes[k].0];
          s.status == notes[k].1 && s.retractedAt.None? && SameClaim(s, st.statements[notes[k].0])
          && (s.status == Confirmed ==> s == Returned(onto, st, notes, now, k)))
    && (forall i | i in st.statements && !Noted(notes, i) :: st'.statements[i] == Left(st.statements, notes, i))
  }

  lemma NotedIsReturned(onto: Ontology, st: State, notes: seq<Note>, now: Time, k: nat)
    requires Distinctly(st.statements, notes) && k < |notes|
    ensures var r, i := PutBackAll(onto, st, notes, now), notes[k].0;
      && i in r && r[i].status == notes[k].1 && r[i].retractedAt.None? && SameClaim(r[i], st.statements[i])
      && (notes[k].1 == Confirmed ==> r[i] == Returned(onto, st, notes, now, k))
  {
    hide PutBackAll, Newer, ClosedByNewer;
    NotedIsWritten(onto, st, notes, now, k);
    if notes[k].1 == Confirmed {
      assert PutBackAll(onto, st, notes, now)[notes[k].0] == Returned(onto, st, notes, now, k);
    }
  }

  lemma RestoredKeys(onto: Ontology, st: State, notes: seq<Note>, now: Time)
    requires Distinctly(st.statements, notes)
    ensures PutBackAll(onto, st, notes, now).Keys <= st.statements.Keys
  {
    hide PutBackAll, Alone;
    PutBackAllRestores(onto, st, notes, now);
    forall i | i in PutBackAll(onto, st, notes, now)
      ensures i in st.statements
    {
      if Noted(notes, i) {
        var k :| 0 <= k < |notes| && notes[k].0 == i;
      }
    }
  }

  lemma SameTimelines(onto: Ontology, st: State, st': State, i: Id, j: Id)
    requires Forest(st.entities)
    requires st'.entities.Keys == st.entities.Keys && st'.statements.Keys == st.statements.Keys
    requires forall x :: x in st.entities ==>
      st'.entities[x].mergedInto == st.entities[x].mergedInto && st'.entities[x].class_ == st.entities[x].class_
    requires forall x :: x in st.statements ==>
      st'.statements[x].subject == st.statements[x].subject && st'.statements[x].property == st.statements[x].property
    ensures Slot(onto, st', i, j) <==> Slot(onto, st, i, j)
  {
    hide Canon, Forest, Ontology.SingleValued;
    if i in st.statements && j in st.statements {
      SamePointersSameCanon(st.entities, st'.entities, st.statements[i].subject);
      SamePointersSameCanon(st.entities, st'.entities, st.statements[j].subject);
      var r := Canon(st.entities, st.statements[i].subject);
      if r in st.entities { SameLimits(onto, st.entities[r], st'.entities[r], st.statements[i].property); }
    }
  }

  lemma RestoreGives(onto: Ontology, st: State, e: Id, now: Time)
    requires Forest(st.entities)
    requires e in st.entities && st.entities[e].removedAt.Some? && Distinctly(st.statements, Pending(st, e))
    ensures Restored(onto, st, Restore(onto, st, e, now).state, Pending(st, e), now)
    ensures forall i, j :: Slot(onto, Restore(onto, st, e, now).state, i, j) <==> Slot(onto, st, i, j)
  {
    hide Forest, Restore, PutBackAll, Newer, ClosedByNewer, Slot, StillOut;
    var st', notes := Restore(onto, st, e, now).state, Pending(st, e);
    RestoreWrites(onto, st, e, now);
    var r := PutBackAll(onto, st, notes, now);
    forall k | 0 <= k < |notes|
      ensures notes[k].0 in r && r[notes[k].0].status == notes[k].1 && r[notes[k].0].retractedAt.None?
      ensures SameClaim(r[notes[k].0], st.statements[notes[k].0])
      ensures notes[k].1 == Confirmed ==> r[notes[k].0] == Returned(onto, st, notes, now, k)
    {
      NotedIsReturned(onto, st, notes, now, k);
    }
    RestoredKeys(onto, st, notes, now);
    forall i | i in st.statements && !Noted(notes, i)
      ensures (st.statements + r)[i] == Left(st.statements, notes, i)
      ensures SameClaim((st.statements + r)[i], st.statements[i])
    {
      OthersAreLeft(onto, st, notes, now, i);
    }
    forall i | i in st.statements
      ensures SameClaim(st'.statements[i], st.statements[i])
    {
      if Noted(notes, i) {
        var k :| 0 <= k < |notes| && notes[k].0 == i;
      }
    }
    forall i, j
      ensures Slot(onto, st', i, j) <==> Slot(onto, st, i, j)
    {
      SameTimelines(onto, st, st', i, j);
    }
  }

  lemma RestoredApartIff(onto: Ontology, st: State, e: Id, now: Time)
    requires Forest(st.entities) && TimelineSafe(onto, st)
    requires e in st.entities && st.entities[e].removedAt.Some? && Distinctly(st.statements, Pending(st, e))
    ensures TimelineSafe(onto, Restore(onto, st, e, now).state) <==> AllReturnApart(onto, st, Pending(st, e), now)
  {
    RestoreGives(onto, st, e, now);
    var st', notes := Restore(onto, st, e, now).state, Pending(st, e);
    hide Restore, Forest, Canon, StillOut;
    RestoredSafeIff(onto, st, st', notes, now);
  }

  lemma {:induction false} LeftIsShorter(ss: Statements, notes: seq<Note>, i: Id)
    requires i in ss && forall n :: n in notes ==> n.0 in ss
    ensures EndedAt(ss, notes, i).Some? ==> ss[i].status == Confirmed && ss[i].validTo.None?
    ensures Left(ss, notes, i).status == ss[i].status
    ensures forall t :: Left(ss, notes, i).ValidAt(t) ==> ss[i].ValidAt(t)
    decreases |notes|
  {
    hide ClosedByReturn;
    if notes != [] {
      LeftIsShorter(ss, notes[..|notes| - 1], i);
      ClosersWereOpen(ss, Back(ss, notes[|notes| - 1]));
    }
  }

  lemma PairStaysApart(onto: Ontology, st: State, st': State, notes: seq<Note>, now: Time, i: Id, j: Id)
    requires TimelineSafe(onto, st) && Distinctly(st.statements, notes) && Restored(onto, st, st', notes, now)
    requires AllReturnApart(onto, st, notes, now)
    requires Slot(onto, st, i, j) && i != j && i in st'.statements && j in st'.statements
    requires st'.statements[i].status == Confirmed && st'.statements[j].status == Confirmed
    ensures Apart(st'.statements[i], st'.statements[j])
  {
    hide Canon, Apart, Returned, Left, EndedAt, Ontology.SingleValued;
    if !Noted(notes, i) && !Noted(notes, j) {
      BothLeft(onto, st, notes, i, j);
    } else {
      ApartBothWays(st'.statements[i], st'.statements[j]);
      if Noted(notes, i) && Noted(notes, j) {
        var k :| 0 <= k < |notes| && notes[k].0 == i;
        var m :| 0 <= m < |notes| && notes[m].0 == j;
        assert Confirms(notes, k) && Confirms(notes, m);
      } else if Noted(notes, i) {
        var k :| 0 <= k < |notes| && notes[k].0 == i;
        LeftIsShorter(st.statements, notes, j);
        assert Confirms(notes, k);
      } else {
        var k :| 0 <= k < |notes| && notes[k].0 == j;
        LeftIsShorter(st.statements, notes, i);
        assert Confirms(notes, k) && Slot(onto, st, j, i);
      }
    }
  }

  lemma BothLeft(onto: Ontology, st: State, notes: seq<Note>, i: Id, j: Id)
    requires TimelineSafe(onto, st) && Slot(onto, st, i, j) && i != j && forall n :: n in notes ==> n.0 in st.statements
    requires Left(st.statements, notes, i).status == Confirmed && Left(st.statements, notes, j).status == Confirmed
    ensures Apart(Left(st.statements, notes, i), Left(st.statements, notes, j))
  {
    LeftIsShorter(st.statements, notes, i);
    LeftIsShorter(st.statements, notes, j);
    hide Canon, Left, Ontology.SingleValued;
    assert Apart(st.statements[i], st.statements[j]);
  }

  lemma AllMet(onto: Ontology, st: State, st': State, notes: seq<Note>, now: Time)
    requires Distinctly(st.statements, notes) && Restored(onto, st, st', notes, now) && TimelineSafe(onto, st')
    requires forall i, j :: Slot(onto, st', i, j) <==> Slot(onto, st, i, j)
    ensures AllReturnApart(onto, st, notes, now)
  {
    hide Canon, Apart, Returned, Left, Ontology.SingleValued;
    forall k, m | Confirms(notes, k) && Confirms(notes, m) && k != m && Slot(onto, st, notes[k].0, notes[m].0)
      ensures Apart(Returned(onto, st, notes, now, k), Returned(onto, st, notes, now, m))
    {
      assert Slot(onto, st', notes[k].0, notes[m].0) && notes[k].0 != notes[m].0;
    }
    forall k, j | Confirms(notes, k) && Slot(onto, st, notes[k].0, j) && !Noted(notes, j)
                  && st.statements[j].status == Confirmed
      ensures Apart(Returned(onto, st, notes, now, k), Left(st.statements, notes, j))
    {
      LeftIsShorter(st.statements, notes, j);
      assert Slot(onto, st', notes[k].0, j) && notes[k].0 != j;
    }
  }

  ghost predicate NoteIsOverBy(onto: Ontology, st: State, notes: seq<Note>, now: Time, k: nat, t: Time)
    requires k < |notes| && notes[k].0 in st.statements
  {
    OverBy(onto, st, notes[k].0, Back(st.statements, notes[k]), now, t)
  }

  /** A value that stays lasts past t, whatever returning statement ends it. */
  ghost predicate StaysPast(ss: Statements, notes: seq<Note>, j: Id, t: Time)
    requires j in ss && forall n :: n in notes ==> n.0 in ss
  {
    LastsPast(ss[j], t) && (EndedAt(ss, notes, j).Some? ==> t < EndedAt(ss, notes, j).value)
  }

  /** Of any two values that come back to one timeline, one is over before the other starts. */
  ghost predicate ReturnInTurn(onto: Ontology, st: State, notes: seq<Note>, now: Time)
    requires forall n :: n in notes ==> n.0 in st.statements
  {
    forall k, m | Confirms(notes, k) && Confirms(notes, m) && k != m && Slot(onto, st, notes[k].0, notes[m].0)
      :: var t := Max(st.statements[notes[k].0].Start(), st.statements[notes[m].0].Start());
         NoteIsOverBy(onto, st, notes, now, k, t) || NoteIsOverBy(onto, st, notes, now, m, t)
  }

  /** A confirmed value of its timeline that stays and, unless what comes back carries an end, has not replaced it or is
      not current any more. */
  ghost predicate Beside(onto: Ontology, st: State, notes: seq<Note>, now: Time, k: int, j: Id)
    requires forall n :: n in notes ==> n.0 in st.statements
  {
    && Confirms(notes, k) && Slot(onto, st, notes[k].0, j) && st.statements[j].status == Confirmed && !Noted(notes, j)
    && var back := Back(st.statements, notes[k]);
       back.validTo.Some? || j !in Newer(onto, st, notes[k].0, back, now)
  }

  /** Of a value that comes back and such a one that stays, likewise. */
  ghost predicate ReturnBeside(onto: Ontology, st: State, notes: seq<Note>, now: Time)
    requires forall n :: n in notes ==> n.0 in st.statements
  {
    forall k, j | Beside(onto, st, notes, now, k, j)
      :: var t := Max(st.statements[notes[k].0].Start(), st.statements[j].Start());
         StaysPast(st.statements, notes, j, t) ==> NoteIsOverBy(onto, st, notes, now, k, t)
  }

  lemma NoteIsOverIff(onto: Ontology, st: State, notes: seq<Note>, now: Time, k: nat, t: Time)
    requires k < |notes| && notes[k].0 in st.statements
    ensures var w := Returned(onto, st, notes, now, k);
      && w.Start() == st.statements[notes[k].0].Start()
      && (IsOverBy(w, t) <==> NoteIsOverBy(onto, st, notes, now, k, t))
  {
    hide AsWritten, OverBy;
    WrittenIsOverIff(onto, st, notes[k].0, Back(st.statements, notes[k]), now, t);
  }

  lemma ReturnInTurnIff(onto: Ontology, st: State, notes: seq<Note>, now: Time, k: nat, m: nat)
    requires k < |notes| && m < |notes| && notes[k].0 in st.statements && notes[m].0 in st.statements
    ensures var t := Max(st.statements[notes[k].0].Start(), st.statements[notes[m].0].Start());
      Apart(Returned(onto, st, notes, now, k), Returned(onto, st, notes, now, m))
      <==> NoteIsOverBy(onto, st, notes, now, k, t) || NoteIsOverBy(onto, st, notes, now, m, t)
  {
    hide Returned, NoteIsOverBy, Apart;
    var t := Max(st.statements[notes[k].0].Start(), st.statements[notes[m].0].Start());
    NoteIsOverIff(onto, st, notes, now, k, t);
    NoteIsOverIff(onto, st, notes, now, m, t);
    SpansApartIff(Returned(onto, st, notes, now, k), Returned(onto, st, notes, now, m));
  }

  lemma StaysPastIff(ss: Statements, notes: seq<Note>, j: Id, t: Time)
    requires j in ss && ss[j].Start() <= t && forall n :: n in notes ==> n.0 in ss
    ensures Left(ss, notes, j).Start() == ss[j].Start()
    ensures IsOverBy(Left(ss, notes, j), t) <==> !StaysPast(ss, notes, j, t)
  {
    hide EndedAt;
    LeftIsShorter(ss, notes, j);
  }

  lemma ReturnBesideIff(onto: Ontology, st: State, notes: seq<Note>, now: Time, k: nat, j: Id)
    requires k < |notes| && j in st.statements && forall n :: n in notes ==> n.0 in st.statements
    ensures var t := Max(st.statements[notes[k].0].Start(), st.statements[j].Start());
      Apart(Returned(onto, st, notes, now, k), Left(st.statements, notes, j))
      <==> (StaysPast(st.statements, notes, j, t) ==> NoteIsOverBy(onto, st, notes, now, k, t))
  {
    hide Returned, NoteIsOverBy, Apart, Left, StaysPast;
    var t := Max(st.statements[notes[k].0].Start(), st.statements[j].Start());
    NoteIsOverIff(onto, st, notes, now, k, t);
    StaysPastIff(st.statements, notes, j, t);
    SpansApartIff(Returned(onto, st, notes, now, k), Left(st.statements, notes, j));
  }
  lemma ReplacementsThatStay(onto: Ontology, st: State, notes: seq<Note>, now: Time, k: nat, j: Id)
    requires k < |notes| && j in st.statements && forall n :: n in notes ==> n.0 in st.statements
    requires var back := Back(st.statements, notes[k]);
      back.validTo.None? && j in Newer(onto, st, notes[k].0, back, now)
    ensures Apart(Returned(onto, st, notes, now, k), Left(st.statements, notes, j))
  {
    hide AsWritten, Newer, Left;
    CurrentReplacementsAreMissed(onto, st, notes[k].0, Back(st.statements, notes[k]), now, j);
    LeftIsShorter(st.statements, notes, j);
  }

  lemma AllReturnApartIff(onto: Ontology, st: State, notes: seq<Note>, now: Time)
    requires forall n :: n in notes ==> n.0 in st.statements
    ensures AllReturnApart(onto, st, notes, now)
            <==> ReturnInTurn(onto, st, notes, now) && ReturnBeside(onto, st, notes, now)
  {
    hide Returned, Left, NoteIsOverBy, StaysPast, Apart, Newer, Back, Noted, Canon, Ontology.SingleValued;
    forall k, m | Confirms(notes, k) && Confirms(notes, m)
      ensures var t := Max(st.statements[notes[k].0].Start(), st.statements[notes[m].0].Start());
        Apart(Returned(onto, st, notes, now, k), Returned(onto, st, notes, now, m))
        <==> NoteIsOverBy(onto, st, notes, now, k, t) || NoteIsOverBy(onto, st, notes, now, m, t)
    {
      ReturnInTurnIff(onto, st, notes, now, k, m);
    }
    forall k, j | Confirms(notes, k) && j in st.statements
      ensures var t := Max(st.statements[notes[k].0].Start(), st.statements[j].Start());
        Apart(Returned(onto, st, notes, now, k), Left(st.statements, notes, j))
        <==> (StaysPast(st.statements, notes, j, t) ==> NoteIsOverBy(onto, st, notes, now, k, t))
    {
      ReturnBesideIff(onto, st, notes, now, k, j);
    }
    forall k, j | Confirms(notes, k) && Slot(onto, st, notes[k].0, j) && !Noted(notes, j)
                  && st.statements[j].status == Confirmed && !Beside(onto, st, notes, now, k, j)
      ensures Apart(Returned(onto, st, notes, now, k), Left(st.statements, notes, j))
    {
      ReplacementsThatStay(onto, st, notes, now, k, j);
    }
  }

  lemma RestoredSafeIff(onto: Ontology, st: State, st': State, notes: seq<Note>, now: Time)
    requires TimelineSafe(onto, st) && Distinctly(st.statements, notes) && Restored(onto, st, st', notes, now)
    requires forall i, j :: Slot(onto, st', i, j) <==> Slot(onto, st, i, j)
    ensures TimelineSafe(onto, st') <==> AllReturnApart(onto, st, notes, now)
  {
    hide Canon, Apart, Returned, Left, Ontology.SingleValued;
    if AllReturnApart(onto, st, notes, now) {
      forall i, j | Slot(onto, st', i, j) && i != j
                    && st'.statements[i].status == Confirmed && st'.statements[j].status == Confirmed
        ensures Apart(st'.statements[i], st'.statements[j])
      {
        PairStaysApart(onto, st, st', notes, now, i, j);
      }
    }
    if TimelineSafe(onto, st') {
      AllMet(onto, st, st', notes, now);
    }
  }

  /** A restore keeps timelines apart exactly when what it returns takes turns: of two values that come back to one timeline
      one is over before the other starts, and so of one that comes back and one that stays, ended or not by a return.
      What carries no end is over where its earliest current replacement starts; a replacement that has ended since does
      not count. */
  lemma RestoreKeepsTimelineIff(onto: Ontology, st: State, e: Id, now: Time)
    requires Forest(st.entities) && TimelineSafe(onto, st)
    requires e in st.entities && st.entities[e].removedAt.Some? && Distinctly(st.statements, Pending(st, e))
    ensures TimelineSafe(onto, Restore(onto, st, e, now).state)
            <==> ReturnInTurn(onto, st, Pending(st, e), now) && ReturnBeside(onto, st, Pending(st, e), now)
  {
    hide TimelineSafe, Forest, Restore, StillOut, AllReturnApart, ReturnInTurn, ReturnBeside;
    RestoredApartIff(onto, st, e, now);
    AllReturnApartIff(onto, st, Pending(st, e), now);
  }
}
