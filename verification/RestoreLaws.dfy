/** What is current once a removed entity has been restored. */
module RestoreLaws {
  import opened Records
  import opened MergeForest
  import opened GraphSpec
  import opened TimelineLaws
  import opened RemovalLaws

  type Note = (Id, Status, Option<string>)

  /** Notes as a removal leaves them: about distinct statements that are still withdrawn, each proposed or confirmed
      before, the confirmed ones already started. */
  ghost predicate Taken(ss: Statements, notes: seq<Note>, now: Time) {
    && Distinctly(ss, notes)
    && forall k :: 0 <= k < |notes| ==>
         notes[k].1 != Retracted && (notes[k].1 == Confirmed ==> ss[notes[k].0].Start() <= now)
  }

  /** The notes a restore acts on: a statement brought back or purged since is passed over. */
  ghost function StillOut(ss: Statements, notes: seq<Note>): (r: seq<Note>)
    ensures (forall n :: n in notes ==> n.0 in ss && ss[n.0].status == Retracted) ==> r == notes
  {
    if notes == [] then []
    else
      var front, last := StillOut(ss, notes[..|notes| - 1]), notes[|notes| - 1];
      assert notes == notes[..|notes| - 1] + [last];
      if last.0 in ss && ss[last.0].status == Retracted then front + [last] else front
  }

  ghost function Pending(st: State, e: Id): seq<Note>
    requires e in st.entities
  {
    StillOut(st.statements, st.entities[e].removedStatements)
  }

  lemma OneMorePutBack(onto: Ontology, st: State, front: seq<Note>, last: Note, now: Time)
    requires last.0 in st.statements && st.statements[last.0].status == Retracted
    ensures PutBackAll(onto, st, front + [last], now) == PutBackAll(onto, st, front, now) + Alone(onto, st, last, now)
  {
    hide PutBack;
    var notes := front + [last];
    assert notes[..|notes| - 1] == front && notes[|notes| - 1] == last;
  }

  lemma {:induction false} PassedOver(onto: Ontology, st: State, notes: seq<Note>, now: Time)
    ensures PutBackAll(onto, st, notes, now) == PutBackAll(onto, st, StillOut(st.statements, notes), now)
    decreases |notes|
  {
    hide PutBack, Alone;
    if notes != [] {
      var front, last := notes[..|notes| - 1], notes[|notes| - 1];
      PassedOver(onto, st, front, now);
      if last.0 in st.statements && st.statements[last.0].status == Retracted {
        assert notes == front + [last];
        OneMorePutBack(onto, st, front, last, now);
        OneMorePutBack(onto, st, StillOut(st.statements, front), last, now);
      }
    }
  }

  /** A removal leaves such notes. */
  lemma RemovalTakes(st: State, e: Id, why: string, now: Time, later: Time)
    requires Settled(st.statements, now) && now <= later && Remove(st, e, why, now).result.Ok?
    ensures var gone := Remove(st, e, why, now).state;
            e in gone.entities && Taken(gone.statements, Pending(gone, e), later)
  {
    hide Oldest, Memo;
    RemoveFrame(st, e, why, now);
    NotesOfRemoval(st, e, why, now);
    var gone := Remove(st, e, why, now).state;
    var notes := gone.entities[e].removedStatements;
    hide Remove, Group, Wanted;
    forall k | 0 <= k < |notes|
      ensures notes[k].1 != Retracted && (notes[k].1 == Confirmed ==> gone.statements[notes[k].0].Start() <= later)
    {
      RemovalNoted(st, e, why, now, k);
    }
  }

  lemma RemovalNoted(st: State, e: Id, why: string, now: Time, k: nat)
    requires Settled(st.statements, now) && Remove(st, e, why, now).result.Ok?
    requires k < |Remove(st, e, why, now).state.entities[e].removedStatements|
    ensures var gone := Remove(st, e, why, now).state;
            var note := gone.entities[e].removedStatements[k];
            && note.0 in st.statements && note.1 == st.statements[note.0].status && note.1 != Retracted
            && gone.statements[note.0].Start() == st.statements[note.0].Start()
            && (note.1 == Confirmed ==> st.statements[note.0].Start() <= now)
  {
    hide Oldest;
    RemoveFrame(st, e, why, now);
    var live := Live(st, e, now);
    assert forall i :: i in live ==> i in st.statements && st.statements[i].Holds(now);
    var ids := Oldest(st.statements, live);
    MemoShape(st.statements, ids);
    hide Memo, Live;
    assert ids[k] in live;
  }

  // ---------------------------------------------------------------- what a restore writes

  /** A predecessor that one of the returning statements ends. */
  ghost predicate Closer(ss: Statements, notes: seq<Note>, k: int, i: Id) {
    0 <= k < |notes| && notes[k].0 in ss && i in ClosedByReturn(ss, Back(ss, notes[k]))
  }

  ghost predicate ClosedBySome(ss: Statements, notes: seq<Note>, i: Id) {
    exists k :: Closer(ss, notes, k, i)
  }

  /** What else a restore writes is predecessors, each ended where one of the returning statements starts. */
  lemma {:induction false} OthersAreClosed(onto: Ontology, st: State, notes: seq<Note>, now: Time, i: Id)
    requires Distinctly(st.statements, notes)
    ensures var r := PutBackAll(onto, st, notes, now);
      && (ClosedBySome(st.statements, notes, i) ==> i in r)
      && (i in r && !Noted(notes, i) ==>
            exists k :: Closer(st.statements, notes, k, i)
                        && r[i] == st.statements[i].(validTo := Some(Back(st.statements, notes[k]).Start())))
    decreases |notes|
  {
    if notes != [] {
      var n := |notes| - 1;
      var front, last, back := notes[..n], Alone(onto, st, notes[n], now), Back(st.statements, notes[n]);
      OthersAreClosed(onto, st, front, now, i);
      LastIsPutBack(onto, st, notes, now);
      PutBackShape(onto, st, notes[n].0, back, now);
      hide PutBackAll, PutBack, Newer;
      var r := PutBackAll(onto, st, notes, now);
      assert forall k :: 0 <= k < n ==> front[k] == notes[k];
      FrontClosers(st.statements, notes, i);
      FrontNotes(notes, i);
      if i in r && !Noted(notes, i) {
        assert notes[n].0 != i;
        if i in last {
          assert Closer(st.statements, notes, n, i);
        } else {
          var k :| Closer(st.statements, front, k, i)
                   && PutBackAll(onto, st, front, now)[i]
                      == st.statements[i].(validTo := Some(Back(st.statements, front[k]).Start()));
          assert Closer(st.statements, notes, k, i);
        }
      }
    }
  }

  lemma LastIsPutBack(onto: Ontology, st: State, notes: seq<Note>, now: Time)
    requires notes != [] && Distinctly(st.statements, notes)
    ensures var n := |notes| - 1;
      PutBackAll(onto, st, notes, now) == PutBackAll(onto, st, notes[..n], now) + Alone(onto, st, notes[n], now)
  {
    hide PutBackAll, Alone;
    var n := |notes| - 1;
    assert notes == notes[..n] + [notes[n]];
    OneMorePutBack(onto, st, notes[..n], notes[n], now);
  }

  lemma FrontNotes(notes: seq<Note>, i: Id)
    requires notes != []
    ensures Noted(notes[..|notes| - 1], i) ==> Noted(notes, i)
  {
    var front := notes[..|notes| - 1];
    if Noted(front, i) {
      var k :| 0 <= k < |front| && front[k].0 == i;
      assert notes[k].0 == i;
    }
  }

  lemma FrontClosers(ss: Statements, notes: seq<Note>, i: Id)
    requires notes != []
    ensures var n := |notes| - 1;
      ClosedBySome(ss, notes, i) <==> ClosedBySome(ss, notes[..n], i) || Closer(ss, notes, n, i)
  {
    hide ClosedByReturn, Back;
    var n := |notes| - 1;
    if k :| Closer(ss, notes, k, i) && k != n {
      assert Closer(ss, notes[..n], k, i);
    }
    if k :| Closer(ss, notes[..n], k, i) {
      assert Closer(ss, notes, k, i);
    }
  }

  // ---------------------------------------------------------------- what is current

  /** Note k is about the statement j, and it comes back current under the subject and property. */
  ghost predicate Returns(onto: Ontology, st: State, notes: seq<Note>, now: Time, subject: Id, property: string, k: int,
                          j: Id)
  {
    && 0 <= k < |notes| && notes[k].0 == j && j in st.statements
    && st.statements[j].subject in Group(st.entities, subject) && st.statements[j].property == property
    && ComesBackCurrent(onto, st, j, Back(st.statements, notes[k]), now)
  }

  ghost predicate ComesBack(onto: Ontology, st: State, notes: seq<Note>, now: Time, subject: Id, property: string, j: Id) {
    exists k :: Returns(onto, st, notes, now, subject, property, k, j)
  }

  lemma RestoreWrites(onto: Ontology, st: State, e: Id, now: Time)
    requires e in st.entities && st.entities[e].removedAt.Some?
    ensures var out := Restore(onto, st, e, now).state;
      && out.statements == st.statements + PutBackAll(onto, st, Pending(st, e), now)
      && out.entities.Keys == st.entities.Keys
      && forall x :: x in st.entities ==>
           out.entities[x].mergedInto == st.entities[x].mergedInto && out.entities[x].class_ == st.entities[x].class_
  {
    PassedOver(onto, st, st.entities[e].removedStatements, now);
    hide PutBackAll, StillOut;
  }

  lemma NotedIsWritten(onto: Ontology, st: State, notes: seq<Note>, now: Time, k: nat)
    requires Distinctly(st.statements, notes) && k < |notes|
    ensures var r, j, back := PutBackAll(onto, st, notes, now), notes[k].0, Back(st.statements, notes[k]);
      && j in r
      && r[j] == if back.status == Confirmed && back.validTo.None?
                 then ClosedByNewer(st.statements, Newer(onto, st, j, back, now), back) else back
  {
    PutBackAllRestores(onto, st, notes, now);
    PutBackShape(onto, st, notes[k].0, Back(st.statements, notes[k]), now);
    hide PutBackAll, PutBack, Newer, ClosedByNewer;
  }

  /** A noted statement is current after the restore exactly when it comes back current. */
  lemma NotedCurrent(onto: Ontology, st: State, e: Id, now: Time, subject: Id, property: string, k: nat)
    requires e in st.entities && st.entities[e].removedAt.Some? && Settled(st.statements, now)
    requires Taken(st.statements, Pending(st, e), now) && k < |Pending(st, e)|
    ensures var out, notes := Restore(onto, st, e, now).state, Pending(st, e);
      notes[k].0 in Current(out, subject, property, now, false)
      <==> Returns(onto, st, notes, now, subject, property, k, notes[k].0)
  {
    hide Restore, PutBackAll, Newer, ClosedByNewer, Current, Group;
    var out, notes := Restore(onto, st, e, now).state, Pending(st, e);
    var j, back := notes[k].0, Back(st.statements, notes[k]);
    RestoreWrites(onto, st, e, now);
    NotedIsWritten(onto, st, notes, now, k);
    SamePointersSameGroup(st.entities, out.entities, subject);
    CurrentMember(out, subject, property, now, j);
    if back.status == Confirmed && back.validTo.None? {
      BackInIsCurrent(onto, st, j, back, now);
    }
  }

  /** Any other statement is current afterwards exactly when it was and no returning one ends it. */
  lemma OtherCurrent(onto: Ontology, st: State, e: Id, now: Time, subject: Id, property: string, j: Id)
    requires e in st.entities && st.entities[e].removedAt.Some? && Settled(st.statements, now)
    requires Taken(st.statements, Pending(st, e), now)
    requires !Noted(Pending(st, e), j)
    ensures var out, notes := Restore(onto, st, e, now).state, Pending(st, e);
      j in Current(out, subject, property, now, false)
      <==> j in Current(st, subject, property, now, false) && !ClosedBySome(st.statements, notes, j)
  {
    hide Restore, PutBackAll, Current, Group, ClosedByReturn;
    var out, notes := Restore(onto, st, e, now).state, Pending(st, e);
    RestoreWrites(onto, st, e, now);
    OthersAreClosed(onto, st, notes, now, j);
    PutBackAllRestores(onto, st, notes, now);
    SamePointersSameGroup(st.entities, out.entities, subject);
    CurrentMember(out, subject, property, now, j);
    CurrentMember(st, subject, property, now, j);
    var r := PutBackAll(onto, st, notes, now);
    if j in r {
      var k :| Closer(st.statements, notes, k, j)
               && r[j] == st.statements[j].(validTo := Some(Back(st.statements, notes[k]).Start()));
      ClosersAreOpen(st.statements, Back(st.statements, notes[k]), j);
      assert out.statements[j] == r[j] && !out.statements[j].ValidAt(now);
    } else {
      assert j in out.statements <==> j in st.statements;
      assert j in st.statements ==> out.statements[j] == st.statements[j];
    }
  }

  lemma ClosersAreOpen(ss: Statements, back: Statement, i: Id)
    requires i in ClosedByReturn(ss, back)
    ensures i in ss && back.status == Confirmed && back.validTo.None? && ss[i].Start() <= back.Start()
  {
  }

  /** After a restore the current values are those that come back current, and those that were and that no returning
      statement ends. */
  lemma RestoreCurrent(onto: Ontology, st: State, e: Id, now: Time, subject: Id, property: string, j: Id)
    requires e in st.entities && st.entities[e].removedAt.Some? && Settled(st.statements, now)
    requires Taken(st.statements, Pending(st, e), now)
    ensures var out, notes := Restore(onto, st, e, now).state, Pending(st, e);
      j in Current(out, subject, property, now, false)
      <==> || ComesBack(onto, st, notes, now, subject, property, j)
           || (j in Current(st, subject, property, now, false) && !ClosedBySome(st.statements, notes, j))
  {
    hide Restore, ClosedByReturn, ComesBackCurrent, Returns;
    var notes := Pending(st, e);
    WithdrawnIsNotCurrent(st, notes, now, subject, property, j);
    hide Current, Distinctly;
    if Noted(notes, j) {
      var k :| 0 <= k < |notes| && notes[k].0 == j;
      NotedCurrent(onto, st, e, now, subject, property, k);
      OneNoteEach(onto, st, notes, now, subject, property, k, j);
    } else {
      OtherCurrent(onto, st, e, now, subject, property, j);
      ReturningIsNoted(onto, st, notes, now, subject, property, j);
    }
  }

  lemma OneNoteEach(onto: Ontology, st: State, notes: seq<Note>, now: Time, subject: Id, property: string, k: nat, j: Id)
    requires Distinctly(st.statements, notes) && k < |notes| && notes[k].0 == j
    ensures ComesBack(onto, st, notes, now, subject, property, j)
            <==> Returns(onto, st, notes, now, subject, property, k, j)
  {
    hide ComesBackCurrent, Group;
    if m :| Returns(onto, st, notes, now, subject, property, m, j) {
      assert m == k;
    }
  }

  lemma ReturningIsNoted(onto: Ontology, st: State, notes: seq<Note>, now: Time, subject: Id, property: string, j: Id)
    ensures ComesBack(onto, st, notes, now, subject, property, j) ==> Noted(notes, j)
  {
    if ComesBack(onto, st, notes, now, subject, property, j) {
      var m :| Returns(onto, st, notes, now, subject, property, m, j);
      assert 0 <= m < |notes| && notes[m].0 == j;
    }
  }

  lemma WithdrawnIsNotCurrent(st: State, notes: seq<Note>, now: Time, subject: Id, property: string, j: Id)
    requires Settled(st.statements, now) && Distinctly(st.statements, notes)
    ensures Noted(notes, j) ==> j !in Current(st, subject, property, now, false)
  {
    hide Group;
  }

  ghost predicate OneComesBack(onto: Ontology, st: State, notes: seq<Note>, now: Time, subject: Id, property: string) {
    forall i, j | ComesBack(onto, st, notes, now, subject, property, i)
                  && ComesBack(onto, st, notes, now, subject, property, j) :: i == j
  }

  /** A restore leaves at most one current value exactly when at most one comes back current, and when one does, every
      value that was current is ended by a returning one. A value that carries an end comes back as it was, whatever has
      replaced it. */
  lemma RestoreLeavesAtMostOneIff(onto: Ontology, st: State, e: Id, now: Time, subject: Id, property: string)
    requires e in st.entities && st.entities[e].removedAt.Some? && Settled(st.statements, now)
    requires Taken(st.statements, Pending(st, e), now)
    requires AtMostOne(Current(st, subject, property, now, false))
    ensures var out, notes := Restore(onto, st, e, now).state, Pending(st, e);
      AtMostOne(Current(out, subject, property, now, false))
      <==> && OneComesBack(onto, st, notes, now, subject, property)
           && (forall i, j | ComesBack(onto, st, notes, now, subject, property, i)
                             && j in Current(st, subject, property, now, false) :: ClosedBySome(st.statements, notes, j))
  {
    var out, notes := Restore(onto, st, e, now).state, Pending(st, e);
    var before, after := Current(st, subject, property, now, false), Current(out, subject, property, now, false);
    forall j
      ensures j in after <==> || ComesBack(onto, st, notes, now, subject, property, j)
                              || (j in before && !ClosedBySome(st.statements, notes, j))
      ensures ComesBack(onto, st, notes, now, subject, property, j) ==> j !in before
    {
      RestoreCurrent(onto, st, e, now, subject, property, j);
      ComesBackWasGone(onto, st, notes, now, subject, property, j);
    }
    hide ComesBack, ClosedBySome, Current, Restore;
  }

  lemma ComesBackWasGone(onto: Ontology, st: State, notes: seq<Note>, now: Time, subject: Id, property: string, j: Id)
    requires Settled(st.statements, now) && Distinctly(st.statements, notes)
    ensures ComesBack(onto, st, notes, now, subject, property, j) ==> j !in Current(st, subject, property, now, false)
  {
    hide Current, Distinctly, ComesBackCurrent, Group;
    WithdrawnIsNotCurrent(st, notes, now, subject, property, j);
    ReturningIsNoted(onto, st, notes, now, subject, property, j);
  }

  /** A withdrawn value that was replaced meanwhile: an open one comes back ended at the replacement's start and is not
      current; one that carries an end comes back as it was, and is current beside its replacement until that end. */
  lemma RestoreClosesReplacedIff(onto: Ontology, st: State, e: Id, now: Time, k: nat)
    requires e in st.entities && st.entities[e].removedAt.Some? && Settled(st.statements, now)
    requires Taken(st.statements, Pending(st, e), now) && k < |Pending(st, e)|
    requires var note := Pending(st, e)[k];
             note.1 == Confirmed && Newer(onto, st, note.0, Back(st.statements, note), now) != {}
    ensures var note := Pending(st, e)[k];
            var back := Back(st.statements, note);
            var out := Restore(onto, st, e, now).state;
            && note.0 in out.statements
            && (out.statements[note.0] ==
                  if back.validTo.Some? then back
                  else back.(validTo := Some(EarliestStart(st.statements, Newer(onto, st, note.0, back, now)))))
            && (note.0 in Current(out, back.subject, back.property, now, false)
                <==> back.validTo.Some? && now < back.validTo.value)
  {
    hide Restore, PutBackAll, Newer, Current, Group;
    var note := Pending(st, e)[k];
    RestoreWrites(onto, st, e, now);
    NotedIsWritten(onto, st, Pending(st, e), now, k);
    NotedCurrent(onto, st, e, now, st.statements[note.0].subject, st.statements[note.0].property, k);
    InItsOwnGroup(st.entities, st.statements[note.0].subject);
  }
}
