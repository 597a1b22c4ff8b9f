/** Taking statements out of memory and putting them back: what comes back, and exactly when
    it is what was there before. */
module RemovalLaws {
  import opened Records
  import opened MergeForest
  import opened GraphSpec
  import opened TimelineLaws

  // ---------------------------------------------------------------- what a removal notes

  lemma {:induction false} MemoShape(ss: Statements, ids: seq<Id>)
    requires forall i :: i in ids ==> i in ss
    ensures |Memo(ss, ids)| == |ids|
    ensures forall k :: 0 <= k < |ids| ==> Memo(ss, ids)[k] == (ids[k], ss[ids[k]].status, ss[ids[k]].reason)
  {
    if ids != [] { MemoShape(ss, ids[1..]); }
  }

  function Back(ss: Statements, note: (Id, Status, Option<string>)): Statement
    requires note.0 in ss
  {
    ss[note.0].(status := note.1, retractedAt := None, reason := note.2)
  }

  ghost predicate Noted(notes: seq<(Id, Status, Option<string>)>, i: Id) {
    exists k :: 0 <= k < |notes| && notes[k].0 == i
  }

  /** Notes about distinct statements, each still withdrawn. */
  ghost predicate Distinctly(ss: Statements, notes: seq<(Id, Status, Option<string>)>) {
    && (forall k :: 0 <= k < |notes| ==> notes[k].0 in ss && ss[notes[k].0].status == Retracted)
    && (forall j, k :: 0 <= j < k < |notes| ==> notes[j].0 != notes[k].0)
  }

  lemma PutBackShape(onto: Ontology, st: State, id: Id, back: Statement, now: Time)
    requires id in st.statements && st.statements[id].status == Retracted
    ensures var r := PutBack(onto, st, id, back, now);
            var open := back.status == Confirmed && back.validTo.None?;
            var closed := if open then Reclosed(st.statements, back) else {};
            && id !in closed && r.Keys == closed + {id}
            && (forall i :: i in closed ==> r[i] == st.statements[i].(validTo := Some(back.Start())))
            && r[id] == if open then ClosedByNewer(st.statements, Newer(onto, st, id, back, now), back) else back
  {
    hide Newer, ClosedByNewer;
  }

  /** What putting one noted statement back would write, alone. */
  ghost function Alone(onto: Ontology, st: State, note: (Id, Status, Option<string>), now: Time): Statements
    requires note.0 in st.statements
  {
    PutBack(onto, st, note.0, Back(st.statements, note), now)
  }

  /** An open confirmed value, about to be closed. */
  predicate Closing(ss: Statements, r: Statements, i: Id) {
    i in ss && i in r && ss[i].status == Confirmed && ss[i].validTo.None? && r[i].validTo.Some?
  }

  /** A restore writes, for every note, what putting that statement back alone would write; the
      rest of what it writes is open predecessors, closed. */
  ghost predicate Restores(onto: Ontology, st: State, notes: seq<(Id, Status, Option<string>)>, now: Time, r: Statements)
    requires forall k :: 0 <= k < |notes| ==> notes[k].0 in st.statements
  {
    && (forall k :: 0 <= k < |notes| ==>
          notes[k].0 in r && notes[k].0 in Alone(onto, st, notes[k], now)
          && r[notes[k].0] == Alone(onto, st, notes[k], now)[notes[k].0])
    && (forall k, i :: 0 <= k < |notes| && i in Alone(onto, st, notes[k], now) ==> i in r)
    && (forall i :: i in r && !Noted(notes, i) ==>
          Closing(st.statements, r, i) && exists k :: 0 <= k < |notes| && i in Alone(onto, st, notes[k], now))
  }

  lemma AloneShape(onto: Ontology, st: State, note: (Id, Status, Option<string>), now: Time)
    requires note.0 in st.statements && st.statements[note.0].status == Retracted
    ensures var r := Alone(onto, st, note, now);
            note.0 in r && forall i :: i in r && i != note.0 ==> Closing(st.statements, r, i)
  {
    PutBackShape(onto, st, note.0, Back(st.statements, note), now);
    hide PutBack, Newer;
  }

  lemma {:induction false} PutBackAllRestores(onto: Ontology, st: State, notes: seq<(Id, Status, Option<string>)>, now: Time)
    requires Distinctly(st.statements, notes)
    ensures Restores(onto, st, notes, now, PutBackAll(onto, st, notes, now))
    decreases |notes|
  {
    if notes != [] {
      var n := |notes| - 1;
      PutBackAllRestores(onto, st, notes[..n], now);
      assert PutBackAll(onto, st, notes, now) == PutBackAll(onto, st, notes[..n], now) + Alone(onto, st, notes[n], now);
      forall k | 0 <= k < |notes| { AloneShape(onto, st, notes[k], now); }
      hide PutBackAll, Alone;
      RestoresOneMore(onto, st, notes, now, PutBackAll(onto, st, notes[..n], now), PutBackAll(onto, st, notes, now));
    }
  }

  lemma RestoresOneMore(onto: Ontology, st: State, notes: seq<(Id, Status, Option<string>)>, now: Time, before: Statements, r: Statements)
    requires notes != [] && Distinctly(st.statements, notes)
    requires Restores(onto, st, notes[..|notes| - 1], now, before)
    requires r == before + Alone(onto, st, notes[|notes| - 1], now)
    requires forall k :: 0 <= k < |notes| ==>
      notes[k].0 in Alone(onto, st, notes[k], now)
      && forall i :: i in Alone(onto, st, notes[k], now) && i != notes[k].0 ==> Closing(st.statements, Alone(onto, st, notes[k], now), i)
    ensures Restores(onto, st, notes, now, r)
  {
    hide Alone;
    var n := |notes| - 1;
    var init, last := notes[..n], Alone(onto, st, notes[n], now);
    forall k | 0 <= k < |notes|
      ensures notes[k].0 in r && r[notes[k].0] == Alone(onto, st, notes[k], now)[notes[k].0]
    {
      if k < n { assert init[k] == notes[k] && notes[k].0 !in last; }
    }
    forall k, i | 0 <= k < |notes| && i in Alone(onto, st, notes[k], now) ensures i in r {
      if k < n { assert init[k] == notes[k]; }
    }
    forall i | i in r && !Noted(notes, i)
      ensures Closing(st.statements, r, i) && exists k :: 0 <= k < |notes| && i in Alone(onto, st, notes[k], now)
    {
      assert notes[n].0 != i;
      if i in last {
        assert Closing(st.statements, last, i);
      } else {
        assert forall k :: 0 <= k < n ==> init[k] == notes[k];
        assert !Noted(init, i);
        var k :| 0 <= k < n && i in Alone(onto, st, init[k], now);
        assert init[k] == notes[k];
      }
    }
  }

  // ---------------------------------------------------------------- remove, then restore

  /** Putting this statement back writes that statement and nothing else: it reopens under no
      newer value, and closes no predecessor. */
  ghost predicate Undisturbed(onto: Ontology, gone: State, id: Id, s: Statement, now: Time) {
    s.status == Confirmed && s.validTo.None? ==>
      !Recloses(gone.statements, s) && Newer(onto, gone, id, s, now) == {}
  }

  lemma AloneIsJustThat(onto: Ontology, st: State, note: (Id, Status, Option<string>), now: Time)
    requires note.0 in st.statements && st.statements[note.0].status == Retracted
    ensures Alone(onto, st, note, now) == map[note.0 := Back(st.statements, note)]
            <==> Undisturbed(onto, st, note.0, Back(st.statements, note), now)
    ensures Alone(onto, st, note, now) != map[note.0 := Back(st.statements, note)] ==>
            (note.0 in Alone(onto, st, note, now) && Alone(onto, st, note, now)[note.0] != Back(st.statements, note))
            || exists i :: i in Alone(onto, st, note, now) && i != note.0
  {
    PutBackShape(onto, st, note.0, Back(st.statements, note), now);
    hide PutBack, Newer;
    if i :| i in Alone(onto, st, note, now) && i != note.0 {}
  }

  ghost predicate AllUndisturbed(onto: Ontology, st: State, notes: seq<(Id, Status, Option<string>)>, now: Time)
    requires forall k :: 0 <= k < |notes| ==> notes[k].0 in st.statements
  {
    forall k :: 0 <= k < |notes| ==> Undisturbed(onto, st, notes[k].0, Back(st.statements, notes[k]), now)
  }

  ghost predicate Wanted(ss: Statements, notes: seq<(Id, Status, Option<string>)>, want: Statements)
    requires forall k :: 0 <= k < |notes| ==> notes[k].0 in ss
  {
    (forall i :: i in want <==> Noted(notes, i))
    && forall k :: 0 <= k < |notes| ==> notes[k].0 in want && want[notes[k].0] == Back(ss, notes[k])
  }

  /** Undisturbed, a restore writes exactly the noted statements, as noted. */
  lemma UndisturbedRestores(onto: Ontology, st: State, notes: seq<(Id, Status, Option<string>)>, now: Time, r: Statements, want: Statements)
    requires Distinctly(st.statements, notes) && Restores(onto, st, notes, now, r) && Wanted(st.statements, notes, want)
    requires AllUndisturbed(onto, st, notes, now)
    ensures r == want
  {
    forall k | 0 <= k < |notes| ensures Alone(onto, st, notes[k], now) == map[notes[k].0 := Back(st.statements, notes[k])] {
      AloneIsJustThat(onto, st, notes[k], now);
    }
    hide Alone, AllUndisturbed, Back;
    forall i | i in r ensures i in want && r[i] == want[i] {
      assert Noted(notes, i);
      var k :| 0 <= k < |notes| && notes[k].0 == i;
    }
  }

  /** Disturbed, it writes something else. */
  lemma DisturbedDoesNot(onto: Ontology, st: State, notes: seq<(Id, Status, Option<string>)>, now: Time, r: Statements, want: Statements)
    requires Distinctly(st.statements, notes) && Restores(onto, st, notes, now, r) && Wanted(st.statements, notes, want)
    requires !AllUndisturbed(onto, st, notes, now)
    ensures exists i :: i in r && ((i in want && r[i] != want[i]) || (i !in want && Closing(st.statements, r, i)))
  {
    var k :| 0 <= k < |notes| && !Undisturbed(onto, st, notes[k].0, Back(st.statements, notes[k]), now);
    var alone := Alone(onto, st, notes[k], now);
    AloneIsJustThat(onto, st, notes[k], now);
    AloneShape(onto, st, notes[k], now);
    hide Alone, Undisturbed, Back, AllUndisturbed;
    if i :| i in alone && i != notes[k].0 {
      assert i in r;
      assert !Noted(notes, i);
      assert i !in want && Closing(st.statements, r, i);
    } else {
      var i := notes[k].0;
      assert i in r && i in want && r[i] != want[i];
    }
  }

  /** The notes of a removal name what it withdrew, as it was. */
  lemma NotesOfRemoval(st: State, e: Id, why: string, now: Time)
    requires Settled(st.statements, now) && Remove(st, e, why, now).result.Ok?
    ensures var gone := Remove(st, e, why, now).state;
            var notes := gone.entities[e].removedStatements;
            && Distinctly(gone.statements, notes)
            && Wanted(gone.statements, notes, map i | i in Live(st, e, now) :: st.statements[i])
            && (forall i :: i in Live(st, e, now) <==> Noted(notes, i))
  {
    var live := Live(st, e, now);
    RemoveFrame(st, e, why, now);
    assert forall i :: i in live ==> st.statements[i].Holds(now);
    var gone := Remove(st, e, why, now).state;
    var ids := Oldest(st.statements, live);
    assert gone.entities[e].removedStatements == Memo(st.statements, ids);
    hide Remove, Live, Oldest, Memo;
    NotesOf(st.statements, gone.statements, live, ids, why, now);
  }

  lemma NotesOf(ss: Statements, ss': Statements, live: set<Id>, ids: seq<Id>, why: string, now: Time)
    requires live <= ss.Keys && live <= ss'.Keys && (forall i :: i in ids <==> i in live)
    requires forall j, k :: 0 <= j < k < |ids| ==> ids[j] != ids[k]
    requires forall i :: i in live ==> ss[i].status != Retracted && ss[i].retractedAt.None?
                                       && ss'[i] == Withdrawn(ss[i], Some(why), now)
    ensures var notes := Memo(ss, ids);
            && Distinctly(ss', notes) && Wanted(ss', notes, map i | i in live :: ss[i])
            && (forall i :: i in live <==> Noted(notes, i))
  {
    hide Memo;
    var notes := Memo(ss, ids);
    MemoShape(ss, ids);
    forall k | 0 <= k < |notes| ensures notes[k].0 in live && Back(ss', notes[k]) == ss[notes[k].0] {
      assert notes[k].0 == ids[k];
    }
    forall i | i in live ensures Noted(notes, i) {
      var k :| 0 <= k < |ids| && ids[k] == i;
      assert notes[k].0 == i;
    }
  }

  /** With nothing written in between, a restore gives back the very state before the removal
      exactly when none of the withdrawn values is disturbed on its way back. */
  lemma RemoveThenRestoreIff(onto: Ontology, st: State, e: Id, why: string, now: Time, later: Time)
    requires Settled(st.statements, now) && Remove(st, e, why, now).result.Ok?
    requires st.entities[e].removedReason.None? && st.entities[e].removedStatements == []
    ensures var gone := Remove(st, e, why, now).state;
            Restore(onto, gone, e, later) == Outcome(st, Ok(e)) <==>
            forall i :: i in Live(st, e, now) ==> Undisturbed(onto, gone, i, st.statements[i], later)
  {
    var gone := Remove(st, e, why, now).state;
    var live := Live(st, e, now);
    var notes := gone.entities[e].removedStatements;
    var want: Statements := map i | i in live :: st.statements[i];
    RemoveFrame(st, e, why, now);
    NotesOfRemoval(st, e, why, now);
    PutBackAllRestores(onto, gone, notes, later);
    hide Remove, Live, Oldest, Memo, Restores, Undisturbed, PutBackAll, Restore;
    var r := PutBackAll(onto, gone, notes, later);
    RestoreFrame(onto, st, gone, e, later, gone.entities[e]);
    NotedUndisturbed(onto, gone, notes, later, want);
    RestoredIff(onto, st.statements, gone, notes, later, r, live);
  }

  lemma RestoredIff(onto: Ontology, ss: Statements, gone: State, notes: seq<(Id, Status, Option<string>)>, later: Time,
                    r: Statements, live: set<Id>)
    requires live <= ss.Keys && gone.statements.Keys == ss.Keys
    requires forall i :: i in ss && i !in live ==> gone.statements[i] == ss[i]
    requires Distinctly(gone.statements, notes) && Restores(onto, gone, notes, later, r)
    requires Wanted(gone.statements, notes, map i | i in live :: ss[i])
    ensures gone.statements + r == ss <==> AllUndisturbed(onto, gone, notes, later)
  {
    var want: Statements := map i | i in live :: ss[i];
    var clear := AllUndisturbed(onto, gone, notes, later);
    hide *;
    if clear {
      UndisturbedRestores(onto, gone, notes, later, r, want);
      WrittenBack(ss, gone.statements, live, want);
    } else {
      DisturbedDoesNot(onto, gone, notes, later, r, want);
      WrittenOver(ss, gone.statements, r, want);
    }
  }

  lemma WrittenBack(ss: Statements, ss': Statements, live: set<Id>, want: Statements)
    requires ss'.Keys == ss.Keys && live <= ss.Keys && want == map i | i in live :: ss[i]
    requires forall i :: i in ss && i !in live ==> ss'[i] == ss[i]
    ensures ss' + want == ss
  {
  }

  lemma WrittenOver(ss: Statements, ss': Statements, r: Statements, want: Statements)
    requires ss'.Keys == ss.Keys && (forall i :: i in want ==> i in ss && want[i] == ss[i])
    requires forall i :: i in ss && i !in want ==> ss'[i] == ss[i]
    requires exists i :: i in r && ((i in want && r[i] != want[i]) || (i !in want && Closing(ss', r, i)))
    ensures ss' + r != ss
  {
    var i :| i in r && ((i in want && r[i] != want[i]) || (i !in want && Closing(ss', r, i)));
    assert (ss' + r)[i] == r[i];
  }

  lemma RestoreFrame(onto: Ontology, st: State, gone: State, e: Id, later: Time, entity: Entity)
    requires e in st.entities && st.entities[e].removedAt.None?
    requires st.entities[e].removedReason.None? && st.entities[e].removedStatements == []
    requires gone.entities == st.entities[e := entity] && entity.removedAt.Some?
    requires entity.(removedAt := None, removedReason := None, removedStatements := []) == st.entities[e]
    requires gone.decisions == st.decisions
    ensures Restore(onto, gone, e, later) ==
            Outcome(State(st.entities, gone.statements + PutBackAll(onto, gone, gone.entities[e].removedStatements, later),
                          st.decisions), Ok(e))
  {
    hide PutBackAll;
    var standing := gone.entities[e].(removedAt := None, removedReason := None, removedStatements := []);
    assert standing == st.entities[e];
    assert gone.entities[e := standing] == st.entities;
  }

  lemma NotedUndisturbed(onto: Ontology, st: State, notes: seq<(Id, Status, Option<string>)>, now: Time, want: Statements)
    requires Distinctly(st.statements, notes) && Wanted(st.statements, notes, want)
    ensures AllUndisturbed(onto, st, notes, now) <==> forall i :: i in want ==> Undisturbed(onto, st, i, want[i], now)
  {
    hide Undisturbed, Back;
    if AllUndisturbed(onto, st, notes, now) {
      forall i | i in want ensures Undisturbed(onto, st, i, want[i], now) {
        var k :| 0 <= k < |notes| && notes[k].0 == i;
      }
    }
  }

  lemma RemoveFrame(st: State, e: Id, why: string, now: Time)
    requires Remove(st, e, why, now).result.Ok?
    ensures var gone, live := Remove(st, e, why, now).state, Live(st, e, now);
            && live <= st.statements.Keys && gone.decisions == st.decisions
            && gone.statements.Keys == st.statements.Keys
            && (forall i :: i in live ==> gone.statements[i] == Withdrawn(st.statements[i], Some(why), now))
            && (forall i :: i in st.statements && i !in live ==> gone.statements[i] == st.statements[i])
            && e in st.entities && st.entities[e].Standing()
            && gone.entities == st.entities[e := st.entities[e].(removedAt := Some(now), removedReason := Some(why),
                                                removedStatements := Memo(st.statements, Oldest(st.statements, live)))]
  {
    hide Oldest, Memo, Group;
  }

  /** One current value at most where this one belongs, and a predecessor of the same timeline. */
  ghost predicate AloneInItsPlace(onto: Ontology, st: State, i: Id, t: Time)
    requires i in st.statements
  {
    var s := st.statements[i];
    var single := s.subject in st.entities && onto.SingleValued(st.entities[s.subject], s.property);
    && (single ==> AtMostOne(Current(st, s.subject, s.property, t, false)))
    && (s.supersedes.Some? && s.supersedes.value in st.statements ==>
          single && s.supersedes.value != i
          && st.statements[s.supersedes.value].property == s.property
          && st.statements[s.supersedes.value].subject in Group(st.entities, s.subject))
  }

  lemma AloneIsUndisturbed(onto: Ontology, st: State, e: Id, why: string, now: Time, later: Time, i: Id)
    requires Settled(st.statements, now) && now <= later && Remove(st, e, why, now).result.Ok?
    requires i in Live(st, e, now) && AloneInItsPlace(onto, st, i, later)
    ensures Undisturbed(onto, Remove(st, e, why, now).state, i, st.statements[i], later)
  {
    var s := st.statements[i];
    var gone := Remove(st, e, why, now).state;
    RemoveFrame(st, e, why, now);
    SamePointersSameGroup(st.entities, gone.entities, s.subject);
    assert s.Holds(now);
    assert gone.entities.Keys == st.entities.Keys && forall x :: x in st.entities ==> gone.entities[x].class_ == st.entities[x].class_;
    var live := Live(st, e, now);
    hide Remove, Live;
    StillAlone(onto, st, gone, live, i, now, later);
  }

  lemma StillAlone(onto: Ontology, st: State, gone: State, live: set<Id>, i: Id, now: Time, later: Time)
    requires i in st.statements && AloneInItsPlace(onto, st, i, later) && i in live && st.statements[i].Holds(now)
    requires Settled(st.statements, now) && now <= later
    requires gone.statements.Keys == st.statements.Keys && gone.entities.Keys == st.entities.Keys
    requires forall x :: x in st.entities ==> gone.entities[x].class_ == st.entities[x].class_
    requires forall j | j in live && j in st.statements ::
      gone.statements[j].status == Retracted && gone.statements[j].retractedAt == Some(now)
    requires forall j :: j in st.statements && j !in live ==> gone.statements[j] == st.statements[j]
    requires Group(gone.entities, st.statements[i].subject) == Group(st.entities, st.statements[i].subject)
    ensures Undisturbed(onto, gone, i, st.statements[i], later)
  {
    var s := st.statements[i];
    var single := s.subject in st.entities && onto.SingleValued(st.entities[s.subject], s.property);
    assert s.subject in Group(st.entities, s.subject);
    hide Group;
    if s.status == Confirmed && s.validTo.None? && single {
      var before := Current(st, s.subject, s.property, later, false);
      assert i in before;
      forall j | j in Newer(onto, gone, i, s, later) ensures j in before && j != i {
        assert gone.statements[j].KnownAt(later);
        assert gone.statements[j] == st.statements[j];
      }
      if s.supersedes.Some? && s.supersedes.value in st.statements && s.supersedes.value !in live {
        OpenPredecessorIsCurrent(st, s, s.supersedes.value, now, later);
      }
    }
  }

  lemma OpenPredecessorIsCurrent(st: State, s: Statement, p: Id, now: Time, later: Time)
    requires p in st.statements && Settled(st.statements, now) && now <= later && s.Start() <= now
    requires st.statements[p].property == s.property && st.statements[p].subject in Group(st.entities, s.subject)
    ensures st.statements[p].status == Confirmed && st.statements[p].validTo.None? && st.statements[p].Start() <= s.Start()
            ==> p in Current(st, s.subject, s.property, later, false)
  {
  }

  /** Where single-valued properties have one current value, removal undoes without a trace. */
  lemma RemoveThenRestore(onto: Ontology, st: State, e: Id, why: string, now: Time, later: Time)
    requires Settled(st.statements, now) && now <= later && Remove(st, e, why, now).result.Ok?
    requires st.entities[e].removedReason.None? && st.entities[e].removedStatements == []
    requires forall i :: i in Live(st, e, now) ==> AloneInItsPlace(onto, st, i, later)
    ensures Restore(onto, Remove(st, e, why, now).state, e, later) == Outcome(st, Ok(e))
  {
    forall i | i in Live(st, e, now)
      ensures Undisturbed(onto, Remove(st, e, why, now).state, i, st.statements[i], later)
    {
      AloneIsUndisturbed(onto, st, e, why, now, later, i);
    }
    RemoveThenRestoreIff(onto, st, e, why, now, later);
  }

  // ---------------------------------------------------------------- putting one back

  /** Whether a value put back is current: a replacement recorded since ends an open one, but one that carries an end
      is put back as it was. */
  ghost predicate ComesBackCurrent(onto: Ontology, st: State, id: Id, back: Statement, now: Time) {
    back.status == Confirmed && back.ValidAt(now) && (back.validTo.Some? || Newer(onto, st, id, back, now) == {})
  }

  /** The open predecessor its return ends. */
  function ClosedByReturn(ss: Statements, back: Statement): set<Id> {
    if back.status == Confirmed && back.validTo.None? then Reclosed(ss, back) else {}
  }

  /** A confirmed value put back leaves at most one current value exactly when it does not hold now, or it is open and
      no current rival is left beside it: each was recorded later, or is the predecessor it closes again. */
  lemma PutBackLeavesAtMostOneIff(onto: Ontology, st: State, id: Id, back: Statement, now: Time)
    requires Settled(st.statements, now) && id in st.statements && st.statements[id].status == Retracted
    requires back.status == Confirmed && back.retractedAt.None? && back.recordedAt <= now
    requires back.subject in st.entities && onto.SingleValued(st.entities[back.subject], back.property)
    requires AtMostOne(Current(st, back.subject, back.property, now, false))
    ensures AtMostOne(Current(BackIn(onto, st, id, back, now), back.subject, back.property, now, false)) <==>
            (back.ValidAt(now) ==>
              forall j :: j in Current(st, back.subject, back.property, now, false) ==>
                back.validTo.None?
                && (st.statements[j].recordedAt > back.recordedAt || j in Reclosed(st.statements, back)))
  {
    hide BackIn, Newer, Reclosed, Current, Settled;
    var before := Current(st, back.subject, back.property, now, false);
    var after := Current(BackIn(onto, st, id, back, now), back.subject, back.property, now, false);
    NewerMeans(onto, st, id, back, now);
    forall j
      ensures j in after <==> if j == id then ComesBackCurrent(onto, st, id, back, now)
                              else j in before && (j in ClosedByReturn(st.statements, back) ==> now < back.Start())
    {
      PutBackCurrent(onto, st, id, back, now, j);
    }
    if ComesBackCurrent(onto, st, id, back, now) { assert id in after; }
  }

  lemma NewerMeans(onto: Ontology, st: State, id: Id, back: Statement, now: Time)
    requires Settled(st.statements, now) && id in st.statements && st.statements[id].status == Retracted
    requires back.subject in st.entities && onto.SingleValued(st.entities[back.subject], back.property)
    ensures var before := Current(st, back.subject, back.property, now, false);
            && id !in before && before <= st.statements.Keys
            && forall j :: j in Newer(onto, st, id, back, now) <==>
                 j in before && st.statements[j].recordedAt > back.recordedAt
  {
    hide Group;
  }

  lemma InItsOwnGroup(es: Entities, e: Id)
    ensures e in Group(es, e)
  {
  }

  ghost function BackIn(onto: Ontology, st: State, id: Id, back: Statement, now: Time): State {
    st.(statements := st.statements + PutBack(onto, st, id, back, now))
  }

  lemma BackInFrame(onto: Ontology, st: State, id: Id, back: Statement, now: Time)
    requires id in st.statements && st.statements[id].status == Retracted
    requires back.status == Confirmed
    ensures var st' := BackIn(onto, st, id, back, now);
            var closed := ClosedByReturn(st.statements, back);
            && id !in closed && st'.entities == st.entities && st'.statements.Keys == st.statements.Keys
            && (forall i :: i in closed ==> st'.statements[i] == st.statements[i].(validTo := Some(back.Start())))
            && (forall i :: i in st.statements && i != id && i !in closed ==> st'.statements[i] == st.statements[i])
            && st'.statements[id] == if back.validTo.Some? then back
                                     else ClosedByNewer(st.statements, Newer(onto, st, id, back, now), back)
  {
    hide PutBack, Newer, ClosedByNewer, Reclosed;
    PutBackShape(onto, st, id, back, now);
  }

  lemma BackInIsCurrent(onto: Ontology, st: State, id: Id, back: Statement, now: Time)
    requires back.validTo.None?
    ensures ClosedByNewer(st.statements, Newer(onto, st, id, back, now), back).ValidAt(now)
            <==> back.ValidAt(now) && Newer(onto, st, id, back, now) == {}
    ensures exists t :: ClosedByNewer(st.statements, Newer(onto, st, id, back, now), back) == back.(validTo := t)
  {
    var newer := Newer(onto, st, id, back, now);
    assert forall j :: j in newer ==> st.statements[j].Start() <= now;
    hide Newer;
    if newer == {} { assert back == back.(validTo := back.validTo); }
  }

  /** What is current once it is back. */
  lemma PutBackCurrent(onto: Ontology, st: State, id: Id, back: Statement, now: Time, j: Id)
    requires Settled(st.statements, now) && id in st.statements && st.statements[id].status == Retracted
    requires back.status == Confirmed && back.retractedAt.None? && back.recordedAt <= now
    ensures j in Current(BackIn(onto, st, id, back, now), back.subject, back.property, now, false) <==>
            if j == id then ComesBackCurrent(onto, st, id, back, now)
            else j in Current(st, back.subject, back.property, now, false)
                 && (j in ClosedByReturn(st.statements, back) ==> now < back.Start())
  {
    hide BackIn, Newer, ClosedByNewer, Group, Current;
    var st' := BackIn(onto, st, id, back, now);
    BackInFrame(onto, st, id, back, now);
    if back.validTo.None? {
      BackInIsCurrent(onto, st, id, back, now);
    }
    InItsOwnGroup(st.entities, back.subject);
    CurrentMember(st, back.subject, back.property, now, j);
    CurrentMember(st', back.subject, back.property, now, j);
  }

  lemma CurrentMember(st: State, subject: Id, property: string, now: Time, j: Id)
    ensures j in Current(st, subject, property, now, false) <==>
            j in st.statements && st.statements[j].subject in Group(st.entities, subject)
            && st.statements[j].property == property && Visible(st.statements[j], now, now, false)
  {
  }

  // ---------------------------------------------------------------- retract, then reinstate

  /** Retracting an open confirmed value and reinstating it gives back the very state there was,
      the reopened predecessor closed again, exactly when the predecessor's record is not the
      newer one. When it is (a proposal confirmed over a value recorded after it) the reinstated
      value is taken for one replaced meanwhile, and ends where its own predecessor starts. */
  lemma RetractThenReinstateIff(onto: Ontology, st: State, id: Id, reason: Option<string>, now: Time, later: Time)
    requires Settled(st.statements, now) && now <= later && id in st.statements
    requires var s := st.statements[id];
             && s.status == Confirmed && s.validTo.None? && s.Start() <= now
             && Lookup(st.entities, s.subject).Ok?
             && (s.target.Some? ==> Lookup(st.entities, s.target.value).Ok?)
             && AloneInItsPlace(onto, st, id, later)
             && (Reopens(st.statements, s) ==> st.statements[s.supersedes.value].Start() <= s.Start())
    ensures var s := st.statements[id];
            Reinstate(onto, Retract(st, id, reason, now).state, id, Confirmed, s.reason, later) == Outcome(st, Ok(id)) <==>
            (Reopens(st.statements, s) ==> st.statements[s.supersedes.value].recordedAt <= s.recordedAt)
  {
    var s := st.statements[id];
    var mid := Retract(st, id, reason, now).state;
    assert Reopens(st.statements, s) ==> s.supersedes.value != id;
    RetractGives(st, id, reason, now);
    hide Retract;
    ReinstateIsBackIn(onto, mid, id, s, later);
    RetractedRivals(onto, st, id, mid, now, later);
    ReinstatedState(onto, st, id, mid, now, later);
    hide *;
  }

  ghost predicate AfterRetract(st: State, id: Id, mid: State, now: Time)
    requires id in st.statements
  {
    var s := st.statements[id];
    && mid.entities == st.entities && mid.decisions == st.decisions && mid.statements.Keys == st.statements.Keys
    && mid.statements[id].status == Retracted && mid.statements[id].retractedAt == Some(now)
    && mid.statements[id].(status := s.status, retractedAt := s.retractedAt, reason := s.reason) == s
    && (Reopens(st.statements, s) ==>
          mid.statements[s.supersedes.value] == st.statements[s.supersedes.value].(validTo := None))
    && (forall i :: i in st.statements && i != id && !(Reopens(st.statements, s) && i == s.supersedes.value) ==>
          mid.statements[i] == st.statements[i])
  }

  lemma RetractGives(st: State, id: Id, reason: Option<string>, now: Time)
    requires id in st.statements && st.statements[id].status != Retracted
    requires Reopens(st.statements, st.statements[id]) ==> st.statements[id].supersedes.value != id
    ensures AfterRetract(st, id, Retract(st, id, reason, now).state, now)
  {
    RetractFrame(st, id, reason, now);
  }

  /** What was reopened and closed again at the same instant is as it was. */
  lemma ReinstatedState(onto: Ontology, st: State, id: Id, mid: State, now: Time, later: Time)
    requires id in st.statements && AfterRetract(st, id, mid, now)
    requires var s := st.statements[id];
             && s.status == Confirmed && s.validTo.None?
             && Reclosed(mid.statements, s) == (if Reopens(st.statements, s) then {s.supersedes.value} else {})
             && (Reopens(st.statements, s) ==> s.supersedes.value != id)
    ensures BackIn(onto, mid, id, st.statements[id], later) == st <==> Newer(onto, mid, id, st.statements[id], later) == {}
  {
    hide BackIn, Newer, Reclosed, ClosedByNewer;
    var s := st.statements[id];
    BackInFrame(onto, mid, id, s, later);
    var out := BackIn(onto, mid, id, s, later);
    BackInKeepsDecisions(onto, mid, id, s, later);
    ComesBackOpenIff(mid.statements, Newer(onto, mid, id, s, later), s);
    forall i | i in st.statements && i != id ensures out.statements[i] == st.statements[i] {
      if Reopens(st.statements, s) && i == s.supersedes.value {
        assert out.statements[i] == mid.statements[i].(validTo := Some(s.Start()));
      } else {
        assert out.statements[i] == mid.statements[i];
      }
    }
    hide *;
    SameMaps(out.statements, st.statements, id);
  }

  lemma BackInKeepsDecisions(onto: Ontology, st: State, id: Id, back: Statement, now: Time)
    ensures BackIn(onto, st, id, back, now).decisions == st.decisions
  {
    hide PutBack;
  }

  lemma ComesBackOpenIff(ss: Statements, newer: set<Id>, back: Statement)
    requires back.validTo.None? && newer <= ss.Keys
    ensures ClosedByNewer(ss, newer, back) == back <==> newer == {}
  {
    hide EarliestStart;
  }

  lemma SameMaps(a: Statements, b: Statements, id: Id)
    requires a.Keys == b.Keys && id in b && forall i :: i in b && i != id ==> a[i] == b[i]
    ensures a == b <==> a[id] == b[id]
  {
  }

  lemma ReinstateIsBackIn(onto: Ontology, mid: State, id: Id, s: Statement, later: Time)
    requires id in mid.statements && mid.statements[id].status == Retracted && s.status == Confirmed
    requires mid.statements[id].(status := Confirmed, retractedAt := None, reason := s.reason) == s
    requires Lookup(mid.entities, s.subject).Ok? && (s.target.Some? ==> Lookup(mid.entities, s.target.value).Ok?)
    ensures Reinstate(onto, mid, id, Confirmed, s.reason, later) == Outcome(BackIn(onto, mid, id, s, later), Ok(id))
  {
    hide PutBack;
  }

  /** What the reinstated value meets on its way back: only the predecessor it reopened. */
  lemma RetractedRivals(onto: Ontology, st: State, id: Id, mid: State, now: Time, later: Time)
    requires Settled(st.statements, now) && now <= later && id in st.statements
    requires var s := st.statements[id];
             && s.status == Confirmed && s.validTo.None? && s.Start() <= now && s.subject in st.entities
             && AloneInItsPlace(onto, st, id, later)
             && (Reopens(st.statements, s) ==> st.statements[s.supersedes.value].Start() <= s.Start())
             && AfterRetract(st, id, mid, now)
    ensures var s := st.statements[id];
            && Reclosed(mid.statements, s) == (if Reopens(st.statements, s) then {s.supersedes.value} else {})
            && (Newer(onto, mid, id, s, later) == {} <==>
                (Reopens(st.statements, s) ==> st.statements[s.supersedes.value].recordedAt <= s.recordedAt))
  {
    var s := st.statements[id];
    assert s.subject in Group(st.entities, s.subject);
    hide Group;
    if !onto.SingleValued(st.entities[s.subject], s.property) {
      assert Newer(onto, mid, id, s, later) == {};
      return;
    }
    assert id in Current(st, s.subject, s.property, later, false);
    if !Reopens(st.statements, s) && s.supersedes.Some? && s.supersedes.value in st.statements {
      OpenPredecessorIsCurrent(st, s, s.supersedes.value, now, later);
    }
    forall j | j in Newer(onto, mid, id, s, later) ensures Reopens(st.statements, s) && j == s.supersedes.value {
      CurrentMember(mid, s.subject, s.property, later, j);
      CurrentMember(st, s.subject, s.property, later, j);
    }
    if Reopens(st.statements, s) {
      var p := s.supersedes.value;
      CurrentMember(mid, s.subject, s.property, later, p);
      assert p in Current(mid, s.subject, s.property, later, false);
      assert p in Newer(onto, mid, id, s, later) <==> st.statements[p].recordedAt > s.recordedAt;
    }
  }
}
