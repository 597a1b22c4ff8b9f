/** What is put back, by a reinstatement or a restore, as reads see it: said of the fields of the records. */
module ReturnLaws {
  import opened Records
  import opened MergeForest
  import opened GraphSpec
  import opened RemovalLaws
  import opened ReadLaws
  import opened WriteLaws

  /** A current value of the subject and property of a statement that returns, recorded after it, the property being
    * limited to one. */
  ghost predicate Replaces(onto: Ontology, st: State, id: Id, s: Statement, now: Time, j: Id) {
    && s.subject in st.entities && onto.SingleValued(st.entities[s.subject], s.property)
    && j != id && IsAbout(st, j, s.subject) && st.statements[j].property == s.property
    && Told(st.statements[j], now, now, false) && st.statements[j].recordedAt > s.recordedAt
  }

  /** The predecessor of a statement that returns: confirmed, without end, and started no later than it. */
  predicate IsClosedAgain(st: State, s: Statement, j: Id) {
    && s.supersedes == Some(j) && j in st.statements
    && st.statements[j].status == Confirmed && st.statements[j].validTo.None? && Since(st.statements[j]) <= Since(s)
  }

  lemma ReplacesIff(onto: Ontology, st: State, id: Id, s: Statement, now: Time, j: Id)
    ensures j in Newer(onto, st, id, s, now) <==> Replaces(onto, st, id, s, now, j)
  {
    CurrentIff(st, s.subject, s.property, now, false, j);
    hide Group, Ontology.SingleValued, Current, Told;
  }

  lemma ReclosedIff(st: State, s: Statement, j: Id)
    ensures j in Reclosed(st.statements, s) <==> IsClosedAgain(st, s, j)
  {
  }

  lemma ClosedToldIff(ss: Statements, newer: set<Id>, s: Statement, v: Time, k: Time, p: bool)
    requires newer <= ss.Keys && s.status == Confirmed && s.validTo.None?
    ensures Told(ClosedByNewer(ss, newer, s), v, k, p)
            <==> Told(s, v, k, p) && forall r :: r in newer ==> v < Since(ss[r])
  {
    if newer != {} {
      var t := EarliestStart(ss, newer);
      var i :| i in newer && t == ss[i].Start();
    }
    hide EarliestStart;
  }

  /** Told of after a return: of the statement until the first of its replacements starts, when it is confirmed and
    * carries no end; of its predecessor until it starts; of any other as before. */
  ghost predicate ToldAfterReturn(onto: Ontology, st: State, id: Id, s: Statement, now: Time, j: Id,
                                  v: Time, k: Time, p: bool) {
    var open := s.status == Confirmed && s.validTo.None?;
    if j == id then
      Told(s, v, k, p) && (open ==> forall r: Id :: Replaces(onto, st, id, s, now, r) ==> v < Since(st.statements[r]))
    else if open && IsClosedAgain(st, s, j) then Held(st.statements[j], k) && Since(st.statements[j]) <= v < Since(s)
    else ToldIn(st, j, v, k, p)
  }

  lemma NotedTold(onto: Ontology, st: State, id: Id, s: Statement, now: Time, written: Statement,
                  v: Time, k: Time, p: bool)
    requires written == if s.status == Confirmed && s.validTo.None?
                        then ClosedByNewer(st.statements, Newer(onto, st, id, s, now), s) else s
    ensures Told(written, v, k, p) <==> ToldAfterReturn(onto, st, id, s, now, id, v, k, p)
  {
    forall r: Id
      ensures r in Newer(onto, st, id, s, now) <==> Replaces(onto, st, id, s, now, r)
    {
      ReplacesIff(onto, st, id, s, now, r);
    }
    hide Newer, Replaces, Told, ClosedByNewer, IsClosedAgain;
    if s.status == Confirmed && s.validTo.None? {
      ClosedToldIff(st.statements, Newer(onto, st, id, s, now), s, v, k, p);
    }
  }

  lemma OtherTold(onto: Ontology, st: State, id: Id, s: Statement, now: Time, r: Statements, j: Id,
                  v: Time, k: Time, p: bool)
    requires j != id
    requires j in r <==> s.status == Confirmed && s.validTo.None? && IsClosedAgain(st, s, j)
    requires j in r ==> r[j] == st.statements[j].(validTo := Some(Since(s)))
    ensures ToldIn(st.(statements := st.statements + r), j, v, k, p)
            <==> ToldAfterReturn(onto, st, id, s, now, j, v, k, p)
  {
    hide Replaces;
  }

  lemma ReturnAsSeen(onto: Ontology, st: State, id: Id, s: Statement, now: Time, j: Id, v: Time, k: Time, p: bool)
    requires id in st.statements && st.statements[id].status == Retracted
    ensures ToldIn(st.(statements := st.statements + PutBack(onto, st, id, s, now)), j, v, k, p)
            <==> ToldAfterReturn(onto, st, id, s, now, j, v, k, p)
  {
    PutBackShape(onto, st, id, s, now);
    var r := PutBack(onto, st, id, s, now);
    hide PutBack, Newer, ClosedByNewer, ToldAfterReturn, IsClosedAgain, Reclosed;
    if j == id {
      NotedTold(onto, st, id, s, now, r[id], v, k, p);
    } else {
      ReclosedIff(st, s, j);
      OtherTold(onto, st, id, s, now, r, j, v, k, p);
    }
  }

  /** A reinstated statement returns with the status and the reason given. */
  lemma ReinstateIsReturn(onto: Ontology, st: State, id: Id, status: Status, reason: Option<string>, now: Time,
                          j: Id, v: Time, k: Time, p: bool)
    requires Reinstate(onto, st, id, status, reason, now).result.Ok?
    ensures id in st.statements
    ensures var out := Reinstate(onto, st, id, status, reason, now);
            var s := st.statements[id].(status := status, retractedAt := None, reason := reason);
      && out.state.entities == st.entities && out.state.decisions == st.decisions
      && (ToldIn(out.state, j, v, k, p) <==> ToldAfterReturn(onto, st, id, s, now, j, v, k, p))
  {
    var s := st.statements[id].(status := status, retractedAt := None, reason := reason);
    ReturnAsSeen(onto, st, id, s, now, j, v, k, p);
    hide PutBack, ToldAfterReturn, ToldIn;
  }

  /** Noted by a removal, and still withdrawn. */
  predicate IsNoted(st: State, e: Id, m: nat)
    requires e in st.entities && m < |st.entities[e].removedStatements|
  {
    var i := st.entities[e].removedStatements[m].0;
    i in st.statements && st.statements[i].status == Retracted
  }

  ghost predicate NotedOnce(st: State, e: Id)
    requires e in st.entities
  {
    var notes := st.entities[e].removedStatements;
    forall m, n :: 0 <= m < n < |notes| ==> notes[m].0 != notes[n].0
  }

  /** A restored entity stands, under its names; every statement noted and still withdrawn returns as it was noted, and
    * any other is told of as before, but for the predecessors of those that return. */
  lemma RestoreIsReturn(onto: Ontology, st: State, e: Id, now: Time, m: nat, v: Time, k: Time, p: bool)
    requires e in st.entities && st.entities[e].removedAt.Some? && NotedOnce(st, e)
    requires m < |st.entities[e].removedStatements| && IsNoted(st, e, m)
    ensures var out := Restore(onto, st, e, now);
            var (i, status, reason) := st.entities[e].removedStatements[m];
            var s := st.statements[i].(status := status, retractedAt := None, reason := reason);
      out.result.Ok? && (ToldIn(out.state, i, v, k, p) <==> ToldAfterReturn(onto, st, i, s, now, i, v, k, p))
  {
    var notes := st.entities[e].removedStatements;
    var (i, status, reason) := notes[m];
    NotedIsPutBack(onto, st, notes, now, m);
    NotedTold(onto, st, i, st.statements[i].(status := status, retractedAt := None, reason := reason), now,
              PutBackAll(onto, st, notes, now)[i], v, k, p);
    hide PutBackAll, ClosedByNewer, Newer, ToldAfterReturn;
  }

  lemma {:induction false} NotedIsPutBack(onto: Ontology, st: State, notes: seq<(Id, Status, Option<string>)>,
                                          now: Time, m: nat)
    requires m < |notes| && notes[m].0 in st.statements && st.statements[notes[m].0].status == Retracted
    requires forall a, b :: 0 <= a < b < |notes| ==> notes[a].0 != notes[b].0
    ensures var (i, status, reason) := notes[m];
            var s := st.statements[i].(status := status, retractedAt := None, reason := reason);
      && i in PutBackAll(onto, st, notes, now)
      && PutBackAll(onto, st, notes, now)[i]
         == if s.status == Confirmed && s.validTo.None?
            then ClosedByNewer(st.statements, Newer(onto, st, i, s, now), s) else s
  {
    hide PutBack, Newer, ClosedByNewer;
    var n := |notes| - 1;
    var (i, status, reason) := notes[n];
    if i in st.statements && st.statements[i].status == Retracted {
      PutBackShape(onto, st, i, st.statements[i].(status := status, retractedAt := None, reason := reason), now);
    }
    if m < n { NotedIsPutBack(onto, st, notes[..n], now, m); }
  }

  /** Nothing else of the entities changes, and every decision stays. */
  lemma RestoredStands(onto: Ontology, st: State, e: Id, now: Time, x: Id)
    ensures var out := Restore(onto, st, e, now);
      && (out.result.Ok? <==> e in st.entities)
      && out.state.decisions == st.decisions && out.state.entities.Keys == st.entities.Keys
      && (x in st.entities && x != e ==> out.state.entities[x] == st.entities[x])
      && (e in st.entities ==>
            var was, is_ := st.entities[e], out.state.entities[e];
            && is_.removedAt.None? && is_.name == was.name && is_.aliases == was.aliases && is_.class_ == was.class_
            && is_.mergedInto == was.mergedInto && is_.createdAt == was.createdAt
            && (was.removedAt.Some? ==> is_.removedReason.None? && is_.removedStatements == []))
  {
    hide PutBackAll;
  }
}
