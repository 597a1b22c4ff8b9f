/** Every write of the memory graph, as reads see it: when it is accepted, what is told differently afterwards, and that
    nothing else is. Said of the fields of the records. */
module WriteLaws {
  import opened Records
  import opened MergeForest
  import opened GraphSpec
  import opened TimelineLaws
  import opened RemovalLaws
  import opened ReadLaws

  predicate ToldIn(st: State, i: Id, valid: Time, known: Time, proposed: bool) {
    i in st.statements && Told(st.statements[i], valid, known, proposed)
  }

  predicate Upright(es: Entities, e: Id) {
    e in es && es[e].mergedInto.None? && es[e].removedAt.None?
  }

  function Since(s: Statement): Time {
    if s.validFrom.Some? then s.validFrom.value else s.recordedAt
  }

  // ---------------------------------------------------------------- what is admitted

  predicate Constrains(onto: Ontology, class_: string, property: string) {
    class_ in onto.shapes && property in onto.shapes[class_]
  }

  predicate IsNearest(onto: Ontology, chain: seq<string>, k: int, property: string) {
    0 <= k < |chain| && Constrains(onto, chain[k], property)
    && forall j :: 0 <= j < k ==> !Constrains(onto, chain[j], property)
  }

  /** Of a class and its superclasses, the nearest that constrains a property decides. */
  lemma {:induction false} NearestDecides(onto: Ontology, chain: seq<string>, property: string)
    ensures var c := onto.ConstraintIn(chain, property);
      if c.None? then forall k :: 0 <= k < |chain| ==> !Constrains(onto, chain[k], property)
      else exists k :: IsNearest(onto, chain, k, property) && c.value == onto.shapes[chain[k]][property]
  {
    if chain != [] && !Constrains(onto, chain[0], property) {
      NearestDecides(onto, chain[1..], property);
      if onto.ConstraintIn(chain, property).Some? {
        var k :| IsNearest(onto, chain[1..], k, property)
                 && onto.ConstraintIn(chain, property).value == onto.shapes[chain[1..][k]][property];
        assert IsNearest(onto, chain, k + 1, property) by {
          assert forall j :: 1 <= j < k + 1 ==> chain[j] == chain[1..][j - 1];
        }
      }
    } else if chain != [] {
      assert IsNearest(onto, chain, 0, property);
    }
  }

  function ChainOf(onto: Ontology, class_: string): seq<string> {
    if class_ in onto.classes then onto.classes[class_] else []
  }

  /** The property is limited to one value for the class. */
  lemma LimitedToOneIff(onto: Ontology, subject: Entity, property: string)
    ensures onto.SingleValued(subject, property)
            <==> exists k :: IsNearest(onto, ChainOf(onto, subject.class_), k, property)
                             && onto.shapes[ChainOf(onto, subject.class_)[k]][property].maxCount == Some(1)
  {
    var chain := ChainOf(onto, subject.class_);
    NearestDecides(onto, chain, property);
    if k :| IsNearest(onto, chain, k, property) && onto.shapes[chain[k]][property].maxCount == Some(1) {
      var m :| IsNearest(onto, chain, m, property)
               && onto.ConstraintIn(chain, property).value == onto.shapes[chain[m]][property];
      assert m == k;
    }
  }

  /** The classes an object must belong to: those the nearest constraint names, if it names one, or else the range. */
  ghost predicate Suits(onto: Ontology, subject: Entity, property: string, thing: Entity)
    requires property in onto.properties
  {
    var chain := ChainOf(onto, subject.class_);
    if exists k :: IsNearest(onto, chain, k, property) && onto.shapes[chain[k]][property].objectClass.Some? then
      exists k :: IsNearest(onto, chain, k, property) && onto.shapes[chain[k]][property].objectClass.Some?
                  && onto.shapes[chain[k]][property].objectClass.value in ChainOf(onto, thing.class_)
    else onto.properties[property].range in ChainOf(onto, thing.class_)
  }

  lemma SuitsIff(onto: Ontology, subject: Entity, property: string, thing: Entity)
    requires property in onto.properties
    ensures var c := onto.ConstraintFor(subject, property);
            var allowed := if c.Some? && c.value.objectClass.Some? then c.value.objectClass.value
                           else onto.properties[property].range;
            onto.IsSubclass(thing.class_, allowed) <==> Suits(onto, subject, property, thing)
  {
    var chain := ChainOf(onto, subject.class_);
    NearestDecides(onto, chain, property);
    if c :| IsNearest(onto, chain, c, property) {
      var m :| IsNearest(onto, chain, m, property)
               && onto.ConstraintIn(chain, property).value == onto.shapes[chain[m]][property];
      assert m == c;
      assert forall k :: IsNearest(onto, chain, k, property) ==> k == m;
    }
  }

  /** A claim is admitted about a subject exactly when its property is declared, not retired, and of a class the subject
      belongs to; and it gives a literal alone for an attribute, or for a relation an object alone, which stands and suits. */
  lemma AdmittedIff(onto: Ontology, es: Entities, subject: Entity, c: Claim)
    ensures ClaimProblem(onto, es, subject, c).None?
            <==> && c.property in onto.properties && !onto.properties[c.property].deprecated
                 && onto.properties[c.property].domain in ChainOf(onto, subject.class_)
                 && if onto.properties[c.property].kind == Attribute then c.literal.Some? && c.target.None?
                    else && c.target.Some? && c.literal.None? && Upright(es, c.target.value)
                         && Suits(onto, subject, c.property, es[c.target.value])
  {
    hide Suits;
    if c.property in onto.properties && c.target.Some? && Upright(es, c.target.value) {
      SuitsIff(onto, subject, c.property, es[c.target.value]);
    }
  }

  /** An assertion is refused for a bad status, a subject that does not stand, or a claim that is not admitted; and
      otherwise only when it is to confirm a proposal filed under a name that stands no more. */
  lemma AssertsIff(onto: Ontology, st: State, id: Id, c: Claim, status: Status, validFrom: Option<Time>, now: Time)
    ensures Assert(onto, st, id, c, status, validFrom, now).result.Ok?
            <==> && status != Retracted && Upright(st.entities, c.subject)
                 && ClaimProblem(onto, st.entities, st.entities[c.subject], c).None?
                 && (status == Confirmed && Found(st, c, now).Some?
                     && st.statements[Found(st, c, now).value].status == Proposed ==>
                       Upright(st.entities, st.statements[Found(st, c, now).value].subject))
  {
    hide ClaimProblem, Place, Group, NewStatement;
  }

  // ---------------------------------------------------------------- a value takes its place

  /** A current value of the claim's subject and property that a value since `since` ends there, the property being
      limited to one. */
  ghost predicate IsEnded(onto: Ontology, st: State, id: Id, subject: Id, property: string, since: Time, now: Time, j: Id) {
    && subject in st.entities && onto.SingleValued(st.entities[subject], property)
    && j != id && IsAbout(st, j, subject) && st.statements[j].property == property
    && Told(st.statements[j], now, now, false) && Since(st.statements[j]) <= since
  }

  ghost predicate NewestEnded(onto: Ontology, st: State, id: Id, subject: Id, property: string, since: Time, now: Time, p: Id) {
    && IsEnded(onto, st, id, subject, property, since, now, p)
    && forall j: Id :: IsEnded(onto, st, id, subject, property, since, now, j) && j != p ==>
         st.statements[j].recordedAt < st.statements[p].recordedAt
         || (st.statements[j].recordedAt == st.statements[p].recordedAt && j < p)
  }

  lemma EndedIff(onto: Ontology, st: State, id: Id, new_: Statement, now: Time, j: Id)
    requires new_.subject in st.entities
    ensures j in Displaced(onto, st, id, new_, st.entities[new_.subject], now)
            <==> IsEnded(onto, st, id, new_.subject, new_.property, Since(new_), now, j)
  {
    CurrentIff(st, new_.subject, new_.property, now, false, j);
    hide Group, Ontology.SingleValued, Current, Told;
  }

  /** The values it ends are told of from their start to its own, whatever end they had; of every other statement the same
      is told. */
  lemma PlacedAsSeen(onto: Ontology, st: State, id: Id, new_: Statement, now: Time, j: Id, v: Time, k: Time, p: bool)
    requires new_.subject in st.entities
    ensures var st' := Place(onto, st, id, new_, st.entities[new_.subject], now);
      && st'.entities == st.entities && st'.decisions == st.decisions
      && (ToldIn(st', j, v, k, p)
          <==> if j == id then Told(new_, v, k, p)
               else if IsEnded(onto, st, id, new_.subject, new_.property, Since(new_), now, j) then
                 Held(st.statements[j], k) && Since(st.statements[j]) <= v < Since(new_)
               else ToldIn(st, j, v, k, p))
  {
    hide Place, Displaced, IsEnded;
    EndedIff(onto, st, id, new_, now, j);
    EndedIsConfirmed(onto, st, id, new_, now, j);
    PlaceFrame(onto, st, id, new_, st.entities[new_.subject], now);
  }

  lemma EndedIsConfirmed(onto: Ontology, st: State, id: Id, new_: Statement, now: Time, j: Id)
    ensures IsEnded(onto, st, id, new_.subject, new_.property, Since(new_), now, j) ==>
      j in st.statements && st.statements[j].status != Proposed
  {
    hide Group, Ontology.SingleValued;
  }

  ghost predicate EndsAny(onto: Ontology, st: State, id: Id, new_: Statement, now: Time) {
    exists j :: IsEnded(onto, st, id, new_.subject, new_.property, Since(new_), now, j)
  }

  /** It remembers the newest record among the values it ends. */
  lemma PlacedOver(onto: Ontology, st: State, id: Id, new_: Statement, now: Time)
    requires new_.subject in st.entities
    ensures var s := Place(onto, st, id, new_, st.entities[new_.subject], now).statements[id];
      if EndsAny(onto, st, id, new_, now) then
        s.supersedes.Some? && NewestEnded(onto, st, id, new_.subject, new_.property, Since(new_), now, s.supersedes.value)
      else s.supersedes == new_.supersedes
  {
    forall j
      ensures j in Displaced(onto, st, id, new_, st.entities[new_.subject], now)
              <==> IsEnded(onto, st, id, new_.subject, new_.property, Since(new_), now, j)
    {
      EndedIff(onto, st, id, new_, now, j);
    }
    PlaceFrame(onto, st, id, new_, st.entities[new_.subject], now);
    var closed := Displaced(onto, st, id, new_, st.entities[new_.subject], now);
    hide Place, Displaced, IsEnded;
    if closed != {} {
      var p := Last(st.statements, closed);
      assert p in closed;
    }
  }

  /** So what it ends may come to be told of longer: exactly when it was to end before the new value starts. */
  lemma LengthenedIff(onto: Ontology, st: State, id: Id, new_: Statement, now: Time, j: Id)
    requires new_.subject in st.entities
    requires IsEnded(onto, st, id, new_.subject, new_.property, Since(new_), now, j)
    ensures var st' := Place(onto, st, id, new_, st.entities[new_.subject], now);
      (exists v :: ToldIn(st', j, v, now, false) && !ToldIn(st, j, v, now, false))
      <==> st.statements[j].validTo.Some? && st.statements[j].validTo.value < Since(new_)
  {
    var st' := Place(onto, st, id, new_, st.entities[new_.subject], now);
    var s := st.statements[j];
    forall v
      ensures ToldIn(st', j, v, now, false) <==> Since(s) <= v < Since(new_)
    {
      PlacedAsSeen(onto, st, id, new_, now, j, v, now, false);
    }
    EndedIsConfirmed(onto, st, id, new_, now, j);
    hide Place, Group, Ontology.SingleValued;
    if s.validTo.Some? && s.validTo.value < Since(new_) {
      var v := s.validTo.value;
      assert ToldIn(st', j, v, now, false) && !ToldIn(st, j, v, now, false);
    }
  }

  // ---------------------------------------------------------------- confirming, unconfirming, ending

  /** A proposal is confirmed exactly when its own subject stands; it is then told of unasked, and placed. */
  lemma ConfirmAsSeen(onto: Ontology, st: State, id: Id, now: Time)
    ensures var out := Confirm(onto, st, id, now);
      && (out.result.Ok? <==> && id in st.statements && st.statements[id].status != Retracted
                              && (st.statements[id].status == Confirmed || Upright(st.entities, st.statements[id].subject)))
      && (out.result.Ok? ==> out.result.value == id)
      && (if out.result.Ok? && st.statements[id].status == Proposed then
            var s := st.statements[id].(status := Confirmed);
            out.state == Place(onto, st, id, s, st.entities[s.subject], now)
          else out.state == st)
  {
    hide Place;
  }

  /** An unconfirmed statement is told of when proposals are asked for. */
  lemma UnconfirmAsSeen(st: State, id: Id, j: Id, v: Time, k: Time, p: bool)
    ensures var out := Unconfirm(st, id);
      && (out.result.Ok? <==> id in st.statements)
      && (ToldIn(out.state, j, v, k, p)
          <==> ToldIn(st, j, v, k, p) && (j == id && st.statements[id].status == Confirmed ==> p))
  {
  }

  /** Ended, it is told of until the given moment, or now, which must lie after its start. */
  lemma EndAsSeen(st: State, id: Id, at: Option<Time>, now: Time, j: Id, v: Time, k: Time, p: bool)
    ensures var out := End(st, id, at, now);
      var moment := match at case Some(t) => t case None => now;
      && (out.result.Ok? <==> && id in st.statements && st.statements[id].status != Retracted
                              && st.statements[id].validTo.None? && Since(st.statements[id]) < moment)
      && (ToldIn(out.state, j, v, k, p) <==> ToldIn(st, j, v, k, p) && (j == id && out.result.Ok? ==> v < moment))
  {
  }

  // ---------------------------------------------------------------- retracting

  /** The predecessor that a retraction reopens: confirmed, and ended just where the statement starts. */
  predicate IsReopened(st: State, id: Id, j: Id) {
    && id in st.statements && st.statements[id].supersedes == Some(j)
    && j in st.statements && st.statements[j].status == Confirmed
    && st.statements[j].validTo == Some(Since(st.statements[id]))
  }

  /** Retracted, it is told of only as far as was known before; so is what had been a proposal, asked for or not. The
      predecessor it ended is told of without end again. */
  lemma RetractAsSeen(st: State, id: Id, reason: Option<string>, now: Time, j: Id, v: Time, k: Time, p: bool)
    requires Settled(st.statements, now)
    ensures var out := Retract(st, id, reason, now);
      && (out.result.Ok? <==> id in st.statements)
      && (ToldIn(out.state, j, v, k, p)
          <==> if id !in st.statements || st.statements[id].status == Retracted then ToldIn(st, j, v, k, p)
               else if j == id then ToldIn(st, j, v, k, true) && k < now
               else if IsReopened(st, id, j) then Held(st.statements[j], k) && Since(st.statements[j]) <= v
               else ToldIn(st, j, v, k, p))
  {
    if id in st.statements && st.statements[id].status != Retracted {
      RetractFrame(st, id, reason, now);
      hide Retract;
    }
  }

  /** A proposal that was withdrawn is told of as known before, though proposals are not asked for. */
  lemma WithdrawnProposalsAreTold(st: State, id: Id, reason: Option<string>, now: Time, v: Time, k: Time)
    requires Settled(st.statements, now) && id in st.statements && st.statements[id].status == Proposed
    ensures !ToldIn(st, id, v, k, false)
    ensures ToldIn(Retract(st, id, reason, now).state, id, v, k, false)
            <==> st.statements[id].recordedAt <= k < now && True(st.statements[id], v)
  {
    RetractAsSeen(st, id, reason, now, id, v, k, false);
  }

  /** The reason given is kept, or the one there was. */
  lemma RetractReason(st: State, id: Id, reason: Option<string>, now: Time)
    requires id in st.statements && st.statements[id].status != Retracted
    ensures var s := Retract(st, id, reason, now).state.statements[id];
      && s.status == Retracted && s.retractedAt == Some(now)
      && s.reason == (match reason case Some(why) => if |why| > 0 then reason else st.statements[id].reason
                                  case None => st.statements[id].reason)
  {
  }

  /** A reinstatement is accepted of what is withdrawn, when its subject and its object stand; it comes back with the status
      and reason given, known again at every moment since it was recorded. */
  lemma ReinstateAsSeen(onto: Ontology, st: State, id: Id, status: Status, reason: Option<string>, now: Time, k: Time)
    ensures var out := Reinstate(onto, st, id, status, reason, now);
      && (out.result.Ok? <==> && id in st.statements && st.statements[id].status == Retracted && status != Retracted
                              && Upright(st.entities, st.statements[id].subject)
                              && (st.statements[id].target.Some? ==> Upright(st.entities, st.statements[id].target.value)))
      && (if out.result.Ok? then
            && id in out.state.statements && out.state.statements[id].status == status
            && out.state.statements[id].reason == reason
            && (Held(out.state.statements[id], k) <==> st.statements[id].recordedAt <= k)
          else out.state == st)
  {
    hide PutBack, Newer;
    if Reinstate(onto, st, id, status, reason, now).result.Ok? {
      PutBackShape(onto, st, id, st.statements[id].(status := status, retractedAt := None, reason := reason), now);
    }
  }

  // ---------------------------------------------------------------- removing, deleting, purging

  /** It holds now: a proposal, or a confirmed statement that is true now. */
  predicate HoldsNow(s: Statement, now: Time) {
    s.status == Proposed || (s.status == Confirmed && True(s, now))
  }

  /** It names the entity, or one merged into it, on either side. */
  ghost predicate NamesIt(st: State, i: Id, e: Id) {
    IsAbout(st, i, e) || IsOf(st, i, e)
  }

  lemma LiveIff(st: State, e: Id, now: Time, i: Id)
    ensures i in Live(st, e, now) <==> NamesIt(st, i, e) && HoldsNow(st.statements[i], now)
  {
    hide Group;
  }

  /** What names a removed entity and holds is told of only as far as was known before; nothing else changes. */
  lemma RemoveAsSeen(st: State, e: Id, why: string, now: Time, j: Id, v: Time, k: Time, p: bool)
    requires Settled(st.statements, now)
    ensures var out := Remove(st, e, why, now);
      && (out.result.Ok? <==> e != OWNER_ID && Upright(st.entities, e))
      && (ToldIn(out.state, j, v, k, p)
          <==> if out.result.Ok? && NamesIt(st, j, e) && HoldsNow(st.statements[j], now)
               then ToldIn(st, j, v, k, true) && k < now else ToldIn(st, j, v, k, p))
  {
    LiveIff(st, e, now, j);
    hide Oldest, Memo, Live, NamesIt;
    if Remove(st, e, why, now).result.Ok? { RemoveFrame(st, e, why, now); }
  }

  /** How each stood is noted, once each, the oldest record first. */
  lemma RemoveNotes(st: State, e: Id, why: string, now: Time, i: Id)
    requires Remove(st, e, why, now).result.Ok?
    ensures var x := Remove(st, e, why, now).state.entities[e];
      var notes := x.removedStatements;
      && x.removedAt == Some(now) && x.removedReason == Some(why) && x.name == st.entities[e].name
      && x.aliases == st.entities[e].aliases && x.class_ == st.entities[e].class_ && x.mergedInto.None?
      && (NamesIt(st, i, e) && HoldsNow(st.statements[i], now)
          <==> exists m :: 0 <= m < |notes| && notes[m].0 == i)
      && (forall m :: 0 <= m < |notes| ==> notes[m].0 in st.statements
                                           && notes[m] == (notes[m].0, st.statements[notes[m].0].status,
                                                           st.statements[notes[m].0].reason))
      && (forall m, n :: 0 <= m < n < |notes| ==> Earlier(st.statements, notes[m].0, notes[n].0))
  {
    hide Oldest;
    LiveIff(st, e, now, i);
    var live := Live(st, e, now);
    var ids := Oldest(st.statements, live);
    RemoveFrame(st, e, why, now);
    OldestInOrder(st.statements, live);
    MemoIs(st.statements, ids);
    hide Live, NamesIt, Remove, Memo;
    if i in live {
      var m :| 0 <= m < |ids| && ids[m] == i;
      assert Memo(st.statements, ids)[m].0 == i;
    }
  }

  lemma {:induction false} MemoIs(ss: Statements, ids: seq<Id>)
    requires forall i :: i in ids ==> i in ss
    ensures |Memo(ss, ids)| == |ids|
    ensures forall m :: 0 <= m < |ids| ==> Memo(ss, ids)[m] == (ids[m], ss[ids[m]].status, ss[ids[m]].reason)
  {
    if ids != [] { MemoIs(ss, ids[1..]); }
  }

  ghost predicate InOrder(ss: Statements, r: seq<Id>) {
    && (forall m :: 0 <= m < |r| ==> r[m] in ss)
    && forall m, n :: 0 <= m < n < |r| ==> Earlier(ss, r[m], r[n])
  }

  lemma OneMoreInOrder(ss: Statements, i: Id, rest: seq<Id>)
    requires InOrder(ss, rest) && i in ss && forall n :: 0 <= n < |rest| ==> Earlier(ss, i, rest[n])
    ensures InOrder(ss, [i] + rest)
  {
  }

  lemma {:induction false} OldestInOrder(ss: Statements, ids: set<Id>)
    requires ids <= ss.Keys
    ensures InOrder(ss, Oldest(ss, ids))
    decreases ids
  {
    if ids != {} {
      var i := First(ss, ids);
      var rest := Oldest(ss, ids - {i});
      OldestInOrder(ss, ids - {i});
      forall n | 0 <= n < |rest|
        ensures Earlier(ss, i, rest[n])
      {
        assert rest[n] in rest;
      }
      hide InOrder;
      OneMoreInOrder(ss, i, rest);
    }
  }

  /** A removed entity that nothing was merged into, and that nothing naming it keeps, is deleted with all that names it. */
  lemma DeleteAsSeen(st: State, e: Id, now: Time, j: Id, d: Id, x: Id)
    ensures var out := Delete(st, e, now);
      && (out.result.Ok? <==> && e in st.entities && st.entities[e].removedAt.Some?
                              && (forall m :: m in st.entities && m != e ==> !Under(st.entities, m, e))
                              && forall i :: NamesIt(st, i, e) ==> !HoldsNow(st.statements[i], now))
      && (if out.result.Ok? then
            && (x in out.state.entities <==> x in st.entities && x != e)
            && (x in out.state.entities ==> out.state.entities[x] == st.entities[x])
            && (j in out.state.statements <==> j in st.statements && !NamesIt(st, j, e))
            && (j in out.state.statements ==> out.state.statements[j] == st.statements[j])
            && (d in out.state.decisions <==> d in st.decisions && st.decisions[d].a != e && st.decisions[d].b != e)
            && (d in out.state.decisions ==> out.state.decisions[d] == st.decisions[d])
          else out.state == st)
  {
    forall i
      ensures i in Live(st, e, now) <==> NamesIt(st, i, e) && HoldsNow(st.statements[i], now)
    {
      LiveIff(st, e, now, i);
    }
    assert e in Group(st.entities, e);
    if forall m :: m in st.entities && m != e ==> !Under(st.entities, m, e) {
      assert Group(st.entities, e) == {e};
    } else {
      var m :| m in st.entities && m != e && Under(st.entities, m, e);
      assert m in Group(st.entities, e);
    }
    hide Under, Live;
  }

  /** Only what holds no more is purged, all of it or nothing. */
  lemma PurgeAsSeen(st: State, ids: set<Id>, now: Time, j: Id)
    ensures var out := Purge(st, ids, now);
      && (out.result.Ok? <==> forall i :: i in ids ==> i in st.statements && !HoldsNow(st.statements[i], now))
      && (out.result.Ok? ==> out.result.value == |ids|)
      && (j in out.state.statements <==> j in st.statements && (out.result.Ok? ==> j !in ids))
      && (j in out.state.statements ==> out.state.statements[j] == st.statements[j])
  {
  }
}
