/** Values of a property limited to one: what keeps their timeline free of overlaps, over
    whole runs, and what exactly a retraction undoes. */
module TimelineLaws {
  import opened Records
  import opened MergeForest
  import opened GraphSpec

  /** The records agree with a clock that reads now. */
  ghost predicate Settled(ss: Statements, now: Time) {
    forall i :: i in ss ==>
      ss[i].recordedAt <= now
      && (if ss[i].status == Retracted then ss[i].retractedAt.Some? && ss[i].retractedAt.value <= now
          else ss[i].retractedAt.None?)
  }

  /** Two statements compete: one property, limited to one value for the entity both are about. */
  ghost predicate Slot(onto: Ontology, st: State, i: Id, j: Id) {
    && i in st.statements && j in st.statements
    && st.statements[i].property == st.statements[j].property
    && var r := Canon(st.entities, st.statements[i].subject);
       r == Canon(st.entities, st.statements[j].subject)
       && r in st.entities && onto.SingleValued(st.entities[r], st.statements[i].property)
  }

  /** No instant at which both hold. */
  ghost predicate Apart(a: Statement, b: Statement) {
    forall t :: a.ValidAt(t) ==> !b.ValidAt(t)
  }

  /** At every instant, a property limited to one has at most one confirmed value. */
  ghost predicate TimelineSafe(onto: Ontology, st: State) {
    forall i, j :: Slot(onto, st, i, j) && i != j
      && st.statements[i].status == Confirmed && st.statements[j].status == Confirmed
      ==> Apart(st.statements[i], st.statements[j])
  }

  ghost predicate AtMostOne(ids: set<Id>) {
    forall i, j :: i in ids && j in ids ==> i == j
  }

  // ---------------------------------------------------------------- one current value

  /** A confirmed value takes its place; the displaced are kept, ended where it starts, and
      nothing else changes. */
  lemma PlaceFrame(onto: Ontology, st: State, id: Id, new_: Statement, subject: Entity, now: Time)
    ensures var st' := Place(onto, st, id, new_, subject, now);
            var closed := Displaced(onto, st, id, new_, subject, now);
            && closed <= st.statements.Keys && id !in closed
            && st'.entities == st.entities && st'.decisions == st.decisions
            && st'.statements.Keys == st.statements.Keys + {id}
            && st'.statements[id] == PlacedAs(st.statements, closed, new_)
            && (forall i :: i in closed ==> st'.statements[i] == st.statements[i].(validTo := Some(new_.Start())))
            && (forall i :: i in st.statements && i != id && i !in closed ==> st'.statements[i] == st.statements[i])
  {
    hide PlacedAs, Current;
  }

  /** What is current afterwards: the new value if it holds now, and what it did not displace. */
  lemma PlaceCurrent(onto: Ontology, st: State, id: Id, new_: Statement, subject: Entity, now: Time, i: Id)
    requires Settled(st.statements, now) && new_.Start() <= now
    requires new_.status == Confirmed && new_.retractedAt.None? && new_.recordedAt <= now
    ensures i in Current(Place(onto, st, id, new_, subject, now), new_.subject, new_.property, now, false)
            <==> if i == id then new_.ValidAt(now)
                 else i in Current(st, new_.subject, new_.property, now, false)
                      && i !in Displaced(onto, st, id, new_, subject, now)
  {
    PlaceFrame(onto, st, id, new_, subject, now);
    assert new_.subject in Group(st.entities, new_.subject);
    var st' := Place(onto, st, id, new_, subject, now);
    var closed := Displaced(onto, st, id, new_, subject, now);
    hide Place, Displaced, Group;
    if i == id {
      assert st'.statements[i].ValidAt(now) == new_.ValidAt(now);
    } else if i in closed {
      assert !st'.statements[i].ValidAt(now);
    } else if i in st.statements {
      assert st'.statements[i] == st.statements[i];
    }
  }

  /** Afterwards it is the one current value, for its subject and all merged into it, exactly
      when it holds now and no current value starts after it. */
  lemma PlaceLeavesOne(onto: Ontology, st: State, id: Id, new_: Statement, subject: Entity, now: Time)
    requires Settled(st.statements, now) && new_.Start() <= now
    requires new_.status == Confirmed && new_.retractedAt.None? && new_.recordedAt <= now
    requires onto.SingleValued(subject, new_.property)
    ensures var st' := Place(onto, st, id, new_, subject, now);
            Current(st', new_.subject, new_.property, now, false) == {id}
            <==> new_.ValidAt(now)
                 && forall i :: i in Current(st, new_.subject, new_.property, now, false) && i != id ==>
                      st.statements[i].Start() <= new_.Start()
  {
    var before := Current(st, new_.subject, new_.property, now, false);
    var closed := Displaced(onto, st, id, new_, subject, now);
    var after := Current(Place(onto, st, id, new_, subject, now), new_.subject, new_.property, now, false);
    DisplacedMeans(onto, st, id, new_, subject, now);
    hide *;
    forall i ensures i in after <==> if i == id then new_.ValidAt(now) else i in before && i !in closed {
      PlaceCurrent(onto, st, id, new_, subject, now, i);
    }
  }

  /** Confirming a proposal makes it the one current value, for its subject and all merged into it, exactly when it holds
      now and no current value starts after it. */
  lemma ConfirmLeavesOneIff(onto: Ontology, st: State, id: Id, now: Time)
    requires Settled(st.statements, now) && id in st.statements && st.statements[id].status == Proposed
    requires var s := st.statements[id];
             Lookup(st.entities, s.subject).Ok? && onto.SingleValued(st.entities[s.subject], s.property)
    ensures var s, out := st.statements[id], Confirm(onto, st, id, now);
            && out.result == Ok(id)
            && (Current(out.state, s.subject, s.property, now, false) == {id}
                <==> s.ValidAt(now)
                     && forall i :: i in Current(st, s.subject, s.property, now, false) && i != id ==>
                          st.statements[i].Start() <= s.Start())
  {
    hide Place, Current;
    var s := st.statements[id];
    var confirmed, subject := s.(status := Confirmed), st.entities[s.subject];
    assert Confirm(onto, st, id, now).state == Place(onto, st, id, confirmed, subject, now);
    if s.Start() <= now {
      PlaceLeavesOne(onto, st, id, confirmed, subject, now);
    } else {
      PlaceFrame(onto, st, id, confirmed, subject, now);
      NotYetCurrent(Place(onto, st, id, confirmed, subject, now), s.subject, s.property, now, id);
    }
  }

  lemma NotYetCurrent(st: State, subject: Id, property: string, now: Time, i: Id)
    requires i in st.statements && now < st.statements[i].Start()
    ensures i !in Current(st, subject, property, now, false)
  {
    hide Group;
  }

  lemma DisplacedMeans(onto: Ontology, st: State, id: Id, new_: Statement, subject: Entity, now: Time)
    requires onto.SingleValued(subject, new_.property)
    ensures forall i :: i in Displaced(onto, st, id, new_, subject, now) <==>
      i in Current(st, new_.subject, new_.property, now, false) && i != id && st.statements[i].Start() <= new_.Start()
  {
  }

  /** The claim an assertion finds already made, proposed ones and members' ones included. */
  ghost function Found(st: State, c: Claim, now: Time): Option<Id> {
    if Alike(st, c, now) == {} then None else Some(First(st.statements, Alike(st, c, now)))
  }

  ghost function AssertedStart(st: State, c: Claim, validFrom: Option<Time>, now: Time): Time {
    if Found(st, c, now).Some? && Found(st, c, now).value in st.statements
    then st.statements[Found(st, c, now).value].Start()
    else if validFrom.Some? then validFrom.value else now
  }

  /** Asserting a confirmed value of a single-valued property that starts by now, and not
      before a current one, leaves exactly that value current, new or found. */
  lemma AssertLeavesOne(onto: Ontology, st: State, id: Id, c: Claim, validFrom: Option<Time>, now: Time)
    requires Settled(st.statements, now) && id !in st.statements
    requires c.subject in st.entities && onto.SingleValued(st.entities[c.subject], c.property)
    requires AtMostOne(Current(st, c.subject, c.property, now, false))
    requires forall i :: i in Current(st, c.subject, c.property, now, false) ==>
      st.statements[i].Start() <= AssertedStart(st, c, validFrom, now)
    requires AssertedStart(st, c, validFrom, now) <= now
    requires Assert(onto, st, id, c, Confirmed, validFrom, now).result.Ok?
    ensures var out := Assert(onto, st, id, c, Confirmed, validFrom, now);
            Current(out.state, c.subject, c.property, now, false) == {out.result.value}
  {
    hide Assert, Confirm, Place, Current, Found, Alike, Root, Group;
    var subject := st.entities[c.subject];
    if Found(st, c, now).None? {
      AssertPlaces(onto, st, id, c, validFrom, now);
      PlaceLeavesOne(onto, st, id, NewStatement(c, Confirmed, validFrom, now), subject, now);
    } else {
      var i := Found(st, c, now).value;
      FoundMeans(st, c, now);
      var st' := st.(statements := st.statements[i := Reinforce(st.statements[i], now)]);
      ReinforcedSame(st, i, c.subject, c.property, now);
      AssertFinds(onto, st, id, c, validFrom, now);
      if st.statements[i].status == Proposed {
        var s := st'.statements[i];
        RootUnderRoot(st.entities, s.subject, c.subject);
        PlaceLeavesOne(onto, st', i, s.(status := Confirmed), subject, now);
      }
    }
  }

  /** A claim nobody made yet is placed anew. */
  lemma AssertPlaces(onto: Ontology, st: State, id: Id, c: Claim, validFrom: Option<Time>, now: Time)
    requires Found(st, c, now).None? && Assert(onto, st, id, c, Confirmed, validFrom, now).result.Ok?
    ensures c.subject in st.entities
    ensures Assert(onto, st, id, c, Confirmed, validFrom, now)
         == Outcome(Place(onto, st, id, NewStatement(c, Confirmed, validFrom, now), st.entities[c.subject], now), Ok(id))
  {
    hide Alike, Place, ClaimProblem;
  }

  /** One made already is reinforced and, if it was a proposal, confirmed under the name it is filed by. */
  lemma AssertFinds(onto: Ontology, st: State, id: Id, c: Claim, validFrom: Option<Time>, now: Time)
    requires Found(st, c, now).Some? && Assert(onto, st, id, c, Confirmed, validFrom, now).result.Ok?
    requires Found(st, c, now).value in st.statements
    ensures var i := Found(st, c, now).value;
      var s := st.statements[i];
      var st' := st.(statements := st.statements[i := Reinforce(s, now)]);
      Assert(onto, st, id, c, Confirmed, validFrom, now)
      == if s.status == Proposed
         then Outcome(Place(onto, st', i, Reinforce(s, now).(status := Confirmed), st.entities[s.subject], now), Ok(i))
         else Outcome(st', Ok(i))
    ensures st.statements[Found(st, c, now).value].status == Proposed
            ==> Root(st.entities, st.statements[Found(st, c, now).value].subject)
  {
    hide Alike, Place, ClaimProblem;
  }

  lemma FoundMeans(st: State, c: Claim, now: Time)
    requires Found(st, c, now).Some?
    ensures var i := Found(st, c, now).value;
            && i in st.statements && st.statements[i].property == c.property
            && st.statements[i].subject in Group(st.entities, c.subject)
            && st.statements[i].ValidAt(now)
            && (st.statements[i].status != Proposed ==> i in Current(st, c.subject, c.property, now, false))
  {
  }

  lemma RootUnderRoot(es: Entities, m: Id, e: Id)
    requires Root(es, m) && m in Group(es, e)
    ensures m == e
  {
  }

  lemma ReinforcedSame(st: State, i: Id, subject: Id, property: string, now: Time)
    requires i in st.statements
    ensures var st' := st.(statements := st.statements[i := Reinforce(st.statements[i], now)]);
            Current(st', subject, property, now, false) == Current(st, subject, property, now, false)
            && (Settled(st.statements, now) ==> Settled(st'.statements, now))
  {
    var st' := st.(statements := st.statements[i := Reinforce(st.statements[i], now)]);
    forall j | j in st.statements
      ensures Visible(st'.statements[j], now, now, false) == Visible(st.statements[j], now, now, false)
      ensures st'.statements[j].subject == st.statements[j].subject && st'.statements[j].property == st.statements[j].property {}
    hide Group, Visible;
  }

  /** Confirming refuses nothing it was asked to assert, but one: the claim found is a proposal
      filed under a name merged away since. Then the sighting is counted and the confirmation
      refused. */
  lemma AssertRefusedAfterSaving(onto: Ontology, st: State, id: Id, c: Claim, validFrom: Option<Time>, now: Time)
    requires id !in st.statements && Lookup(st.entities, c.subject).Ok?
    requires ClaimProblem(onto, st.entities, st.entities[c.subject], c).None?
    ensures var out := Assert(onto, st, id, c, Confirmed, validFrom, now);
            var found := Found(st, c, now);
            out.result.Refused? <==>
              found.Some? && found.value in st.statements && st.statements[found.value].status == Proposed
              && Lookup(st.entities, st.statements[found.value].subject).Refused?
    ensures var out := Assert(onto, st, id, c, Confirmed, validFrom, now);
            var i := Found(st, c, now);
            out.result.Refused? ==>
              out.state.statements == st.statements[i.value := Reinforce(st.statements[i.value], now)]
  {
    if Found(st, c, now).Some? {
      FoundMeans(st, c, now);
    }
    hide Alike, Place;
  }

  // ---------------------------------------------------------------- every instant, over whole runs

  ghost predicate Rival(st: State, i: Id, id: Id, subject: Id, property: string) {
    i in st.statements && i != id && st.statements[i].status == Confirmed
    && st.statements[i].property == property && st.statements[i].subject in Group(st.entities, subject)
  }

  /** A start no rival's timeline reaches past: by now, not before any rival's start, and after
      the end of every rival that holds no longer. */
  ghost predicate ClearFrom(st: State, id: Id, subject: Id, property: string, start: Time, now: Time) {
    start <= now
    && forall i :: Rival(st, i, id, subject, property) ==>
         st.statements[i].Start() <= start
         && (st.statements[i].ValidAt(now)
             || (st.statements[i].validTo.Some? && st.statements[i].validTo.value <= start))
  }

  lemma PlaceKeepsTimeline(onto: Ontology, st: State, id: Id, new_: Statement, now: Time)
    requires Forest(st.entities) && Settled(st.statements, now) && TimelineSafe(onto, st)
    requires Root(st.entities, new_.subject) && new_.status == Confirmed
    requires id in st.statements ==> st.statements[id].subject == new_.subject && st.statements[id].property == new_.property
    requires ClearFrom(st, id, new_.subject, new_.property, new_.Start(), now)
    ensures TimelineSafe(onto, Place(onto, st, id, new_, st.entities[new_.subject], now))
  {
    var subject := st.entities[new_.subject];
    var st' := Place(onto, st, id, new_, subject, now);
    PlaceFrame(onto, st, id, new_, subject, now);
    forall i | i in st'.statements && i != id ensures Shrinks(st.statements, st'.statements, i) {
      if i in Displaced(onto, st, id, new_, subject, now) { assert st.statements[i].ValidAt(now); }
    }
    forall j | Slot(onto, st', id, j) && j != id && st'.statements[j].status == Confirmed
      ensures Apart(st'.statements[id], st'.statements[j])
    {
      NewcomerApart(onto, st, id, new_, now, j);
    }
    hide Place;
    WithNewcomer(onto, st, st', id);
  }

  ghost predicate Shrinks(ss: Statements, ss': Statements, i: Id) {
    i in ss && i in ss' && ss'[i].subject == ss[i].subject && ss'[i].property == ss[i].property
    && (ss'[i].status == Confirmed ==> ss[i].status == Confirmed && forall t :: ss'[i].ValidAt(t) ==> ss[i].ValidAt(t))
  }

  lemma NewcomerApart(onto: Ontology, st: State, id: Id, new_: Statement, now: Time, j: Id)
    requires Forest(st.entities) && Settled(st.statements, now)
    requires Root(st.entities, new_.subject) && new_.status == Confirmed
    requires ClearFrom(st, id, new_.subject, new_.property, new_.Start(), now)
    requires var st' := Place(onto, st, id, new_, st.entities[new_.subject], now);
             Slot(onto, st', id, j) && j != id && st'.statements[j].status == Confirmed
    ensures var st' := Place(onto, st, id, new_, st.entities[new_.subject], now);
            Apart(st'.statements[id], st'.statements[j])
  {
    var subject := st.entities[new_.subject];
    PlaceFrame(onto, st, id, new_, subject, now);
    CanonIsTheRoot(st.entities, new_.subject);
    MembersAreThoseItStandsFor(st.entities, new_.subject, st.statements[j].subject);
    hide Place, Canon, Group, Forest;
    assert Rival(st, j, id, new_.subject, new_.property);
    if st.statements[j].ValidAt(now) { assert j in Displaced(onto, st, id, new_, subject, now); }
  }

  lemma WithNewcomer(onto: Ontology, st: State, st': State, id: Id)
    requires TimelineSafe(onto, st) && st'.entities == st.entities
    requires forall i :: i in st'.statements && i != id ==> Shrinks(st.statements, st'.statements, i)
    requires forall j | Slot(onto, st', id, j) && j != id && st'.statements[j].status == Confirmed ::
      st'.statements[id].status == Confirmed ==> Apart(st'.statements[id], st'.statements[j])
    ensures TimelineSafe(onto, st')
  {
    hide Canon;
    forall i, j | Slot(onto, st', i, j) && i != j
                  && st'.statements[i].status == Confirmed && st'.statements[j].status == Confirmed
      ensures Apart(st'.statements[i], st'.statements[j])
    {
      if i == id {
      } else if j == id {
        assert Slot(onto, st', id, i);
      } else {
        assert Slot(onto, st, i, j) && Shrinks(st.statements, st'.statements, i) && Shrinks(st.statements, st'.statements, j);
      }
    }
  }

  function Max(a: Time, b: Time): Time {
    if a < b then b else a
  }

  /** The statement still holds at some instant from t0 on. */
  predicate LastsPast(s: Statement, t0: Time) {
    s.validTo.None? || (s.validTo.value > t0 && s.validTo.value > s.Start())
  }

  /** A third confirmed value on the timeline of p. */
  ghost predicate Third(onto: Ontology, st: State, p: Id, id: Id, j: Id) {
    j in st.statements && Slot(onto, st, p, j) && j != p && j != id && st.statements[j].status == Confirmed
  }

  /** No third value of the timeline lasts past the point where a retraction reopens one. */
  ghost predicate ReopensSafely(onto: Ontology, st: State, id: Id)
    requires id in st.statements
  {
    var s := st.statements[id];
    Reopens(st.statements, s) && s.supersedes.value != id ==>
      forall j :: Third(onto, st, s.supersedes.value, id, j) ==>
        !LastsPast(st.statements[j], Max(s.Start(), st.statements[s.supersedes.value].Start()))
  }

  /** Retracting keeps the timeline free of overlaps exactly when what it reopens has no later
      value in its way. */
  lemma RetractKeepsTimelineIff(onto: Ontology, st: State, id: Id, reason: Option<string>, now: Time)
    requires TimelineSafe(onto, st) && id in st.statements && st.statements[id].status != Retracted
    ensures TimelineSafe(onto, Retract(st, id, reason, now).state) <==> ReopensSafely(onto, st, id)
  {
    hide Canon, Slot, Apart, Retract;
    var s := st.statements[id];
    var st' := Retract(st, id, reason, now).state;
    if Reopens(st.statements, s) && s.supersedes.value != id {
      var p := s.supersedes.value;
      RetractFrame(st, id, reason, now);
      RetractedSlots(onto, st, st');
      ReopenedApart(onto, st, st', id, p);
      forall j | Third(onto, st, p, id, j)
        ensures LastsPast(st.statements[j], Max(s.Start(), st.statements[p].Start()))
                <==> !Apart(st'.statements[p], st'.statements[j])
      {
        assert st'.statements[j] == st.statements[j];
        ReopenedMeets(st.statements[p], st.statements[j], s.Start());
      }
    } else {
      OnlyWithdrawn(onto, st, id, reason, now);
    }
  }

  lemma OnlyWithdrawn(onto: Ontology, st: State, id: Id, reason: Option<string>, now: Time)
    requires TimelineSafe(onto, st) && id in st.statements && st.statements[id].status != Retracted
    requires !Reopens(st.statements, st.statements[id]) || st.statements[id].supersedes.value == id
    ensures TimelineSafe(onto, Retract(st, id, reason, now).state)
  {
    hide Canon, Apart, TimelineSafe, Retract, Reopens;
    RetractFrame(st, id, reason, now);
    ShrunkApart(onto, st, Retract(st, id, reason, now).state);
  }

  lemma RetractFrame(st: State, id: Id, reason: Option<string>, now: Time)
    requires id in st.statements && st.statements[id].status != Retracted
    ensures var s, st' := st.statements[id], Retract(st, id, reason, now).state;
            var reopened := if Reopens(st.statements, s) && s.supersedes.value != id then {s.supersedes.value} else {};
            && st'.entities == st.entities && st'.statements.Keys == st.statements.Keys
            && (exists said :: st'.statements[id] == Withdrawn(s, said, now))
            && (forall i :: i in reopened ==> st'.statements[i] == st.statements[i].(validTo := None))
            && (forall i :: i in st.statements && i != id && i !in reopened ==> st'.statements[i] == st.statements[i])
  {
    hide Withdrawn;
    var s := st.statements[id];
    var said := if reason.Some? && reason.value != "" then reason else s.reason;
    assert Retract(st, id, reason, now).state.statements[id] == Withdrawn(s, said, now);
  }

  /** Once reopened, a value meets another one exactly when that one lasts past both. */
  lemma ReopenedMeets(a: Statement, b: Statement, start: Time)
    requires Apart(a, b) && a.validTo == Some(start)
    ensures LastsPast(b, Max(start, a.Start())) <==> !Apart(a.(validTo := None), b)
  {
    var a' := a.(validTo := None);
    var m := Max(start, a.Start());
    if LastsPast(b, m) {
      var t := Max(m, b.Start());
      assert a'.ValidAt(t) && b.ValidAt(t);
    } else {
      forall t | a'.ValidAt(t) ensures !b.ValidAt(t) {
        if t < start { assert a.ValidAt(t); }
      }
    }
  }

  lemma RetractedSlots(onto: Ontology, st: State, st': State)
    requires st'.entities == st.entities && st'.statements.Keys == st.statements.Keys
    requires forall i :: i in st.statements ==>
      st'.statements[i].subject == st.statements[i].subject && st'.statements[i].property == st.statements[i].property
    ensures forall i, j :: Slot(onto, st', i, j) <==> Slot(onto, st, i, j)
    ensures forall i, j :: Slot(onto, st', i, j) <==> Slot(onto, st', j, i)
  {
    hide Canon;
  }

  lemma ReopenedApart(onto: Ontology, st: State, st': State, id: Id, p: Id)
    requires TimelineSafe(onto, st) && st'.statements.Keys == st.statements.Keys
    requires forall i, j :: Slot(onto, st', i, j) <==> Slot(onto, st, i, j)
    requires forall i, j :: Slot(onto, st', i, j) <==> Slot(onto, st', j, i)
    requires id in st.statements && st'.statements[id].status == Retracted
    requires p in st.statements && p != id && st.statements[p].status == Confirmed
    requires st'.statements[p] == st.statements[p].(validTo := None)
    requires forall i :: i in st.statements && i != p && i != id ==> st'.statements[i] == st.statements[i]
    ensures TimelineSafe(onto, st') <==>
            forall j :: Third(onto, st, p, id, j) ==> Apart(st'.statements[p], st'.statements[j])
  {
    hide Slot;
    if forall j :: Third(onto, st, p, id, j) ==> Apart(st'.statements[p], st'.statements[j]) {
      forall i, j | i in st'.statements && j in st'.statements && Slot(onto, st', i, j) && i != j
                    && st'.statements[i].status == Confirmed && st'.statements[j].status == Confirmed
        ensures Apart(st'.statements[i], st'.statements[j])
      {
        assert Slot(onto, st', j, i);
        if i == p { assert Third(onto, st, p, id, j); }
        if j == p { assert Third(onto, st, p, id, i); }
      }
      InTheStore(onto, st');
    } else {
      var j :| Third(onto, st, p, id, j) && !Apart(st'.statements[p], st'.statements[j]);
      assert Slot(onto, st', p, j);
    }
  }

  lemma InTheStore(onto: Ontology, st: State)
    ensures forall i, j :: Slot(onto, st, i, j) ==> i in st.statements && j in st.statements
  {
    hide Canon;
  }

  /** Fewer confirmed values, none of them longer: still no overlap. */
  lemma ShrunkApart(onto: Ontology, st: State, st': State)
    requires TimelineSafe(onto, st)
    requires forall i, j :: Slot(onto, st', i, j) ==> Slot(onto, st, i, j)
    requires forall i :: i in st'.statements && st'.statements[i].status == Confirmed ==>
      i in st.statements && st.statements[i].status == Confirmed
      && forall t :: st'.statements[i].ValidAt(t) ==> st.statements[i].ValidAt(t)
    ensures TimelineSafe(onto, st')
  {
  }

  /** An open confirmed value that superseded within its own timeline can always be retracted. */
  lemma OpenValueIsLast(onto: Ontology, st: State, id: Id)
    requires TimelineSafe(onto, st) && id in st.statements
    requires st.statements[id].status == Confirmed && st.statements[id].validTo.None?
    requires var p := st.statements[id].supersedes; p.Some? ==> Slot(onto, st, id, p.value)
    ensures ReopensSafely(onto, st, id)
  {
    var s := st.statements[id];
    hide Canon;
    if Reopens(st.statements, s) && s.supersedes.value != id {
      var p := s.supersedes.value;
      forall j | Third(onto, st, p, id, j)
        ensures !LastsPast(st.statements[j], Max(s.Start(), st.statements[p].Start()))
      {
        assert Slot(onto, st, id, j);
        assert Apart(s, st.statements[j]);
        var t := Max(Max(s.Start(), st.statements[p].Start()), st.statements[j].Start());
        assert s.ValidAt(t);
      }
    }
  }
}
