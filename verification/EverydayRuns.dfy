/** Timelines over runs as callers make them: entities added, values confirmed as they are said, ended now, and taken
    back while open. */
module EverydayRuns {
  import opened Records
  import opened MergeForest
  import opened GraphSpec
  import opened Labels
  import opened Runs
  import opened TimelineLaws
  import opened IdentityLaws
  import opened MergeTimelines
  import opened TimelineRuns

  /** New entities, confirmed assertions that start now, ends now, and retractions of open values. */
  predicate Everyday(st: State, op: Op) {
    match op
    case AddOp(_, _, _, _) => true
    case AssertOp(_, _, status, validFrom) => status == Confirmed && validFrom.None?
    case EndOp(_, at) => at.None?
    case RetractOp(id, _) => id in st.statements ==> st.statements[id].validTo.None?
    case _ => false
  }

  /** What superseded stands on one timeline with what it superseded. */
  ghost predicate Chained(onto: Ontology, st: State) {
    forall i :: i in st.statements && st.statements[i].supersedes.Some? ==>
      Slot(onto, st, i, st.statements[i].supersedes.value)
  }

  predicate NothingProposed(st: State) {
    forall i :: i in st.statements ==> st.statements[i].status != Proposed
  }

  ghost predicate Ready(onto: Ontology, st: State) {
    Forest(st.entities) && Chained(onto, st) && NothingProposed(st)
  }

  lemma EverydayIsAllowed(onto: Ontology, st: State, op: Op, now: Time)
    requires Orderly(onto, st, now) && Ready(onto, st) && Everyday(st, op)
    ensures Allowed(onto, st, op, now)
  {
    hide Slot, Forest, Alike, ReopensSafely;
    match op
    case RetractOp(id, _) =>
      if id in st.statements && st.statements[id].status != Retracted {
        OpenValueIsLast(onto, st, id);
      }
    case _ =>
  }

  /** Statements that keep their subject and property keep their timeline. */
  lemma SlotStays(onto: Ontology, st: State, st': State, i: Id, p: Id)
    requires Slot(onto, st, i, p) && st'.entities == st.entities && i in st'.statements && p in st'.statements
    requires st'.statements[i].subject == st.statements[i].subject
    requires st'.statements[i].property == st.statements[i].property
    requires st'.statements[p].subject == st.statements[p].subject
    requires st'.statements[p].property == st.statements[p].property
    ensures Slot(onto, st', i, p)
  {
    hide Canon;
  }

  /** The same claims, whatever else changed of them, and no new proposal. */
  ghost predicate SameClaims(st: State, st': State) {
    && st'.entities == st.entities && st'.statements.Keys == st.statements.Keys
    && forall i :: i in st.statements ==>
         var s, s' := st.statements[i], st'.statements[i];
         s'.subject == s.subject && s'.property == s.property && s'.supersedes == s.supersedes
         && (s'.status == s.status || s'.status == Retracted)
  }

  lemma SameClaimsStayReady(onto: Ontology, st: State, st': State)
    requires Ready(onto, st) && SameClaims(st, st')
    ensures Ready(onto, st')
  {
    hide Forest;
    forall i | i in st'.statements && st'.statements[i].supersedes.Some?
      ensures Slot(onto, st', i, st'.statements[i].supersedes.value)
    {
      var p := st.statements[i].supersedes.value;
      assert Slot(onto, st, i, p);
      SlotStays(onto, st, st', i, p);
    }
  }

  lemma AssertOfNew(onto: Ontology, st: State, id: Id, c: Claim, now: Time)
    requires Found(st, c, now).None?
    ensures var st' := Assert(onto, st, id, c, Confirmed, None, now).state;
      || st' == st
      || (Root(st.entities, c.subject)
          && st' == Place(onto, st, id, NewStatement(c, Confirmed, None, now), st.entities[c.subject], now))
  {
    hide ClaimProblem, Place, Alike, NewStatement;
  }

  lemma AssertOfKnown(onto: Ontology, st: State, id: Id, c: Claim, now: Time)
    requires Found(st, c, now).Some? && Found(st, c, now).value in st.statements
    requires st.statements[Found(st, c, now).value].status != Proposed
    ensures var st' := Assert(onto, st, id, c, Confirmed, None, now).state;
      var i := Found(st, c, now).value;
      st' == st || st' == st.(statements := st.statements[i := Reinforce(st.statements[i], now)])
  {
    hide ClaimProblem, Alike, Confirm;
  }

  /** With nothing proposed, a confirmed assertion is refused, or counted again, or placed. */
  lemma AssertGives(onto: Ontology, st: State, id: Id, c: Claim, now: Time)
    requires NothingProposed(st)
    ensures var st' := Assert(onto, st, id, c, Confirmed, None, now).state;
      || SameClaims(st, st')
      || (Root(st.entities, c.subject)
          && st' == Place(onto, st, id, NewStatement(c, Confirmed, None, now), st.entities[c.subject], now))
  {
    hide Assert, Place, Found, Root, NewStatement;
    if Found(st, c, now).Some? {
      FoundMeans(st, c, now);
      AssertOfKnown(onto, st, id, c, now);
    } else {
      AssertOfNew(onto, st, id, c, now);
    }
  }

  lemma PlacedMeans(onto: Ontology, st: State, id: Id, new_: Statement, now: Time)
    requires Forest(st.entities) && Root(st.entities, new_.subject)
    ensures forall i :: i in Displaced(onto, st, id, new_, st.entities[new_.subject], now) ==>
      && i in st.statements && st.statements[i].property == new_.property
      && Canon(st.entities, st.statements[i].subject) == new_.subject
      && onto.SingleValued(st.entities[new_.subject], new_.property)
  {
    forall i | i in Displaced(onto, st, id, new_, st.entities[new_.subject], now)
      ensures Canon(st.entities, st.statements[i].subject) == new_.subject
    {
      MembersAreThoseItStandsFor(st.entities, new_.subject, st.statements[i].subject);
    }
  }

  lemma PlaceKeepsReady(onto: Ontology, st: State, id: Id, new_: Statement, now: Time)
    requires Ready(onto, st) && Root(st.entities, new_.subject) && id !in st.statements
    requires new_.supersedes.None? && new_.status == Confirmed
    ensures Ready(onto, Place(onto, st, id, new_, st.entities[new_.subject], now))
  {
    hide Forest, Place, Displaced, Canon;
    var subject := st.entities[new_.subject];
    var st' := Place(onto, st, id, new_, subject, now);
    var closed := Displaced(onto, st, id, new_, subject, now);
    PlaceFrame(onto, st, id, new_, subject, now);
    PlacedMeans(onto, st, id, new_, now);
    CanonIsTheRoot(st.entities, new_.subject);
    forall i | i in st'.statements && st'.statements[i].supersedes.Some?
      ensures Slot(onto, st', i, st'.statements[i].supersedes.value)
    {
      if i != id {
        assert Slot(onto, st, i, st.statements[i].supersedes.value);
        SlotStays(onto, st, st', i, st.statements[i].supersedes.value);
      }
    }
  }

  lemma AddedIsReady(onto: Ontology, st: State, e: Id, class_: string, title: string, aliases: seq<string>, now: Time)
    requires Ready(onto, st) && Placed(st) && e !in st.entities
    ensures Ready(onto, WithEntity(st, e, class_, title, aliases, now))
  {
    hide Forest, Canon, Under, FreshNames, Ontology.SingleValued;
    var st' := WithEntity(st, e, class_, title, aliases, now);
    FewerPointersKeepForest(st.entities, st'.entities);
    forall i | i in st'.statements && st'.statements[i].supersedes.Some?
      ensures Slot(onto, st', i, st'.statements[i].supersedes.value)
    {
      var p := st.statements[i].supersedes.value;
      assert Slot(onto, st, i, p);
      NothingUnderTheUnknown(st.entities, st.statements[i].subject, e);
      NothingUnderTheUnknown(st.entities, st.statements[p].subject, e);
      SameCanonBeside(st.entities, st'.entities, e, st.statements[i].subject);
      SameCanonBeside(st.entities, st'.entities, e, st.statements[p].subject);
    }
  }

  lemma EverydayStep(onto: Ontology, st: State, op: Op, now: Time)
    requires Ready(onto, st) && Placed(st) && Everyday(st, op)
    ensures Ready(onto, Step(onto, st, op, now))
  {
    hide Ready, Assert, Retract, Place, SameClaims, WithEntity, AddRefusal, Label;
    if FreshIds(st, op) {
      match op
      case AddOp(e, c, n, al) =>
        if AddRefusal(onto, c, n).None? { AddedIsReady(onto, st, e, c, Label(n), al, now); }
      case AssertOp(id, c, _, _) =>
        ReadyParts(onto, st);
        AssertGives(onto, st, id, c, now);
        if !SameClaims(st, Step(onto, st, op, now)) {
          PlaceKeepsReady(onto, st, id, NewStatement(c, Confirmed, None, now), now);
        } else {
          SameClaimsStayReady(onto, st, Step(onto, st, op, now));
        }
      case EndOp(id, at) =>
        EndedSame(st, id, at, now);
        SameClaimsStayReady(onto, st, End(st, id, at, now).state);
      case RetractOp(id, why) =>
        RetractedSame(st, id, why, now);
        SameClaimsStayReady(onto, st, Retract(st, id, why, now).state);
    }
  }

  lemma ReadyParts(onto: Ontology, st: State)
    requires Ready(onto, st)
    ensures Forest(st.entities) && NothingProposed(st)
  {
  }

  lemma EndedSame(st: State, id: Id, at: Option<Time>, now: Time)
    ensures SameClaims(st, End(st, id, at, now).state)
  {
  }

  lemma RetractedSame(st: State, id: Id, why: Option<string>, now: Time)
    ensures SameClaims(st, Retract(st, id, why, now).state)
  {
    if id in st.statements && st.statements[id].status != Retracted {
      hide Retract, Reopens;
      RetractFrame(st, id, why, now);
    }
  }

  ghost predicate AllEveryday(onto: Ontology, st: State, ops: seq<(Op, Time)>, since: Time)
    decreases |ops|
  {
    ops == []
    || (since <= ops[0].1 && Everyday(st, ops[0].0)
        && AllEveryday(onto, Step(onto, st, ops[0].0, ops[0].1), ops[1..], ops[0].1))
  }

  /** Any such run, under a clock that never goes back, from any graph with entities and merges but no statement yet, or
      left by such a run: at every instant, every single-valued property has at most one confirmed value. */
  lemma {:induction false} EverydayRunsAreSafe(onto: Ontology, st: State, ops: seq<(Op, Time)>, since: Time)
    requires Orderly(onto, st, since) && Ready(onto, st) && Identity(st) && AllEveryday(onto, st, ops, since)
    ensures TimelineSafe(onto, Run(onto, st, ops)) && Ready(onto, Run(onto, st, ops))
    decreases |ops|
  {
    hide Step, Ready, Everyday, Allowed, TimelineSafe, Forest, SameIsMerged, AddedApart, OnePerPair;
    if ops != [] {
      var (op, now) := ops[0];
      LaterIsOrderly(onto, st, since, now);
      EverydayIsAllowed(onto, st, op, now);
      StepKeepsBoth(onto, st, op, now);
      EverydayStep(onto, st, op, now);
      hide Orderly, Identity;
      EverydayRunsAreSafe(onto, Step(onto, st, op, now), ops[1..], now);
    }
  }

  lemma NothingSaidIsReady(onto: Ontology, st: State, now: Time)
    requires Forest(st.entities) && st.statements == map[]
    ensures Orderly(onto, st, now) && Ready(onto, st)
  {
  }

  /** And so of any such run from an empty graph. */
  lemma EveryEverydayRunIsSafe(onto: Ontology, ops: seq<(Op, Time)>, since: Time)
    requires AllEveryday(onto, NOTHING, ops, since)
    ensures TimelineSafe(onto, Run(onto, NOTHING, ops))
  {
    EveryRunHasIdentity(onto, []);
    assert Run(onto, NOTHING, []) == NOTHING;
    NothingSaidIsReady(onto, NOTHING, since);
    EverydayRunsAreSafe(onto, NOTHING, ops, since);
  }
}
