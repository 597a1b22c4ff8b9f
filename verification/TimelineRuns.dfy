/** Whole runs of any operations, each allowed where it is taken, keep every single-valued timeline
    free of overlaps; asserts and retracts nest like a stack. */
module TimelineRuns {
  import opened Records
  import opened MergeForest
  import opened GraphSpec
  import opened Labels
  import opened Runs
  import opened TimelineLaws
  import opened IdentityLaws
  import opened MergeTimelines
  import opened RemovalLaws
  import opened RestoreLaws
  import opened RestoreTimelines

  ghost predicate Orderly(onto: Ontology, st: State, now: Time) {
    Forest(st.entities) && Settled(st.statements, now) && TimelineSafe(onto, st) && StartedBy(st.statements, now)
  }

  /** What a caller must see to before a step. A value that starts now needs nothing; a
      backdated one, or a proposal confirmed late, must start clear of the rivals' timeline; a
      retraction must not reopen a value under a later one; what is reinstated or restored must
      return apart from what stays; a merge, or its undoing, must not bring two values that overlap
      under one limit. */
  ghost predicate Allowed(onto: Ontology, st: State, op: Op, now: Time) {
    match op
    case AssertOp(id, c, status, validFrom) =>
      status == Confirmed ==>
        var found := Found(st, c, now);
        if found.None? then validFrom.None? || ClearFrom(st, id, c.subject, c.property, validFrom.value, now)
        else ConfirmsClear(st, found.value, now)
    case ConfirmOp(id) => ConfirmsClear(st, id, now)
    case RetractOp(id, _) => id in st.statements && st.statements[id].status != Retracted ==> ReopensSafely(onto, st, id)
    case UnconfirmOp(_) => true
    case EndOp(_, _) => true
    case PurgeOp(_) => true
    case RemoveOp(_, _) => true
    case AddOp(_, _, _, _) => true
    case DeleteOp(_) => true
    case MergeOp(keep, fold, _, _) => MergeRefusal(onto, st, keep, fold).None? ==> FoldsApart(onto, st, keep, fold)
    case ReinstateOp(id, status, reason) => Reinstate(onto, st, id, status, reason, now).result.Ok? ==>
        ReinstatesClear(onto, st, id, st.statements[id].(status := status, retractedAt := None, reason := reason), now)
    case RestoreOp(e) => e in st.entities && st.entities[e].removedAt.Some? ==> RestoresClear(onto, st, e, now)
    case UnmergeOp(d) => Unmerge(st, d, now).result.Ok? ==> LoserApart(onto, st, st.decisions[d].b)
    case DistinctOp(_, _, _) => true
    case NoteOp(_, _, _, _) => true
  }

  ghost predicate ReinstatesClear(onto: Ontology, st: State, id: Id, back: Statement, now: Time) {
    back.status == Confirmed ==> back.Start() <= now && ReturnsSafely(onto, st, id, back, now)
  }

  ghost predicate RestoresClear(onto: Ontology, st: State, e: Id, now: Time)
    requires e in st.entities
  {
    && Taken(st.statements, Pending(st, e), now)
    && ReturnInTurn(onto, st, Pending(st, e), now) && ReturnBeside(onto, st, Pending(st, e), now)
  }

  ghost predicate ConfirmsClear(st: State, id: Id, now: Time) {
    id in st.statements && st.statements[id].status == Proposed ==>
      var s := st.statements[id];
      ClearFrom(st, id, s.subject, s.property, s.Start(), now)
  }

  // ---------------------------------------------------------------- one step

  lemma LaterIsOrderly(onto: Ontology, st: State, now: Time, later: Time)
    requires Orderly(onto, st, now) && now <= later
    ensures Orderly(onto, st, later)
  {
  }

  /** A value starting now is clear of everything recorded. */
  lemma NowIsClear(onto: Ontology, st: State, id: Id, subject: Id, property: string, now: Time)
    requires Orderly(onto, st, now)
    ensures ClearFrom(st, id, subject, property, now, now)
  {
    hide Group;
  }

  lemma PlaceStep(onto: Ontology, st: State, id: Id, new_: Statement, now: Time)
    requires Orderly(onto, st, now) && Root(st.entities, new_.subject)
    requires new_.status == Confirmed && new_.retractedAt.None? && new_.recordedAt <= now
    requires id in st.statements ==> st.statements[id].subject == new_.subject && st.statements[id].property == new_.property
    requires ClearFrom(st, id, new_.subject, new_.property, new_.Start(), now)
    ensures Orderly(onto, Place(onto, st, id, new_, st.entities[new_.subject], now), now)
  {
    PlaceKeepsTimeline(onto, st, id, new_, now);
    PlaceFrame(onto, st, id, new_, st.entities[new_.subject], now);
    var st' := Place(onto, st, id, new_, st.entities[new_.subject], now);
    var closed := Displaced(onto, st, id, new_, st.entities[new_.subject], now);
    hide Place, Displaced, TimelineSafe, Forest;
    PlacedSettled(st.statements, st'.statements, closed, id, new_, now);
  }

  ghost predicate StartedBy(ss: Statements, now: Time) {
    forall i :: i in ss && ss[i].status == Confirmed ==> ss[i].Start() <= now
  }

  lemma PlacedSettled(ss: Statements, ss': Statements, closed: set<Id>, id: Id, new_: Statement, now: Time)
    requires Settled(ss, now) && StartedBy(ss, now) && closed <= ss.Keys && id !in closed
    requires new_.status == Confirmed && new_.retractedAt.None? && new_.recordedAt <= now && new_.Start() <= now
    requires ss'.Keys == ss.Keys + {id} && ss'[id] == PlacedAs(ss, closed, new_)
    requires forall i :: i in closed ==> ss'[i] == ss[i].(validTo := Some(new_.Start()))
    requires forall i :: i in ss && i != id && i !in closed ==> ss'[i] == ss[i]
    ensures Settled(ss', now) && StartedBy(ss', now)
  {
    assert ss'[id].Start() == new_.Start() && ss'[id].status == Confirmed
           && ss'[id].retractedAt.None? && ss'[id].recordedAt == new_.recordedAt;
    hide PlacedAs;
    forall i | i in ss' && i != id ensures ss'[i].status == ss[i].status && ss'[i].Start() == ss[i].Start()
                                           && ss'[i].recordedAt == ss[i].recordedAt && ss'[i].retractedAt == ss[i].retractedAt {
      if i in closed {} else {}
    }
  }

  /** A step that leaves pointers and classes, and neither adds nor lengthens confirmed values. */
  lemma ShrinkStep(onto: Ontology, st: State, st': State, now: Time)
    requires Orderly(onto, st, now) && st'.entities.Keys == st.entities.Keys
    requires forall e :: e in st.entities ==>
      st'.entities[e].mergedInto == st.entities[e].mergedInto && st'.entities[e].class_ == st.entities[e].class_
    requires Settled(st'.statements, now)
    requires forall i :: i in st'.statements && st'.statements[i].status == Confirmed ==>
      Shrinks(st.statements, st'.statements, i) && st'.statements[i].Start() == st.statements[i].Start()
    ensures Orderly(onto, st', now)
  {
    FewerPointersKeepForest(st.entities, st'.entities);
    forall e ensures Canon(st'.entities, e) == Canon(st.entities, e) {
      SamePointersSameCanon(st.entities, st'.entities, e);
    }
    hide Canon, Forest;
    assert TimelineSafe(onto, st') by {
      forall i, j | Slot(onto, st', i, j) && i != j
                    && st'.statements[i].status == Confirmed && st'.statements[j].status == Confirmed
        ensures Apart(st'.statements[i], st'.statements[j])
      {
        assert Shrinks(st.statements, st'.statements, i) && Shrinks(st.statements, st'.statements, j);
        assert Slot(onto, st, i, j);
      }
    }
  }

  lemma ConfirmKeepsOrder(onto: Ontology, st: State, id: Id, now: Time)
    requires Orderly(onto, st, now) && ConfirmsClear(st, id, now)
    ensures Orderly(onto, Confirm(onto, st, id, now).state, now)
  {
    if id in st.statements && st.statements[id].status == Proposed {
      var s := st.statements[id];
      if Lookup(st.entities, s.subject).Ok? { PlaceStep(onto, st, id, s.(status := Confirmed), now); }
      hide Place, Orderly, ClearFrom;
    }
  }

  lemma ReinforceKeepsOrder(onto: Ontology, st: State, i: Id, now: Time)
    requires Orderly(onto, st, now) && i in st.statements
    ensures var st' := st.(statements := st.statements[i := Reinforce(st.statements[i], now)]);
            Orderly(onto, st', now) && (ConfirmsClear(st, i, now) ==> ConfirmsClear(st', i, now))
  {
    var st' := st.(statements := st.statements[i := Reinforce(st.statements[i], now)]);
    forall j | j in st.statements
      ensures Shrinks(st.statements, st'.statements, j) && st'.statements[j].Start() == st.statements[j].Start()
      ensures st'.statements[j].ValidAt(now) == st.statements[j].ValidAt(now) && st'.statements[j].validTo == st.statements[j].validTo {}
    hide Group;
    assert ConfirmsClear(st, i, now) ==> ConfirmsClear(st', i, now);
    hide ConfirmsClear;
    ShrinkStep(onto, st, st', now);
  }

  lemma AssertKeepsOrder(onto: Ontology, st: State, id: Id, c: Claim, status: Status, validFrom: Option<Time>, now: Time)
    requires Orderly(onto, st, now) && id !in st.statements && Allowed(onto, st, AssertOp(id, c, status, validFrom), now)
    ensures Orderly(onto, Assert(onto, st, id, c, status, validFrom, now).state, now)
  {
    var found := Found(st, c, now);
    var new_ := NewStatement(c, status, validFrom, now);
    if status == Retracted || Lookup(st.entities, c.subject).Refused?
       || ClaimProblem(onto, st.entities, st.entities[c.subject], c).Some? {
    } else if found.Some? {
      var i := found.value;
      FoundMeans(st, c, now);
      var st' := st.(statements := st.statements[i := Reinforce(st.statements[i], now)]);
      ReinforceKeepsOrder(onto, st, i, now);
      if status == Confirmed { ConfirmKeepsOrder(onto, st', i, now); }
      hide Orderly, Confirm;
    } else if status == Confirmed {
      if validFrom.None? { NowIsClear(onto, st, id, c.subject, c.property, now); }
      PlaceStep(onto, st, id, new_, now);
      hide Orderly, Place;
    } else {
      hide Alike, Place, Confirm;
      ShrinkStep(onto, st, st.(statements := st.statements[id := new_]), now);
    }
  }

  lemma RetractKeepsOrder(onto: Ontology, st: State, id: Id, reason: Option<string>, now: Time)
    requires Orderly(onto, st, now) && id in st.statements && st.statements[id].status != Retracted
    requires ReopensSafely(onto, st, id)
    ensures Orderly(onto, Retract(st, id, reason, now).state, now)
  {
    RetractKeepsTimelineIff(onto, st, id, reason, now);
    RetractFrame(st, id, reason, now);
    hide Retract, TimelineSafe, Forest, ReopensSafely;
  }

  lemma RemoveKeepsOrder(onto: Ontology, st: State, e: Id, why: string, now: Time)
    requires Orderly(onto, st, now)
    ensures Orderly(onto, Remove(st, e, why, now).state, now)
  {
    hide Oldest, Memo, Group, TimelineSafe, Forest;
    if Remove(st, e, why, now).result.Ok? { ShrinkStep(onto, st, Remove(st, e, why, now).state, now); }
  }

  /** What has no part in the merges of the statements' subjects may come or go. */
  lemma BesideKeepsOrder(onto: Ontology, st: State, st': State, e: Id, now: Time)
    requires Orderly(onto, st, now) && Placed(st) && Forest(st'.entities)
    requires forall x :: x in st.entities && x != e ==>
      x in st'.entities && st'.entities[x].mergedInto == st.entities[x].mergedInto
      && st'.entities[x].class_ == st.entities[x].class_
    requires forall i :: i in st'.statements ==>
      i in st.statements && st'.statements[i] == st.statements[i] && !Under(st.entities, st.statements[i].subject, e)
    ensures Orderly(onto, st', now)
  {
    hide Forest, Canon, Under, Ontology.SingleValued;
    forall i, j | Slot(onto, st', i, j)
      ensures Slot(onto, st, i, j)
    {
      SameCanonBeside(st.entities, st'.entities, e, st.statements[i].subject);
      SameCanonBeside(st.entities, st'.entities, e, st.statements[j].subject);
      var r := Canon(st.entities, st.statements[i].subject);
      SameLimits(onto, st.entities[r], st'.entities[r], st.statements[i].property);
    }
    hide Slot;
    ShrunkApart(onto, st, st');
  }

  lemma AddKeepsOrder(onto: Ontology, st: State, e: Id, class_: string, title: string, aliases: seq<string>, now: Time)
    requires Orderly(onto, st, now) && Placed(st) && e !in st.entities
    ensures Orderly(onto, WithEntity(st, e, class_, title, aliases, now), now)
  {
    hide TimelineSafe, FreshNames;
    var st' := WithEntity(st, e, class_, title, aliases, now);
    FewerPointersKeepForest(st.entities, st'.entities);
    forall x | x in st.entities
      ensures !Under(st.entities, x, e)
    {
      NothingUnderTheUnknown(st.entities, x, e);
    }
    hide Forest, Under, Settled, StartedBy;
    BesideKeepsOrder(onto, st, st', e, now);
  }

  lemma NothingUnderTheUnknown(es: Entities, x: Id, e: Id)
    requires Forest(es) && x in es && e !in es
    ensures !Under(es, x, e)
  {
    if Under(es, x, e) {
      var n: nat :| Climbs(es, x, e, n);
      ClimbsRaiseRank(es, RankOf(es), x, e, n);
    }
  }

  lemma DeleteKeepsOrder(onto: Ontology, st: State, e: Id, now: Time)
    requires Orderly(onto, st, now) && Placed(st)
    ensures Orderly(onto, Delete(st, e, now).state, now)
  {
    hide TimelineSafe, Live;
    if Delete(st, e, now).result.Ok? {
      DeletionKeepsForest(st.entities, e);
      DeletedBeside(st, e, now);
      hide Delete, Forest, Under, Settled, StartedBy;
      BesideKeepsOrder(onto, st, Delete(st, e, now).state, e, now);
    }
  }

  lemma DeletedBeside(st: State, e: Id, now: Time)
    requires Delete(st, e, now).result.Ok?
    ensures var st' := Delete(st, e, now).state;
      && st'.entities == st.entities - {e}
      && forall i :: i in st'.statements ==>
           i in st.statements && st'.statements[i] == st.statements[i] && !Under(st.entities, st.statements[i].subject, e)
  {
    hide Live;
    assert e in Group(st.entities, e);
    forall i | i in Delete(st, e, now).state.statements
      ensures !Under(st.entities, st.statements[i].subject, e)
    {
      assert i !in About(st, e);
      OnlyGroupsAreUnder(st.entities, st.statements[i].subject, e);
    }
  }

  lemma OnlyGroupsAreUnder(es: Entities, x: Id, e: Id)
    ensures Under(es, x, e) ==> x in Group(es, e)
  {
    if Under(es, x, e) && x !in es {
      var n: nat :| Climbs(es, x, e, n);
    }
  }

  lemma MergingKeepsOrder(onto: Ontology, st: State, keep: Id, fold: Id, evidence: seq<string>, newId: Id, now: Time)
    requires Orderly(onto, st, now) && Placed(st)
    requires MergeRefusal(onto, st, keep, fold).None? ==> FoldsApart(onto, st, keep, fold)
    ensures Orderly(onto, Merge(onto, st, keep, fold, evidence, newId, now).state, now)
  {
    hide Forest, TimelineSafe, Settled, StartedBy, MergeRefusal, FoldsApart, DecisionBetween, FreshNames;
    if MergeRefusal(onto, st, keep, fold).None? {
      MergeFolds(onto, st, keep, fold, evidence, newId, now);
      MergeKeepsTimelineIff(onto, st, keep, fold, evidence, newId, now);
      MergeKeepsForest(st.entities, Merge(onto, st, keep, fold, evidence, newId, now).state.entities, keep, fold);
    }
  }

  lemma UnmergingKeepsOrder(onto: Ontology, st: State, d: Id, now: Time)
    requires Orderly(onto, st, now) && Placed(st)
    requires Unmerge(st, d, now).result.Ok? ==> LoserApart(onto, st, st.decisions[d].b)
    ensures Orderly(onto, Unmerge(st, d, now).state, now)
  {
    hide Forest, TimelineSafe, Settled, StartedBy, LoserApart, Without;
    if Unmerge(st, d, now).result.Ok? {
      UnmergeUnfolds(st, d, now);
      UnmergeKeepsTimelineIff(onto, st, d, now);
      FewerPointersKeepForest(st.entities, Unmerge(st, d, now).state.entities);
    }
  }

  /** A record as it was, but for its end; or one that comes back, none the later. */
  predicate StaysOrReturns(s: Statement, s': Statement, now: Time) {
    && s'.recordedAt == s.recordedAt && s'.Start() == s.Start()
    && (|| (s'.status == s.status && s'.retractedAt == s.retractedAt)
        || (s'.status != Retracted && s'.retractedAt.None? && (s'.status == Confirmed ==> s.Start() <= now)))
  }

  lemma ReturnsAreSettled(ss: Statements, ss': Statements, now: Time)
    requires Settled(ss, now) && StartedBy(ss, now) && ss'.Keys == ss.Keys
    requires forall i :: i in ss ==> StaysOrReturns(ss[i], ss'[i], now)
    ensures Settled(ss', now) && StartedBy(ss', now)
  {
  }

  lemma ReinstateGives(onto: Ontology, st: State, id: Id, status: Status, reason: Option<string>, now: Time)
    requires Reinstate(onto, st, id, status, reason, now).result.Ok?
    ensures id in st.statements && st.statements[id].status == Retracted && status != Retracted
    ensures var back := st.statements[id].(status := status, retractedAt := None, reason := reason);
      Reinstate(onto, st, id, status, reason, now).state == BackIn(onto, st, id, back, now)
      && (status == Proposed ==> BackIn(onto, st, id, back, now) == st.(statements := st.statements[id := back]))
  {
    hide Newer, ClosedByNewer, Reclosed;
  }

  lemma ReinstateKeepsOrder(onto: Ontology, st: State, id: Id, status: Status, reason: Option<string>, now: Time)
    requires Orderly(onto, st, now) && Reinstate(onto, st, id, status, reason, now).result.Ok?
    requires ReinstatesClear(onto, st, id, st.statements[id].(status := status, retractedAt := None, reason := reason), now)
    ensures Orderly(onto, Reinstate(onto, st, id, status, reason, now).state, now)
  {
    ReinstateGives(onto, st, id, status, reason, now);
    hide Reinstate, BackIn, Orderly, ReinstatesClear;
    var back := st.statements[id].(status := status, retractedAt := None, reason := reason);
    if status == Confirmed {
      ConfirmedBack(onto, st, id, back, now);
    } else {
      ProposedBack(onto, st, BackIn(onto, st, id, back, now), id, back, now);
    }
  }

  lemma ConfirmedBack(onto: Ontology, st: State, id: Id, back: Statement, now: Time)
    requires Orderly(onto, st, now) && id in st.statements && st.statements[id].status == Retracted
    requires back.status == Confirmed && back == st.statements[id].(status := Confirmed, retractedAt := None, reason := back.reason)
    requires ReinstatesClear(onto, st, id, back, now)
    ensures Orderly(onto, BackIn(onto, st, id, back, now), now)
  {
    hide TimelineSafe, Forest, Settled, StartedBy, ReturnsSafely, Newer, ClosedByNewer, BackIn, ClosedByReturn;
    var st' := BackIn(onto, st, id, back, now);
    BackInFrame(onto, st, id, back, now);
    ClosersWereOpen(st.statements, back);
    PutBackKeepsTimelineIff(onto, st, id, back, now);
    assert st'.statements[id] == AsWritten(onto, st, id, back, now);
    hide AsWritten;
    ReturnsAreSettled(st.statements, st'.statements, now);
  }

  /** What comes back as a proposal competes with nothing. */
  lemma ProposedBack(onto: Ontology, st: State, st': State, id: Id, back: Statement, now: Time)
    requires Orderly(onto, st, now) && id in st.statements && st' == st.(statements := st.statements[id := back])
    requires back.status == Proposed && back.retractedAt.None? && back.recordedAt == st.statements[id].recordedAt
    ensures Orderly(onto, st', now)
  {
    hide TimelineSafe, Forest, Settled, StartedBy;
    assert Settled(st'.statements, now) by {
      ProposedIsSettled(st.statements, id, back, now);
    }
    ShrinkStep(onto, st, st', now);
  }

  lemma ProposedIsSettled(ss: Statements, id: Id, back: Statement, now: Time)
    requires Settled(ss, now) && id in ss && back.status == Proposed && back.retractedAt.None?
    requires back.recordedAt == ss[id].recordedAt
    ensures Settled(ss[id := back], now)
  {
  }

  lemma RestoreKeepsOrder(onto: Ontology, st: State, e: Id, now: Time)
    requires Orderly(onto, st, now) && e in st.entities && st.entities[e].removedAt.Some? && RestoresClear(onto, st, e, now)
    ensures Orderly(onto, Restore(onto, st, e, now).state, now)
  {
    hide TimelineSafe, Forest, Settled, StartedBy, ReturnInTurn, ReturnBeside, Restore, Left, Returned, Slot, Pending;
    var st', notes := Restore(onto, st, e, now).state, Pending(st, e);
    RestoreGives(onto, st, e, now);
    RestoreKeepsTimelineIff(onto, st, e, now);
    RestoreWrites(onto, st, e, now);
    FewerPointersKeepForest(st.entities, st'.entities);
    forall i | i in st.statements
      ensures StaysOrReturns(st.statements[i], st'.statements[i], now)
    {
      if Noted(notes, i) {
        var k :| 0 <= k < |notes| && notes[k].0 == i;
      } else {
        LeftAsItWas(st.statements, notes, i, now);
      }
    }
    ReturnsAreSettled(st.statements, st'.statements, now);
  }

  lemma LeftAsItWas(ss: Statements, notes: seq<Note>, i: Id, now: Time)
    requires i in ss && forall n :: n in notes ==> n.0 in ss
    ensures StaysOrReturns(ss[i], Left(ss, notes, i), now)
  {
    hide EndedAt;
  }

  lemma StepKeepsOrder(onto: Ontology, st: State, op: Op, now: Time)
    requires Orderly(onto, st, now) && Placed(st) && Allowed(onto, st, op, now)
    ensures Orderly(onto, Step(onto, st, op, now), now)
  {
    hide Orderly, Assert, Confirm, Unconfirm, End, Purge, Remove, ReopensSafely, ConfirmsClear, ClearFrom, Found,
      DecisionBetween, WithEntity, AddRefusal, Label, Delete, Merge, MergeRefusal, Unmerge, FoldsApart, LoserApart, Placed, Reinstate,
      Restore, ReinstatesClear, RestoresClear;
    if FreshIds(st, op) {
      match op
      case AssertOp(id, c, s, vf) =>
        AssertKeepsOrder(onto, st, id, c, s, vf, now);
      case ConfirmOp(id) =>
        ConfirmKeepsOrder(onto, st, id, now);
      case RetractOp(id, why) =>
        if id in st.statements && st.statements[id].status != Retracted { RetractKeepsOrder(onto, st, id, why, now); }
      case RemoveOp(e, why) =>
        RemoveKeepsOrder(onto, st, e, why, now);
      case AddOp(e, c, n, al) =>
        if AddRefusal(onto, c, n).None? { AddKeepsOrder(onto, st, e, c, Label(n), al, now); }
      case DeleteOp(e) => DeleteKeepsOrder(onto, st, e, now);
      case MergeOp(k, f, ev, d) => MergingKeepsOrder(onto, st, k, f, ev, d, now);
      case ReinstateOp(id, s, why) =>
        if Reinstate(onto, st, id, s, why, now).result.Ok? {
          ReinstateKeepsOrder(onto, st, id, s, why, now);
        } else {
          RefusedReinstate(onto, st, id, s, why, now);
        }
      case RestoreOp(e) =>
        if e in st.entities && st.entities[e].removedAt.Some? {
          RestoreKeepsOrder(onto, st, e, now);
        } else {
          NothingToRestore(onto, st, e, now);
        }
      case UnmergeOp(d) => UnmergingKeepsOrder(onto, st, d, now);
      case UnconfirmOp(id) => UnconfirmKeepsOrder(onto, st, id, now);
      case EndOp(id, at) => EndKeepsOrder(onto, st, id, at, now);
      case PurgeOp(ids) => PurgeKeepsOrder(onto, st, ids, now);
      case DistinctOp(a, b, d) => DecidingKeepsOrder(onto, st, MarkDistinct(st, a, b, d, now).state, now);
      case NoteOp(a, b, ep, d) => DecidingKeepsOrder(onto, st, NoteCandidate(st, a, b, ep, d, now).0, now);
    }
  }

  lemma RefusedReinstate(onto: Ontology, st: State, id: Id, status: Status, reason: Option<string>, now: Time)
    requires Reinstate(onto, st, id, status, reason, now).result.Refused?
    ensures Reinstate(onto, st, id, status, reason, now).state == st
  {
    hide PutBack;
  }

  lemma NothingToRestore(onto: Ontology, st: State, e: Id, now: Time)
    requires !(e in st.entities && st.entities[e].removedAt.Some?)
    ensures Restore(onto, st, e, now).state == st
  {
    hide PutBackAll;
  }

  lemma UnconfirmKeepsOrder(onto: Ontology, st: State, id: Id, now: Time)
    requires Orderly(onto, st, now)
    ensures Orderly(onto, Unconfirm(st, id).state, now)
  {
    hide TimelineSafe, Forest;
    if id in st.statements && st.statements[id].status == Confirmed { ShrinkStep(onto, st, Unconfirm(st, id).state, now); }
  }

  lemma EndKeepsOrder(onto: Ontology, st: State, id: Id, at: Option<Time>, now: Time)
    requires Orderly(onto, st, now)
    ensures Orderly(onto, End(st, id, at, now).state, now)
  {
    hide TimelineSafe, Forest;
    if End(st, id, at, now).result.Ok? { ShrinkStep(onto, st, End(st, id, at, now).state, now); }
  }

  lemma PurgeKeepsOrder(onto: Ontology, st: State, ids: set<Id>, now: Time)
    requires Orderly(onto, st, now)
    ensures Orderly(onto, Purge(st, ids, now).state, now)
  {
    hide TimelineSafe, Forest;
    if Purge(st, ids, now).result.Ok? { ShrinkStep(onto, st, Purge(st, ids, now).state, now); }
  }

  lemma DecidingKeepsOrder(onto: Ontology, st: State, st': State, now: Time)
    requires Orderly(onto, st, now) && st'.entities == st.entities && st'.statements == st.statements
    ensures Orderly(onto, st', now)
  {
    hide Canon;
    forall i, j | Slot(onto, st', i, j) ensures Slot(onto, st, i, j) {}
  }

  // ---------------------------------------------------------------- every run

  /** Each step is allowed where it is taken, and the clock never goes back. */
  ghost predicate AllAllowed(onto: Ontology, st: State, ops: seq<(Op, Time)>, since: Time)
    decreases |ops|
  {
    ops == []
    || (since <= ops[0].1 && Allowed(onto, st, ops[0].0, ops[0].1)
        && AllAllowed(onto, Step(onto, st, ops[0].0, ops[0].1), ops[1..], ops[0].1))
  }

  lemma StepKeepsBoth(onto: Ontology, st: State, op: Op, now: Time)
    requires Orderly(onto, st, now) && Identity(st) && Allowed(onto, st, op, now)
    ensures Orderly(onto, Step(onto, st, op, now), now) && Identity(Step(onto, st, op, now))
  {
    hide Step, Orderly, Allowed, Forest, SameIsMerged, AddedApart, OnePerPair, MergedStay, StandingIsClean, OwnNames;
    StepKeepsIdentity(onto, st, op, now);
    StepKeepsOrder(onto, st, op, now);
  }

  /** At every instant of every timeline, at most one confirmed value: through any such run. */
  lemma {:induction false} RunKeepsTimelines(onto: Ontology, st: State, ops: seq<(Op, Time)>, since: Time)
    requires Orderly(onto, st, since) && Identity(st) && AllAllowed(onto, st, ops, since)
    ensures TimelineSafe(onto, Run(onto, st, ops))
    decreases |ops|
  {
    if ops != [] {
      var (op, now) := ops[0];
      LaterIsOrderly(onto, st, since, now);
      StepKeepsBoth(onto, st, op, now);
      hide Orderly, Step, Allowed, Identity;
      RunKeepsTimelines(onto, Step(onto, st, op, now), ops[1..], now);
    }
  }

  // ---------------------------------------------------------------- what a retraction undoes

  /** Every record there was before is as it was. */
  ghost predicate AsBefore(ss: Statements, ss': Statements) {
    forall i :: i in ss ==> i in ss' && ss'[i] == ss[i]
  }

  /** Retracting what was just asserted gives every other record back exactly when the assertion
      displaced nothing, or one value with no end of its own. A value that was to end later comes
      back without its end. */
  lemma RetractUndoesAssertIff(onto: Ontology, st: State, id: Id, c: Claim, validFrom: Option<Time>, now: Time,
                               reason: Option<string>, later: Time)
    requires Settled(st.statements, now) && id !in st.statements && Found(st, c, now).None?
    requires validFrom.Some? ==> validFrom.value <= now
    requires Assert(onto, st, id, c, Confirmed, validFrom, now).result.Ok?
    ensures var new_ := NewStatement(c, Confirmed, validFrom, now);
            var closed := Displaced(onto, st, id, new_, st.entities[c.subject], now);
            var st' := Assert(onto, st, id, c, Confirmed, validFrom, now).state;
            AsBefore(st.statements, Retract(st', id, reason, later).state.statements)
            <==> closed == {} || exists p :: closed == {p} && st.statements[p].validTo.None?
  {
    var new_ := NewStatement(c, Confirmed, validFrom, now);
    hide Assert, Place, Displaced, Settled, Retract, Found, Reopens;
    AssertPlaces(onto, st, id, c, validFrom, now);
    var subject := st.entities[c.subject];
    var closed := Displaced(onto, st, id, new_, subject, now);
    var st' := Place(onto, st, id, new_, subject, now);
    PlaceFrame(onto, st, id, new_, subject, now);
    DisplacedWasCurrent(onto, st, id, new_, subject, now);
    RetractAfterPlacing(st.statements, st', closed, id, new_, now, reason, later);
  }

  lemma RetractAfterPlacing(ss: Statements, st': State, closed: set<Id>, id: Id, new_: Statement, now: Time,
                            reason: Option<string>, later: Time)
    requires closed <= ss.Keys && id !in ss && new_.status == Confirmed && new_.supersedes.None? && new_.Start() <= now
    requires st'.statements.Keys == ss.Keys + {id} && st'.statements[id] == PlacedAs(ss, closed, new_)
    requires forall i :: i in closed ==> ss[i].status == Confirmed && ss[i].ValidAt(now)
                                         && st'.statements[i] == ss[i].(validTo := Some(new_.Start()))
    requires forall i :: i in ss && i !in closed ==> st'.statements[i] == ss[i]
    ensures AsBefore(ss, Retract(st', id, reason, later).state.statements)
            <==> closed == {} || exists p :: closed == {p} && ss[p].validTo.None?
  {
    RetractFrame(st', id, reason, later);
    var ss' := Retract(st', id, reason, later).state.statements;
    hide Retract;
    if closed != {} {
      var p := Last(ss, closed);
      assert ss'[p] == ss[p].(validTo := None);
      if q :| q in closed && q != p {
        assert ss'[q].validTo == Some(new_.Start()) && ss[q].validTo != Some(new_.Start());
      } else {
        assert closed == {p};
        if ss[p].validTo.None? { assert ss'[p] == ss[p]; }
      }
    }
  }

  lemma DisplacedWasCurrent(onto: Ontology, st: State, id: Id, new_: Statement, subject: Entity, now: Time)
    requires Settled(st.statements, now)
    ensures forall i :: i in Displaced(onto, st, id, new_, subject, now) ==>
      st.statements[i].status == Confirmed && st.statements[i].ValidAt(now)
  {
  }

  lemma NotApart(a: Statement, b: Statement, t: Time)
    requires a.ValidAt(t) && b.ValidAt(t)
    ensures !Apart(a, b)
  {
  }

  /** In an orderly state where no end lies ahead, that is always so. */
  lemma OneOpenValueDisplaced(onto: Ontology, st: State, id: Id, c: Claim, validFrom: Option<Time>, now: Time)
    requires Orderly(onto, st, now) && Root(st.entities, c.subject) && id !in st.statements
    requires forall i :: i in st.statements && st.statements[i].validTo.Some? ==> st.statements[i].validTo.value <= now
    ensures var closed := Displaced(onto, st, id, NewStatement(c, Confirmed, validFrom, now), st.entities[c.subject], now);
            closed == {} || exists p :: closed == {p} && st.statements[p].validTo.None?
  {
    var new_ := NewStatement(c, Confirmed, validFrom, now);
    var closed := Displaced(onto, st, id, new_, st.entities[c.subject], now);
    DisplacedWasCurrent(onto, st, id, new_, st.entities[c.subject], now);
    if closed != {} {
      var p :| p in closed;
      forall q | q in closed ensures q == p {
        CanonIsTheRoot(st.entities, c.subject);
        MembersAreThoseItStandsFor(st.entities, c.subject, st.statements[p].subject);
        MembersAreThoseItStandsFor(st.entities, c.subject, st.statements[q].subject);
        NotApart(st.statements[p], st.statements[q], now);
        assert Slot(onto, st, p, q);
      }
      assert closed == {p};
    }
  }

  // ---------------------------------------------------------------- a stack

  datatype Tell = Tell(id: Id, claim: Claim, validFrom: Option<Time>, at: Time, unsaidAt: Time)

  /** Assert them all in order, then retract them all, the last one first. */
  ghost function SaidAndUnsaid(onto: Ontology, st: State, tells: seq<Tell>): State
    decreases |tells|
  {
    if tells == [] then st
    else
      var t := tells[0];
      var said := Assert(onto, st, t.id, t.claim, Confirmed, t.validFrom, t.at).state;
      Retract(SaidAndUnsaid(onto, said, tells[1..]), t.id, None, t.unsaidAt).state
  }

  /** Each is new where it is said, and displaces at most one value, open. */
  ghost predicate EachFits(onto: Ontology, st: State, tells: seq<Tell>)
    decreases |tells|
  {
    tells == [] ||
    var t := tells[0];
    && Settled(st.statements, t.at) && t.id !in st.statements && Found(st, t.claim, t.at).None?
    && (t.validFrom.Some? ==> t.validFrom.value <= t.at)
    && var out := Assert(onto, st, t.id, t.claim, Confirmed, t.validFrom, t.at);
       out.result.Ok?
       && (var closed := Displaced(onto, st, t.id, NewStatement(t.claim, Confirmed, t.validFrom, t.at),
                                   st.entities[t.claim.subject], t.at);
           closed == {} || exists p :: closed == {p} && st.statements[p].validTo.None?)
       && EachFits(onto, out.state, tells[1..])
  }

  lemma {:induction false} SayingAndUnsayingIsNothing(onto: Ontology, st: State, tells: seq<Tell>)
    requires EachFits(onto, st, tells)
    ensures AsBefore(st.statements, SaidAndUnsaid(onto, st, tells).statements)
    decreases |tells|
  {
    if tells != [] {
      var t := tells[0];
      var said := Assert(onto, st, t.id, t.claim, Confirmed, t.validFrom, t.at).state;
      var inner := SaidAndUnsaid(onto, said, tells[1..]);
      SayingAndUnsayingIsNothing(onto, said, tells[1..]);
      RetractUndoesAssertIff(onto, st, t.id, t.claim, t.validFrom, t.at, None, t.unsaidAt);
      AssertedIsThere(onto, st, t);
      RetractAgrees(said, inner, t.id, None, t.unsaidAt);
      hide Assert, Retract, Displaced;
    }
  }

  lemma AssertedIsThere(onto: Ontology, st: State, t: Tell)
    requires t.id !in st.statements && Found(st, t.claim, t.at).None?
    requires Assert(onto, st, t.id, t.claim, Confirmed, t.validFrom, t.at).result.Ok?
    ensures var said := Assert(onto, st, t.id, t.claim, Confirmed, t.validFrom, t.at).state;
            t.id in said.statements && said.statements[t.id].status == Confirmed
            && st.statements.Keys <= said.statements.Keys
            && (said.statements[t.id].supersedes.Some? ==> said.statements[t.id].supersedes.value in st.statements)
  {
    var new_ := NewStatement(t.claim, Confirmed, t.validFrom, t.at);
    PlaceFrame(onto, st, t.id, new_, st.entities[t.claim.subject], t.at);
    hide Place, Displaced;
  }

  /** A retraction looks at nothing beyond its own record and the one that it superseded. */
  lemma RetractAgrees(st: State, more: State, id: Id, reason: Option<string>, now: Time)
    requires AsBefore(st.statements, more.statements)
    requires id in st.statements && st.statements[id].status == Confirmed
    requires st.statements[id].supersedes.Some? ==> st.statements[id].supersedes.value in st.statements
    ensures forall i :: i in st.statements && i != id ==>
      i in Retract(more, id, reason, now).state.statements
      && Retract(more, id, reason, now).state.statements[i] == Retract(st, id, reason, now).state.statements[i]
  {
    RetractFrame(st, id, reason, now);
    RetractFrame(more, id, reason, now);
    hide Retract;
  }
}
