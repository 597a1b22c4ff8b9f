/** What a read returns, said of the fields of the records, and what each write does to it: on both time axes. */
module ReadLaws {
  import opened Records
  import opened MergeForest
  import opened GraphSpec
  import opened Neighbourhood
  import opened Runs
  import opened TimelineLaws
  import opened RemovalLaws

  // ---------------------------------------------------------------- one record

  /** On record at one moment, and not yet withdrawn then. */
  predicate Held(s: Statement, known: Time) {
    s.recordedAt <= known && (s.retractedAt.Some? ==> known < s.retractedAt.value)
  }

  /** True at one moment: from its given start, or else since it was recorded, until its end. */
  predicate True(s: Statement, valid: Time) {
    (if s.validFrom.Some? then s.validFrom.value <= valid else s.recordedAt <= valid)
    && (s.validTo.Some? ==> valid < s.validTo.value)
  }

  /** What a read returns of it: true at one moment as far as was known at another, proposals only if asked for. */
  predicate Told(s: Statement, valid: Time, known: Time, proposed: bool) {
    Held(s, known) && True(s, valid) && (s.status == Proposed ==> proposed)
  }

  ghost predicate IsAbout(st: State, i: Id, e: Id) {
    i in st.statements && st.statements[i].subject in Group(st.entities, e)
  }

  ghost predicate IsOf(st: State, i: Id, e: Id) {
    i in st.statements && st.statements[i].target.Some? && st.statements[i].target.value in Group(st.entities, e)
  }

  /** A read returns exactly the statements that are told of then, by their subject, property and object. */
  lemma ReadIff(st: State, subject: Option<Id>, properties: Option<set<string>>, target: Option<Id>,
                valid: Time, known: Time, proposed: bool, i: Id)
    ensures i in Matching(st, subject, properties, target, valid, known, proposed)
            <==> && i in st.statements && Told(st.statements[i], valid, known, proposed)
                 && (subject.Some? ==> IsAbout(st, i, subject.value))
                 && (target.Some? ==> IsOf(st, i, target.value))
                 && (properties.Some? ==> st.statements[i].property in properties.value)
  {
    hide Group;
  }

  /** The statements of a property that are true now are those told of now. */
  lemma CurrentIff(st: State, subject: Id, property: string, now: Time, proposed: bool, i: Id)
    ensures i in Current(st, subject, property, now, proposed)
            <==> IsAbout(st, i, subject) && st.statements[i].property == property && Told(st.statements[i], now, now, proposed)
  {
    hide Group;
  }

  /** In a search two nodes are linked by a statement told of then, followed from its subject to its object, or back. */
  lemma LinkedIff(st: State, q: Query, u: Id, v: Id)
    ensures Linked(st, q, u, v)
            <==> exists i :: && i in st.statements && Told(st.statements[i], q.valid, q.known, q.proposed)
                             && (q.properties.Some? ==> st.statements[i].property in q.properties.value)
                             && st.statements[i].target.Some?
                             && var s, o := Canon(st.entities, st.statements[i].subject),
                                            Canon(st.entities, st.statements[i].target.value);
                                (q.direction != In && s == u && o == v) || (q.direction != Out && o == u && s == v)
  {
    hide Canon;
    if Linked(st, q, u, v) {
      if i :| i in st.statements && Leaves(st, q, {u}, i) && st.statements[i].target.Some?
              && Canon(st.entities, st.statements[i].target.value) == v {
        assert i in st.statements;
      } else {
        var i :| i in st.statements && Enters(st, q, {u}, i) && Canon(st.entities, st.statements[i].subject) == v;
      }
    }
    if i :| && i in st.statements && Told(st.statements[i], q.valid, q.known, q.proposed)
            && (q.properties.Some? ==> st.statements[i].property in q.properties.value)
            && st.statements[i].target.Some?
            && var s, o := Canon(st.entities, st.statements[i].subject), Canon(st.entities, st.statements[i].target.value);
               (q.direction != In && s == u && o == v) || (q.direction != Out && o == u && s == v)
    {
      assert Leaves(st, q, {u}, i) || Enters(st, q, {u}, i);
    }
  }

  /** And at a node it meets the statements told of then that name it there, on the side it looks at. */
  lemma TouchingIff(st: State, q: Query, u: Id, i: Id)
    ensures i in Touching(st, q, {u})
            <==> && i in st.statements && Told(st.statements[i], q.valid, q.known, q.proposed)
                 && (q.properties.Some? ==> st.statements[i].property in q.properties.value)
                 && (|| (q.direction != In && Canon(st.entities, st.statements[i].subject) == u)
                     || (q.direction != Out && st.statements[i].target.Some?
                         && Canon(st.entities, st.statements[i].target.value) == u))
  {
    hide Canon;
  }

  // ---------------------------------------------------------------- what an assertion puts on record

  /** The claim itself, as it was made. */
  predicate Claims(s: Statement, c: Claim) {
    s.property == c.property && s.target == c.target && s.literal == c.literal
  }

  lemma PlacedRecord(onto: Ontology, st: State, id: Id, new_: Statement, subject: Entity, now: Time)
    ensures var st' := Place(onto, st, id, new_, subject, now);
      id in st'.statements && st'.statements[id] == new_.(supersedes := st'.statements[id].supersedes)
  {
    hide Displaced, Last;
  }

  /** Whatever an accepted assertion gives back is on record as claimed: of the subject, or of a name merged into it. If it
      is new it is recorded now, of the subject itself, as given; if not it stays as it was but for being counted and,
      when so asserted, confirmed. */
  lemma AssertedIsOnRecord(onto: Ontology, st: State, id: Id, c: Claim, status: Status, validFrom: Option<Time>, now: Time)
    requires id !in st.statements && Assert(onto, st, id, c, status, validFrom, now).result.Ok?
    ensures var out := Assert(onto, st, id, c, status, validFrom, now);
            var i := out.result.value;
            && i in out.state.statements && Claims(out.state.statements[i], c)
            && var s := out.state.statements[i];
               if i !in st.statements then
                 && i == id && s.subject == c.subject && s.recordedAt == now && s.validFrom == validFrom && s.validTo.None?
                 && s.status == status && s.retractedAt.None? && s.reinforced == 1 && s.reason.None?
               else
                 && IsAbout(st, i, c.subject)
                 && s.subject == st.statements[i].subject && s.recordedAt == st.statements[i].recordedAt
                 && s.validFrom == st.statements[i].validFrom && s.validTo == st.statements[i].validTo
                 && s.retractedAt == st.statements[i].retractedAt && s.lastReinforcedAt == Some(now)
                 && s.reinforced == (if st.statements[i].reinforced < 0 then 1 else st.statements[i].reinforced + 1)
                 && s.status == (if status == Confirmed && st.statements[i].status == Proposed then Confirmed
                                 else st.statements[i].status)
  {
    hide Group, ClaimProblem, Place;
    if c.subject in st.entities {
      PlacedRecord(onto, st, id, NewStatement(c, Confirmed, validFrom, now), st.entities[c.subject], now);
    }
    if Alike(st, c, now) != {} {
      var i := First(st.statements, Alike(st, c, now));
      var s := Reinforce(st.statements[i], now).(status := Confirmed);
      if s.subject in st.entities {
        PlacedRecord(onto, st.(statements := st.statements[i := Reinforce(st.statements[i], now)]), i, s,
                     st.entities[s.subject], now);
      }
    }
  }

  /** It makes a new record exactly when nothing told of now, proposals included, makes the claim already. */
  lemma AssertsAnewIff(onto: Ontology, st: State, id: Id, c: Claim, status: Status, validFrom: Option<Time>, now: Time)
    requires id !in st.statements && Assert(onto, st, id, c, status, validFrom, now).result.Ok?
    ensures Assert(onto, st, id, c, status, validFrom, now).result.value == id
            <==> forall i :: IsAbout(st, i, c.subject) && Claims(st.statements[i], c) ==> !Told(st.statements[i], now, now, true)
  {
    hide Group, ClaimProblem, Place, NewStatement;
    forall i
      ensures i in Alike(st, c, now)
              <==> IsAbout(st, i, c.subject) && Claims(st.statements[i], c) && Told(st.statements[i], now, now, true)
    {
      CurrentIff(st, c.subject, c.property, now, true, i);
    }
    if Alike(st, c, now) != {} {
      var i := First(st.statements, Alike(st, c, now));
      assert i in Alike(st, c, now);
    }
  }

  // ---------------------------------------------------------------- what no step rewrites

  /** The same claim, recorded at the same moment and true since the same one. */
  predicate SameRecord(s: Statement, s': Statement) {
    && s'.subject == s.subject && s'.property == s.property && s'.target == s.target && s'.literal == s.literal
    && s'.recordedAt == s.recordedAt && s'.validFrom == s.validFrom
  }

  /** Withdrawn exactly when it carries the moment. */
  predicate Marked(s: Statement) {
    s.status == Retracted <==> s.retractedAt.Some?
  }

  /** What a step at a moment may do to a record: keep its moment of withdrawal, or withdraw it then. */
  predicate OnlyWithdrawn(s: Statement, s': Statement, now: Time) {
    SameRecord(s, s') && (Marked(s) ==> Marked(s'))
    && (s'.retractedAt == s.retractedAt || (s.retractedAt.None? && s'.retractedAt == Some(now)))
  }

  predicate OnlyReturned(s: Statement, s': Statement) {
    SameRecord(s, s') && (Marked(s) ==> Marked(s')) && (s'.retractedAt == s.retractedAt || s'.retractedAt.None?)
  }

  /** What a removal noted was not withdrawn. */
  ghost predicate NotesLive(es: Entities) {
    forall e, k :: e in es && 0 <= k < |es[e].removedStatements| ==> es[e].removedStatements[k].1 != Retracted
  }

  /** All records are kept, and new ones are recorded now. */
  ghost predicate WritesOn(ss: Statements, ss': Statements, now: Time) {
    && (forall i :: i in ss ==> i in ss' && OnlyWithdrawn(ss[i], ss'[i], now))
    && (forall i :: i in ss' && i !in ss ==> ss'[i].recordedAt == now && ss'[i].retractedAt.None? && Marked(ss'[i]))
  }

  ghost predicate BringsBack(ss: Statements, ss': Statements) {
    ss'.Keys == ss.Keys && forall i :: i in ss ==> OnlyReturned(ss[i], ss'[i])
  }

  ghost predicate TakesAway(ss: Statements, ss': Statements) {
    forall i :: i in ss' ==> i in ss && ss'[i] == ss[i]
  }

  predicate Forgets(op: Op) {
    op.PurgeOp? || op.DeleteOp?
  }

  predicate Returns(op: Op) {
    op.ReinstateOp? || op.RestoreOp?
  }

  lemma PlaceWritesOn(onto: Ontology, st: State, id: Id, new_: Statement, subject: Entity, now: Time)
    requires if id in st.statements then OnlyWithdrawn(st.statements[id], new_, now)
             else new_.recordedAt == now && new_.retractedAt.None? && new_.status != Retracted
    ensures WritesOn(st.statements, Place(onto, st, id, new_, subject, now).statements, now)
  {
    PlaceFrame(onto, st, id, new_, subject, now);
    hide Place, Displaced;
  }

  lemma ConfirmWritesOn(onto: Ontology, st: State, id: Id, now: Time)
    ensures WritesOn(st.statements, Confirm(onto, st, id, now).state.statements, now)
  {
    hide Place;
    if id in st.statements && st.statements[id].status == Proposed && Lookup(st.entities, st.statements[id].subject).Ok? {
      var subject := Lookup(st.entities, st.statements[id].subject).value;
      PlaceWritesOn(onto, st, id, st.statements[id].(status := Confirmed), subject, now);
    }
  }

  lemma WritesOnTwice(a: Statements, b: Statements, c: Statements, now: Time)
    requires WritesOn(a, b, now) && WritesOn(b, c, now) && b.Keys == a.Keys
    ensures WritesOn(a, c, now)
  {
  }

  lemma AssertWritesOn(onto: Ontology, st: State, id: Id, c: Claim, status: Status, validFrom: Option<Time>, now: Time)
    requires id !in st.statements
    ensures WritesOn(st.statements, Assert(onto, st, id, c, status, validFrom, now).state.statements, now)
  {
    hide ClaimProblem, Place, Confirm, Group, Visible;
    var subject := Lookup(st.entities, c.subject);
    if status != Retracted && subject.Ok? && ClaimProblem(onto, st.entities, subject.value, c).None? {
      if Alike(st, c, now) != {} {
        var i := First(st.statements, Alike(st, c, now));
        var st' := st.(statements := st.statements[i := Reinforce(st.statements[i], now)]);
        ConfirmWritesOn(onto, st', i, now);
        WritesOnTwice(st.statements, st'.statements, Confirm(onto, st', i, now).state.statements, now);
      } else {
        PlaceWritesOn(onto, st, id, NewStatement(c, status, validFrom, now), subject.value, now);
      }
    }
  }

  lemma RetractWritesOn(st: State, id: Id, reason: Option<string>, now: Time)
    requires Settled(st.statements, now)
    ensures WritesOn(st.statements, Retract(st, id, reason, now).state.statements, now)
  {
    if id in st.statements && st.statements[id].status != Retracted {
      RetractFrame(st, id, reason, now);
      hide Retract;
    }
  }

  lemma RemoveWritesOn(st: State, e: Id, why: string, now: Time)
    requires Settled(st.statements, now)
    ensures WritesOn(st.statements, Remove(st, e, why, now).state.statements, now)
  {
    hide Oldest, Memo, Group;
    if Remove(st, e, why, now).result.Ok? { RemoveFrame(st, e, why, now); }
  }

  /** A step keeps every record, with its claim and its moments, withdraws it now or leaves it, and records anew only now;
      only purging and deleting lose records, and only reinstating and restoring take a withdrawal back. */
  lemma StepWrites(onto: Ontology, st: State, op: Op, now: Time)
    requires Settled(st.statements, now) && NotesLive(st.entities)
    ensures var ss, ss' := st.statements, Step(onto, st, op, now).statements;
      if Forgets(op) then TakesAway(ss, ss') else if Returns(op) then BringsBack(ss, ss') else WritesOn(ss, ss', now)
  {
    hide Assert, Confirm, Retract, Reinstate, Remove, Restore, Merge, MarkDistinct, NoteCandidate, AddEntity;
    if FreshIds(st, op) {
      match op
      case AssertOp(id, c, s, vf) => AssertWritesOn(onto, st, id, c, s, vf, now);
      case ConfirmOp(id) => ConfirmWritesOn(onto, st, id, now);
      case RetractOp(id, why) => RetractWritesOn(st, id, why, now);
      case RemoveOp(e, why) => RemoveWritesOn(st, e, why, now);
      case ReinstateOp(id, s, why) => ReinstateBringsBack(onto, st, id, s, why, now);
      case RestoreOp(e) => RestoreBringsBack(onto, st, e, now);
      case AddOp(e, c, n, al) => OnlyEntities(onto, st, op, now);
      case MergeOp(k, f, ev, d) => OnlyEntities(onto, st, op, now);
      case DistinctOp(a, b, d) => OnlyEntities(onto, st, op, now);
      case NoteOp(a, b, ep, d) => OnlyEntities(onto, st, op, now);
      case _ =>
    }
  }

  lemma OnlyEntities(onto: Ontology, st: State, op: Op, now: Time)
    requires op.AddOp? || op.MergeOp? || op.DistinctOp? || op.NoteOp?
    ensures Step(onto, st, op, now).statements == st.statements
  {
    hide DecisionBetween, FreshNames, MergeRefusal, AddRefusal;
  }

  lemma ClosedOnlyReturned(ss: Statements, newer: set<Id>, s: Statement, back: Statement)
    requires newer <= ss.Keys && OnlyReturned(s, back)
    ensures OnlyReturned(s, ClosedByNewer(ss, newer, back))
  {
    hide EarliestStart;
  }

  lemma PutBackBringsBack(onto: Ontology, st: State, id: Id, back: Statement, now: Time)
    requires id in st.statements && st.statements[id].status == Retracted && OnlyReturned(st.statements[id], back)
    ensures forall i :: i in PutBack(onto, st, id, back, now) ==>
      i in st.statements && OnlyReturned(st.statements[i], PutBack(onto, st, id, back, now)[i])
  {
    hide Newer, PutBack, ClosedByNewer;
    PutBackShape(onto, st, id, back, now);
    ClosedOnlyReturned(st.statements, Newer(onto, st, id, back, now), st.statements[id], back);
  }

  lemma ReinstateBringsBack(onto: Ontology, st: State, id: Id, status: Status, reason: Option<string>, now: Time)
    ensures BringsBack(st.statements, Reinstate(onto, st, id, status, reason, now).state.statements)
  {
    hide PutBack;
    if id in st.statements && st.statements[id].status == Retracted && status != Retracted {
      PutBackBringsBack(onto, st, id, st.statements[id].(status := status, retractedAt := None, reason := reason), now);
    }
  }

  lemma {:induction false} PutBackAllBringsBack(onto: Ontology, st: State, notes: seq<(Id, Status, Option<string>)>, now: Time)
    requires forall n :: n in notes ==> n.1 != Retracted
    ensures var r := PutBackAll(onto, st, notes, now);
      forall i :: i in r ==> i in st.statements && OnlyReturned(st.statements[i], r[i])
    decreases |notes|
  {
    hide PutBack;
    if notes != [] {
      PutBackAllBringsBack(onto, st, notes[..|notes| - 1], now);
      var (i, status, reason) := notes[|notes| - 1];
      if i in st.statements && st.statements[i].status == Retracted {
        PutBackBringsBack(onto, st, i, st.statements[i].(status := status, retractedAt := None, reason := reason), now);
      }
    }
  }

  lemma RestoreBringsBack(onto: Ontology, st: State, e: Id, now: Time)
    requires NotesLive(st.entities)
    ensures BringsBack(st.statements, Restore(onto, st, e, now).state.statements)
  {
    hide PutBackAll;
    if e in st.entities && st.entities[e].removedAt.Some? {
      PutBackAllBringsBack(onto, st, st.entities[e].removedStatements, now);
    }
  }

  // ---------------------------------------------------------------- dated, over every run

  /** Nothing is recorded or withdrawn later than now, and what is withdrawn carries the moment. */
  ghost predicate Dated(st: State, now: Time) {
    Settled(st.statements, now) && NotesLive(st.entities)
  }

  lemma WritesAreSettled(ss: Statements, ss': Statements, now: Time)
    requires Settled(ss, now) && (WritesOn(ss, ss', now) || BringsBack(ss, ss') || TakesAway(ss, ss'))
    ensures Settled(ss', now)
  {
    forall i | i in ss'
      ensures ss'[i].recordedAt <= now && Marked(ss'[i]) && (ss'[i].retractedAt.Some? ==> ss'[i].retractedAt.value <= now)
    {
      if i in ss { assert Marked(ss[i]); }
    }
  }

  lemma RemovalNotesLive(st: State, e: Id, why: string, now: Time)
    requires NotesLive(st.entities)
    ensures NotesLive(Remove(st, e, why, now).state.entities)
  {
    hide Oldest, Memo, Group;
    if Remove(st, e, why, now).result.Ok? {
      RemoveFrame(st, e, why, now);
      var live := Live(st, e, now);
      var ids := Oldest(st.statements, live);
      assert forall i :: i in live ==> st.statements[i].Holds(now);
      MemoShape(st.statements, ids);
      var notes := Memo(st.statements, ids);
      forall k | 0 <= k < |notes|
        ensures notes[k].1 != Retracted
      {
        assert ids[k] in live;
      }
    }
  }

  lemma StepNotesLive(onto: Ontology, st: State, op: Op, now: Time)
    requires NotesLive(st.entities)
    ensures NotesLive(Step(onto, st, op, now).entities)
  {
    hide Assert, Confirm, Retract, Reinstate, Remove, MarkDistinct, NoteCandidate, DecisionBetween, FreshNames,
      Without, AddRefusal, PutBackAll, Live, About, Group;
    if FreshIds(st, op) {
      match op
      case RemoveOp(e, why) => RemovalNotesLive(st, e, why, now);
      case AssertOp(id, c, s, vf) => OnlyStatements(onto, st, op, now);
      case ConfirmOp(id) => OnlyStatements(onto, st, op, now);
      case RetractOp(id, why) => OnlyStatements(onto, st, op, now);
      case ReinstateOp(id, s, why) => OnlyStatements(onto, st, op, now);
      case DistinctOp(a, b, d) => OnlyStatements(onto, st, op, now);
      case NoteOp(a, b, ep, d) => OnlyStatements(onto, st, op, now);
      case _ =>
    }
  }

  lemma OnlyStatements(onto: Ontology, st: State, op: Op, now: Time)
    requires op.AssertOp? || op.ConfirmOp? || op.RetractOp? || op.ReinstateOp? || op.DistinctOp? || op.NoteOp?
    ensures Step(onto, st, op, now).entities == st.entities
  {
    hide ClaimProblem, Displaced, Saved, PlacedAs, Alike, PutBack, First, NewStatement, Reinforce, Withdrawn, Reopens,
      DecisionBetween;
  }

  lemma StepKeepsDated(onto: Ontology, st: State, op: Op, since: Time, now: Time)
    requires Dated(st, since) && since <= now
    ensures Dated(Step(onto, st, op, now), now)
  {
    hide Step, WritesOn, BringsBack, TakesAway;
    assert Settled(st.statements, now);
    StepWrites(onto, st, op, now);
    WritesAreSettled(st.statements, Step(onto, st, op, now).statements, now);
    StepNotesLive(onto, st, op, now);
  }

  /** The clock never goes back. */
  predicate Timely(ops: seq<(Op, Time)>, since: Time) {
    (forall k :: 0 <= k < |ops| ==> since <= ops[k].1) && forall j, k :: 0 <= j < k < |ops| ==> ops[j].1 <= ops[k].1
  }

  function LastTime(ops: seq<(Op, Time)>, since: Time): Time {
    if ops == [] then since else ops[|ops| - 1].1
  }

  lemma {:induction false} RunKeepsDated(onto: Ontology, st: State, ops: seq<(Op, Time)>, since: Time)
    requires Dated(st, since) && Timely(ops, since)
    ensures Dated(Run(onto, st, ops), LastTime(ops, since))
    decreases |ops|
  {
    if ops != [] {
      hide Dated, Step;
      StepKeepsDated(onto, st, ops[0].0, since, ops[0].1);
      RunKeepsDated(onto, Step(onto, st, ops[0].0, ops[0].1), ops[1..], ops[0].1);
    }
  }

  /** Over every run from an empty graph under such a clock: a statement is withdrawn exactly when it carries the moment. */
  lemma EveryRunIsDated(onto: Ontology, ops: seq<(Op, Time)>, since: Time)
    requires Timely(ops, since)
    ensures Settled(Run(onto, NOTHING, ops).statements, LastTime(ops, since))
  {
    RunKeepsDated(onto, NOTHING, ops, since);
  }

  // ---------------------------------------------------------------- what was known stays known

  /** The statement was on record at that moment, and not withdrawn by then. */
  predicate KnownThen(st: State, i: Id, known: Time) {
    i in st.statements && Held(st.statements[i], known)
  }

  /** A step takes nothing from what was known before it but by purging and deleting, and adds to it only by bringing back. */
  lemma StepKeepsKnown(onto: Ontology, st: State, op: Op, since: Time, now: Time, known: Time, i: Id)
    requires Dated(st, since) && since <= now && known < now
    ensures var st' := Step(onto, st, op, now);
      && (KnownThen(st', i, known) && !KnownThen(st, i, known) ==> Returns(op))
      && (KnownThen(st, i, known) && !KnownThen(st', i, known) ==> Forgets(op) && i !in st'.statements)
  {
    hide Step;
    assert Settled(st.statements, now);
    StepWrites(onto, st, op, now);
  }

  /** Through any run without these, at moments after one, what was known then stays what was known then: what was withdrawn
      since is still told of it, and what was recorded since is not. */
  lemma {:induction false} RunKeepsKnown(onto: Ontology, st: State, ops: seq<(Op, Time)>, since: Time, known: Time, i: Id)
    requires Dated(st, since) && Timely(ops, since) && forall k :: 0 <= k < |ops| ==> known < ops[k].1
    requires forall k :: 0 <= k < |ops| ==> !Forgets(ops[k].0) && !Returns(ops[k].0)
    ensures KnownThen(Run(onto, st, ops), i, known) <==> KnownThen(st, i, known)
    decreases |ops|
  {
    if ops != [] {
      hide Step, Dated, KnownThen;
      StepKeepsKnown(onto, st, ops[0].0, since, ops[0].1, known, i);
      StepKeepsDated(onto, st, ops[0].0, since, ops[0].1);
      RunKeepsKnown(onto, Step(onto, st, ops[0].0, ops[0].1), ops[1..], ops[0].1, known, i);
    }
  }

  /** And the claims themselves are never rewritten, in runs that purge and delete nothing. */
  lemma {:induction false} RunKeepsClaims(onto: Ontology, st: State, ops: seq<(Op, Time)>, since: Time, i: Id)
    requires Dated(st, since) && Timely(ops, since) && forall k :: 0 <= k < |ops| ==> !Forgets(ops[k].0)
    requires i in st.statements
    ensures i in Run(onto, st, ops).statements && SameRecord(st.statements[i], Run(onto, st, ops).statements[i])
    decreases |ops|
  {
    if ops != [] {
      hide Step;
      assert Settled(st.statements, ops[0].1);
      StepWrites(onto, st, ops[0].0, ops[0].1);
      StepKeepsDated(onto, st, ops[0].0, since, ops[0].1);
      hide Dated, WritesOn, BringsBack;
      RunKeepsClaims(onto, Step(onto, st, ops[0].0, ops[0].1), ops[1..], ops[0].1, i);
    }
  }
}
