/** The memory graph itself: three tables changed step by step, each operation proved
    against its function in GraphSpec.dfy. */
module MemoryGraph {
  import opened Records
  import opened MergeForest
  import opened GraphSpec
  import opened Labels
  import opened Neighbourhood

  class MemoryGraph {
    const onto: Ontology
    var entities: map<Id, Entity>
    var statements: map<Id, Statement>
    var decisions: map<Id, Decision>

    function St(): State
      reads this
    {
      State(entities, statements, decisions)
    }

    constructor (onto: Ontology)
      ensures this.onto == onto && St() == State(map[], map[], map[])
    {
      this.onto := onto;
      entities, statements, decisions := map[], map[], map[];
    }

    // ---------------------------------------------------------------- worklists over merges

    /** e and every entity merged into it, level by level. */
    method Members(e: Id) returns (out: set<Id>)
      ensures out == Group(entities, e)
    {
      var es := entities;
      out := {e};
      var frontier := {e};
      assert Climbs(es, e, e, 0);
      while frontier != {}
        invariant frontier <= out && e in out
        invariant forall m :: m in out ==> Under(es, m, e) && (m == e || m in es)
        invariant ClosedBelow(es, out - frontier, out)
        decreases |es.Keys - out|, |frontier|
      {
        var nxt := NextLevel(es, frontier, out);
        LevelIsUnder(es, frontier, nxt, e);
        LevelShrinks(es.Keys, out, nxt);
        out := out + nxt;
        frontier := nxt;
      }
      assert out - frontier == out;
      ExactGroup(es, out, e);
    }

    static lemma LevelShrinks(all: set<Id>, out: set<Id>, nxt: set<Id>)
      requires nxt <= all && nxt !! out
      ensures (out + nxt) - nxt == out
      ensures if nxt == {} then out + nxt == out else |all - (out + nxt)| < |all - out|
    {
      if nxt != {} {
        var m :| m in nxt;
        assert m in all - out && m !in all - (out + nxt);
        SmallerSet(all - (out + nxt), all - out);
      }
    }

    static lemma ExactGroup(es: Entities, out: set<Id>, e: Id)
      requires e in out && ClosedBelow(es, out, out)
      requires forall m :: m in out ==> Under(es, m, e) && (m == e || m in es)
      ensures out == Group(es, e)
    {
      forall m | Under(es, m, e) ensures m in out {
        var n: nat :| Climbs(es, m, e, n);
        ClosedUnderClimbing(es, out, m, e, n);
      }
    }

    static function NextLevel(es: Entities, frontier: set<Id>, out: set<Id>): set<Id> {
      set m | m in es && es[m].mergedInto.Some? && es[m].mergedInto.value in frontier && m !in out
    }

    static ghost predicate ClosedBelow(es: Entities, tops: set<Id>, out: set<Id>) {
      forall m :: m in es && es[m].mergedInto.Some? && es[m].mergedInto.value in tops ==> m in out
    }

    static lemma LevelIsUnder(es: Entities, frontier: set<Id>, nxt: set<Id>, e: Id)
      requires forall m :: m in frontier ==> Under(es, m, e)
      requires forall m :: m in nxt ==> m in es && es[m].mergedInto.Some? && es[m].mergedInto.value in frontier
      ensures forall m :: m in nxt ==> Under(es, m, e)
    {
      forall m | m in nxt ensures Under(es, m, e) {
        var n: nat :| Climbs(es, es[m].mergedInto.value, e, n);
        assert Climbs(es, m, e, n + 1);
      }
    }

    static lemma ClosedUnderClimbing(es: Entities, out: set<Id>, m: Id, e: Id, n: nat)
      requires e in out && Climbs(es, m, e, n)
      requires ClosedBelow(es, out, out)
      ensures m in out
      decreases n
    {
      if n > 0 { ClosedUnderClimbing(es, out, es[m].mergedInto.value, e, n - 1); }
    }

    /** The entity that e stands for, whatever the pointers are: a cycle stops the walk. */
    method CanonicalId(e: Id) returns (r: Id)
      ensures r == Canon(entities, e)
    {
      var seen := {e};
      var cur := e;
      while cur in entities && entities[cur].mergedInto.Some? && entities[cur].mergedInto.value !in seen
        invariant cur in seen
        invariant Walk(entities, e, cur, seen) == Canon(entities, e)
        decreases if cur in entities then 1 + |entities.Keys - seen| else 0
      {
        var up := entities[cur].mergedInto.value;
        if up in entities {
          assert entities.Keys - (seen + {up}) < entities.Keys - seen by {
            assert up in entities.Keys - seen && up !in entities.Keys - (seen + {up});
          }
          SmallerSet(entities.Keys - (seen + {up}), entities.Keys - seen);
        }
        seen := seen + {up};
        cur := up;
      }
      r := if cur in entities then cur else e;
    }

    // ---------------------------------------------------------------- reading

    method Read(subject: Option<Id>, properties: Option<set<string>>, target: Option<Id>,
                valid: Time, known: Time, proposed: bool) returns (found: set<Id>)
      ensures found == Matching(St(), subject, properties, target, valid, known, proposed)
      ensures found <= statements.Keys
    {
      var subjects, targets := {}, {};
      if subject.Some? { subjects := Members(subject.value); }
      if target.Some? { targets := Members(target.value); }
      found := set i | i in statements
                       && (subject.Some? ==> statements[i].subject in subjects)
                       && (properties.Some? ==> statements[i].property in properties.value)
                       && (target.Some? ==> statements[i].target.Some? && statements[i].target.value in targets)
                       && Visible(statements[i], valid, known, proposed);
    }

    method CurrentOf(subject: Id, property: string, now: Time, proposed: bool) returns (found: set<Id>)
      ensures found == Current(St(), subject, property, now, proposed)
    {
      found := Read(Some(subject), Some({property}), None, now, now, proposed);
    }

    /** The oldest or the newest record among some. */
    method Extreme(ids: set<Id>, newest: bool) returns (i: Id)
      requires ids != {} && ids <= statements.Keys
      ensures i == if newest then Last(statements, ids) else First(statements, ids)
    {
      var ss := statements;
      i :| i in ids;
      var todo := ids - {i};
      while todo != {}
        invariant todo <= ids && i in ids - todo
        invariant forall j :: j in ids - todo && j != i ==>
          Precedes(newest, ss, i, j)
        decreases |todo|
      {
        var j :| j in todo;
        todo := todo - {j};
        if Precedes(newest, ss, j, i) {
          assert forall k :: k in ids - todo && k != i && k != j ==> Precedes(newest, ss, i, k);
          i := j;
        }
      }
      assert (if newest then Last(ss, ids) else First(ss, ids)) in ids - todo;
    }

    static predicate Precedes(newest: bool, ss: Statements, i: Id, j: Id)
      requires i in ss && j in ss
    {
      if newest then Earlier(ss, j, i) else Earlier(ss, i, j)
    }

    method AboutOf(e: Id) returns (found: set<Id>)
      ensures found == About(St(), e)
    {
      var members := Members(e);
      found := set i | i in statements
                       && (statements[i].subject in members
                           || (statements[i].target.Some? && statements[i].target.value in members));
    }

    method FarEnds(ids: set<Id>, outward: bool) returns (fars: set<Id>)
      requires ids <= statements.Keys
      ensures fars == Fars(St(), ids, outward)
    {
      fars := {};
      var todo := ids;
      while todo != {}
        invariant todo <= ids
        invariant fars == Fars(St(), ids - todo, outward)
        decreases |todo|
      {
        var i :| i in todo;
        FarsOneMore(St(), ids - todo, i, outward);
        assert ids - (todo - {i}) == (ids - todo) + {i};
        todo := todo - {i};
        if !outward || statements[i].target.Some? {
          var far := CanonicalId(if outward then statements[i].target.value else statements[i].subject);
          fars := fars + {far};
        }
      }
      assert ids - todo == ids;
    }

    /** What one node shows, and where it leads. */
    method Visit(q: Query, node: Id) returns (matches: set<Id>, fars: set<Id>)
      ensures Forest(entities) && (node in entities ==> Root(entities, node)) ==>
        matches == Touching(St(), q, {node}) && fars == Onward(St(), q, {node})
      ensures matches <= statements.Keys
    {
      if Forest(entities) && (node in entities ==> Root(entities, node)) { ReadingANode(St(), q, node); }
      hide *;
      var outs, ins: set<Id> := {}, {};
      if q.direction != In { outs := Read(Some(node), q.properties, None, q.valid, q.known, q.proposed); }
      if q.direction != Out { ins := Read(None, q.properties, Some(node), q.valid, q.known, q.proposed); }
      var ahead := FarEnds(outs, true);
      var back := FarEnds(ins, false);
      matches, fars := outs + ins, ahead + back;
    }

    ghost predicate Sound(nodes: set<Id>)
      reads this
    {
      Forest(entities) && forall v :: v in nodes && v in entities ==> Root(entities, v)
    }

    /** One hop: every node of the frontier is visited. */
    method Hop(q: Query, frontier: set<Id>, seen0: set<Id>, found0: map<Id, nat>, hop: nat)
      returns (reached: set<Id>, seen: set<Id>, found: map<Id, nat>)
      ensures Sound(frontier) ==> Gathered(St(), q, frontier, seen0, found0, hop, reached, seen, found)
    {
      GatheredNothing(St(), q, seen0, found0, hop);
      hide Gathered, Onward, Touching;
      reached, seen, found := {}, seen0, found0;
      var todo := frontier;
      ghost var done := {};
      while todo != {}
        invariant done + todo == frontier
        invariant Sound(frontier) ==> Gathered(St(), q, done, seen0, found0, hop, reached, seen, found)
        decreases |todo|
      {
        var node :| node in todo;
        todo := todo - {node};
        if Sound(frontier) { GatheredOneMore(St(), q, done, node, seen0, found0, hop, reached, seen, found); }
        done := done + {node};
        var matches, fars := Visit(q, node);
        var unseen := fars - seen;
        seen, reached, found := seen + unseen, reached + unseen, AtHop(found, matches, hop);
      }
      assert done == frontier;
    }

    /** Every statement within some hops of an entity, with the hop it was first met at. */
    method Neighbours(e: Id, q: Query, hops: int) returns (found: map<Id, nat>)
      ensures Forest(entities) ==>
        Reports(St(), q, Canon(entities, e), if hops < 1 then 1 else hops, found)
    {
      hide Touching, Onward, Forest, Searched, Reports, Canon;
      var start := CanonicalId(e);
      found := map[];
      var frontier, seen := {start}, {start};
      if Forest(entities) { SearchStarts(St(), q, e); }
      var reach := if hops < 1 then 1 else hops;
      var hop := 1;
      while hop <= reach && frontier != {}
        invariant 1 <= hop <= reach + 1
        invariant Forest(entities) ==> Searched(St(), q, start, hop, frontier, seen, found)
        decreases reach + 1 - hop
      {
        if Forest(entities) { SearchedOneMore(St(), q, start, hop, frontier, seen, found); }
        frontier, seen, found := Hop(q, frontier, seen, found, hop);
        hop := hop + 1;
      }
      if Forest(entities) { SearchDone(St(), q, start, reach, hop, frontier, seen, found); }
    }

    // ---------------------------------------------------------------- statements

    /** A confirmed value takes its place: what a single-valued property held is closed. */
    method Supersede(id: Id, new_: Statement, subject: Entity, now: Time)
      modifies this`statements
      ensures St() == Place(onto, old(St()), id, new_, subject, now)
    {
      var ss := statements;
      var closed: set<Id> := {};
      var placed := new_;
      if onto.SingleValued(subject, new_.property) {
        var rivals := CurrentOf(new_.subject, new_.property, now, false);
        closed := set i | i in rivals && i != id && ss[i].Start() <= new_.Start();
        if closed != {} {
          var last := Extreme(closed, true);
          placed := placed.(supersedes := Some(last));
        }
      }
      assert closed == Displaced(onto, old(St()), id, new_, subject, now);
      statements := Saved(ss, closed, new_.Start(), id, placed);
    }

    method Assert(id: Id, c: Claim, status: Status, validFrom: Option<Time>, now: Time) returns (r: Result<Id>)
      requires id !in statements
      modifies this`statements
      ensures Outcome(St(), r) == GraphSpec.Assert(onto, old(St()), id, c, status, validFrom, now)
    {
      if status == Retracted { return Refused(BadStatus); }
      var subject := Lookup(entities, c.subject);
      if subject.Refused? { return Refused(subject.why); }
      var problem := ClaimProblem(onto, entities, subject.value, c);
      if problem.Some? { return Refused(problem.value); }
      var current := CurrentOf(c.subject, c.property, now, true);
      var same := set i | i in current && statements[i].target == c.target && statements[i].literal == c.literal;
      assert same == Alike(St(), c, now);
      if same != {} {
        var i := Extreme(same, false);
        statements := statements[i := Reinforce(statements[i], now)];
        if status == Confirmed && statements[i].status == Proposed {
          r := Confirm(i, now);
        } else {
          r := Ok(i);
        }
        return;
      }
      var new_ := NewStatement(c, status, validFrom, now);
      if status == Confirmed {
        Supersede(id, new_, subject.value, now);
      } else {
        statements := statements[id := new_];
      }
      r := Ok(id);
    }

    method Confirm(id: Id, now: Time) returns (r: Result<Id>)
      modifies this`statements
      ensures Outcome(St(), r) == GraphSpec.Confirm(onto, old(St()), id, now)
    {
      if id !in statements { return Refused(Missing); }
      var s := statements[id];
      if s.status == Retracted { return Refused(AlreadyRetracted); }
      if s.status == Confirmed { return Ok(id); }
      var subject := Lookup(entities, s.subject);
      if subject.Refused? { return Refused(subject.why); }
      Supersede(id, s.(status := Confirmed), subject.value, now);
      r := Ok(id);
    }

    method Unconfirm(id: Id) returns (r: Result<Id>)
      modifies this`statements
      ensures Outcome(St(), r) == GraphSpec.Unconfirm(old(St()), id)
    {
      if id !in statements { return Refused(Missing); }
      if statements[id].status == Confirmed {
        statements := statements[id := statements[id].(status := Proposed)];
      }
      r := Ok(id);
    }

    method End(id: Id, at: Option<Time>, now: Time) returns (r: Result<Id>)
      modifies this`statements
      ensures Outcome(St(), r) == GraphSpec.End(old(St()), id, at, now)
    {
      if id !in statements { return Refused(Missing); }
      var s := statements[id];
      if s.status == Retracted { return Refused(AlreadyRetracted); }
      if s.validTo.Some? { return Refused(AlreadyEnded); }
      var moment := if at.Some? then at.value else now;
      if moment <= s.Start() { return Refused(EndsBeforeStart); }
      statements := statements[id := s.(validTo := Some(moment))];
      r := Ok(id);
    }

    method Retract(id: Id, reason: Option<string>, now: Time) returns (r: Result<Id>)
      modifies this`statements
      ensures Outcome(St(), r) == GraphSpec.Retract(old(St()), id, reason, now)
    {
      if id !in statements { return Refused(Missing); }
      var s := statements[id];
      if s.status == Retracted { return Ok(id); }
      var retracted := Withdrawn(s, if reason.Some? && reason.value != "" then reason else s.reason, now);
      if s.supersedes.Some? && s.supersedes.value in statements {
        var previous := statements[s.supersedes.value];
        if previous.status == Confirmed && previous.validTo == Some(s.Start()) {
          statements := statements[s.supersedes.value := previous.(validTo := None)];
        }
      }
      statements := statements[id := retracted];
      r := Ok(id);
    }

    /** What a returning statement changes, before anything is saved. */
    method PuttingBack(id: Id, back: Statement, now: Time) returns (changed: map<Id, Statement>)
      ensures changed == PutBack(onto, St(), id, back, now)
    {
      if back.status != Confirmed || back.validTo.Some? { return map[id := back]; }
      var settled := CloseByNewer(id, back, now);
      changed := Written(statements, Reclosed(statements, back), back.Start(), id, settled);
    }

    method CloseByNewer(id: Id, back: Statement, now: Time) returns (settled: Statement)
      ensures settled == ClosedByNewer(statements, Newer(onto, St(), id, back, now), back)
    {
      if back.subject !in entities || !onto.SingleValued(entities[back.subject], back.property) { return back; }
      var current := CurrentOf(back.subject, back.property, now, false);
      var newer := set i | i in current && i != id && statements[i].recordedAt > back.recordedAt;
      assert newer == Newer(onto, St(), id, back, now);
      if newer == {} { return back; }
      var start := LeastStart(newer);
      settled := back.(validTo := Some(start));
    }

    method LeastStart(ids: set<Id>) returns (t: Time)
      requires ids != {} && ids <= statements.Keys
      ensures t == EarliestStart(statements, ids)
    {
      var ss := statements;
      var least :| least in ids;
      var todo := ids - {least};
      while todo != {}
        invariant todo <= ids && least in ids
        invariant forall j :: j in ids - todo ==> ss[least].Start() <= ss[j].Start()
        decreases |todo|
      {
        var j :| j in todo;
        todo := todo - {j};
        if ss[j].Start() < ss[least].Start() { least := j; }
      }
      t := ss[least].Start();
      assert forall j :: j in ids ==> j in ids - todo;
    }

    method Reinstate(id: Id, status: Status, reason: Option<string>, now: Time) returns (r: Result<Id>)
      modifies this`statements
      ensures Outcome(St(), r) == GraphSpec.Reinstate(onto, old(St()), id, status, reason, now)
    {
      if id !in statements { return Refused(Missing); }
      var s := statements[id];
      if s.status != Retracted { return Refused(NotRetracted); }
      if status == Retracted { return Refused(BadStatus); }
      var subject := Lookup(entities, s.subject);
      if subject.Refused? { return Refused(subject.why); }
      if s.target.Some? {
        var target := Lookup(entities, s.target.value);
        if target.Refused? { return Refused(target.why); }
      }
      var changed := PuttingBack(id, s.(status := status, retractedAt := None, reason := reason), now);
      statements := statements + changed;
      r := Ok(id);
    }

    // ---------------------------------------------------------------- removing an entity

    method RemoveEntity(e: Id, reason: string, now: Time) returns (r: Result<Id>)
      modifies this`entities, this`statements
      ensures Outcome(St(), r) == Remove(old(St()), e, reason, now)
    {
      hide Memo, Oldest, About, Live;
      if e == OWNER_ID { return Refused(OwnerStays); }
      var entity := Lookup(entities, e);
      if entity.Refused? { return Refused(entity.why); }
      var about := AboutOf(e);
      LiveMeans(St(), e, now);
      var live := set i | i in about && statements[i].Holds(now);
      assert live == Live(St(), e, now);
      var order := OldestFirst(live);
      var memo := Memo(statements, order);
      entities := entities[e := entity.value.(removedAt := Some(now), removedReason := Some(reason), removedStatements := memo)];
      statements := statements + map i | i in live :: Withdrawn(statements[i], Some(reason), now);
      r := Ok(e);
    }

    static lemma LiveMeans(st: State, e: Id, now: Time)
      ensures About(st, e) <= st.statements.Keys
      ensures forall i :: i in Live(st, e, now) <==> i in About(st, e) && st.statements[i].Holds(now)
    {
      hide Group;
    }

    method OldestFirst(ids: set<Id>) returns (order: seq<Id>)
      requires ids <= statements.Keys
      ensures order == Oldest(statements, ids)
    {
      ghost var ss := statements;
      order := [];
      var rest := ids;
      while rest != {}
        invariant rest <= ids
        invariant order + Oldest(ss, rest) == Oldest(ss, ids)
        decreases |rest|
      {
        var i := Extreme(rest, false);
        OldestUnfolds(ss, order, rest);
        order := order + [i];
        rest := rest - {i};
      }
    }

    static lemma OldestUnfolds(ss: Statements, order: seq<Id>, rest: set<Id>)
      requires rest != {} && rest <= ss.Keys
      ensures var i := First(ss, rest);
              order + Oldest(ss, rest) == (order + [i]) + Oldest(ss, rest - {i})
    {
    }

    method RestoreEntity(e: Id, now: Time) returns (r: Result<Id>)
      modifies this`entities, this`statements
      ensures Outcome(St(), r) == Restore(onto, old(St()), e, now)
    {
      if e !in entities { return Refused(Missing); }
      var entity := entities[e];
      if entity.removedAt.None? { return Ok(e); }
      var notes := entity.removedStatements;
      var restored: map<Id, Statement> := map[];
      for k := 0 to |notes|
        invariant St() == old(St())
        invariant restored == PutBackAll(onto, St(), notes[..k], now)
      {
        var (i, status, reason) := notes[k];
        assert notes[..k + 1][..k] == notes[..k];
        if i in statements && statements[i].status == Retracted {
          var back := PuttingBack(i, statements[i].(status := status, retractedAt := None, reason := reason), now);
          restored := restored + back;
        }
      }
      assert notes[..|notes|] == notes;
      entities := entities[e := entity.(removedAt := None, removedReason := None, removedStatements := [])];
      statements := statements + restored;
      r := Ok(e);
    }

    method DeleteEntity(e: Id, now: Time) returns (r: Result<Id>)
      modifies this
      ensures Outcome(St(), r) == Delete(old(St()), e, now)
    {
      if e !in entities { return Refused(Missing); }
      if entities[e].removedAt.None? { return Refused(NotRemoved); }
      var members := Members(e);
      if members != {e} { return Refused(HasMembers); }
      var about := AboutOf(e);
      assert Live(St(), e, now) == set i | i in about && statements[i].Holds(now);
      if exists i :: i in about && statements[i].Holds(now) {
        var i :| i in about && statements[i].Holds(now);
        assert i in Live(St(), e, now);
        return Refused(StillHolds);
      }
      statements := statements - about;
      decisions := map d | d in decisions && !decisions[d].Names(e) :: decisions[d];
      entities := entities - {e};
      r := Ok(e);
    }

    method PurgeStatements(ids: set<Id>, now: Time) returns (r: Result<nat>)
      modifies this`statements
      ensures Outcome(St(), r) == Purge(old(St()), ids, now)
    {
      if !(ids <= statements.Keys) { return Refused(Missing); }
      if exists i :: i in ids && statements[i].Holds(now) { return Refused(StillHolds); }
      statements := statements - ids;
      r := Ok(|ids|);
    }

    // ---------------------------------------------------------------- identity

    method NewEntity(e: Id, class_: string, name: string, aliases: seq<string>, now: Time) returns (r: Result<Id>)
      requires e !in entities
      modifies this`entities
      ensures Outcome(St(), r) == AddEntity(onto, old(St()), e, class_, name, aliases, now)
    {
      var title := Label(name);
      if title == "" { return Refused(EmptyLabel); }
      if class_ !in onto.classes { return Refused(UndeclaredClass); }
      if class_ in onto.abstracts { return Refused(AbstractClass); }
      if class_ in onto.outdated { return Refused(DeprecatedClass); }
      entities := entities[e := Entity(class_, title, FreshNames(aliases, {title, ""}), now, None, None, None, [])];
      r := Ok(e);
    }

    /** The latest decision about a pair, looked for among all. */
    method FindDecision(a: Id, b: Id) returns (d: Option<Id>)
      ensures d == DecisionBetween(decisions, a, b)
    {
      d := None;
      var todo := decisions.Keys;
      while todo != {}
        invariant todo <= decisions.Keys
        invariant d.Some? ==> d.value in decisions && decisions[d.value].Between(a, b)
        invariant forall j :: j in decisions.Keys - todo && decisions[j].Between(a, b) ==>
          d.Some? && (j == d.value || DecidedEarlier(decisions, j, d.value))
        decreases |todo|
      {
        var j :| j in todo;
        todo := todo - {j};
        if decisions[j].Between(a, b) && (d.None? || DecidedEarlier(decisions, d.value, j)) { d := Some(j); }
      }
    }

    method MergeEntities(keep: Id, fold: Id, evidence: seq<string>, newId: Id, now: Time) returns (r: Result<Id>)
      requires newId !in decisions
      modifies this`entities, this`decisions
      ensures Outcome(St(), r) == Merge(onto, old(St()), keep, fold, evidence, newId, now)
    {
      var winner, loser := Lookup(entities, keep), Lookup(entities, fold);
      if winner.Refused? { return Refused(winner.why); }
      if loser.Refused? { return Refused(loser.why); }
      if keep == fold { return Refused(WithItself); }
      var previous := FindDecision(keep, fold);
      if previous.Some? && decisions[previous.value].verdict == Distinct { return Refused(MarkedDistinct); }
      if !onto.Related(loser.value.class_, winner.value.class_) { return Refused(UnrelatedClasses); }
      var added := Added(winner.value, loser.value);
      var seen := if previous.Some? then decisions[previous.value].evidence else [];
      var d := if previous.Some? then previous.value else newId;
      entities := entities[keep := winner.value.(aliases := winner.value.aliases + added)];
      entities := entities[fold := loser.value.(mergedInto := Some(keep))];
      decisions := decisions[d := Decision(keep, fold, Same, now, FreshNames(seen + evidence, {}), added)];
      r := Ok(d);
    }

    method UnmergeEntities(d: Id, now: Time) returns (r: Result<Id>)
      modifies this`entities, this`decisions
      ensures Outcome(St(), r) == Unmerge(old(St()), d, now)
    {
      if d !in decisions || decisions[d].verdict != Same { return Refused(NotAMerge); }
      var decision := decisions[d];
      if decision.a !in entities || decision.b !in entities { return Refused(Missing); }
      var winner, loser := entities[decision.a], entities[decision.b];
      entities := entities[decision.a := winner.(aliases := Without(winner.aliases, Set(decision.addedAliases)))];
      entities := entities[decision.b := loser.(mergedInto := None)];
      decisions := decisions[d := decision.(verdict := Undone, decidedAt := now)];
      r := Ok(d);
    }

    method DecideDistinct(a: Id, b: Id, newId: Id, now: Time) returns (r: Result<Id>)
      requires newId !in decisions
      modifies this`decisions
      ensures Outcome(St(), r) == MarkDistinct(old(St()), a, b, newId, now)
    {
      var previous := FindDecision(a, b);
      if previous.Some? && decisions[previous.value].verdict == Same { return Refused(AreMerged); }
      var d := if previous.Some? then previous.value else newId;
      var seen := if previous.Some? then decisions[previous.value].evidence else [];
      decisions := decisions[d := Decision(a, b, Distinct, now, seen, [])];
      r := Ok(d);
    }

    method NoteAlike(a: Id, b: Id, episode: Option<string>, newId: Id, now: Time) returns (r: Option<Id>)
      requires newId !in decisions
      modifies this`decisions
      ensures (St(), r) == NoteCandidate(old(St()), a, b, episode, newId, now)
    {
      var previous := FindDecision(a, b);
      if previous.Some? && decisions[previous.value].verdict in {Distinct, Same} { return None; }
      var evidence := if previous.Some? then decisions[previous.value].evidence else [];
      if episode.Some? && episode.value !in evidence { evidence := evidence + [episode.value]; }
      var d, x, y := newId, a, b;
      if previous.Some? { d, x, y := previous.value, decisions[previous.value].a, decisions[previous.value].b; }
      decisions := decisions[d := Decision(x, y, Candidate, now, evidence, [])];
      r := Some(d);
    }
  }
}
