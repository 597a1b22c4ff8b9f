/** What every memory graph operation does, as functions on the three tables of the store.
    MemoryGraph.dfy proves the operations themselves against these functions. */
module GraphSpec {
  import opened Records
  import opened MergeForest
  import opened Orders
  import opened Labels

  // ---------------------------------------------------------------- the ontology in use

  datatype Constraint = Constraint(maxCount: Option<nat>, objectClass: Option<string>)

  datatype Kind = Relation | Attribute

  datatype Property = Property(kind: Kind, domain: string, range: string, deprecated: bool)

  datatype Ontology = Ontology(
    classes: map<string, seq<string>>,                // a class and its superclasses, nearest first
    abstracts: set<string>,                           // classes that have no instances of their own
    outdated: set<string>,                            // deprecated classes
    shapes: map<string, map<string, Constraint>>,
    properties: map<string, Property>)
  {
    function Ancestors(c: string): seq<string> {
      if c in classes then classes[c] else []
    }

    predicate IsSubclass(c: string, of: string) {
      of in Ancestors(c)
    }

    predicate Related(c: string, d: string) {
      IsSubclass(c, d) || IsSubclass(d, c)
    }

    /** Why an entity cannot be made of the class, if it cannot. */
    function ClassRefusal(c: string): Option<Refusal> {
      if c !in classes then Some(UndeclaredClass)
      else if c in abstracts then Some(AbstractClass)
      else if c in outdated then Some(DeprecatedClass)
      else None
    }

    /** The nearest class that constrains the property decides. */
    function ConstraintIn(chain: seq<string>, property: string): Option<Constraint> {
      if chain == [] then None
      else if chain[0] in shapes && property in shapes[chain[0]] then Some(shapes[chain[0]][property])
      else ConstraintIn(chain[1..], property)
    }

    function ConstraintFor(subject: Entity, property: string): Option<Constraint> {
      ConstraintIn(Ancestors(subject.class_), property)
    }

    predicate SingleValued(subject: Entity, property: string) {
      var c := ConstraintFor(subject, property);
      c.Some? && c.value.maxCount == Some(1)
    }
  }

  // ---------------------------------------------------------------- the store

  type Statements = map<Id, Statement>

  datatype State = State(entities: Entities, statements: Statements, decisions: map<Id, Decision>)

  /** A refusal carries the state too: assert_ can refuse after it has already saved. */
  datatype Outcome<+T> = Outcome(state: State, result: Result<T>)

  /** An entity that can be written about. */
  function Lookup(es: Entities, e: Id): Result<Entity> {
    if e !in es then Refused(Missing)
    else if es[e].mergedInto.Some? then Refused(WasMerged)
    else if es[e].removedAt.Some? then Refused(WasRemoved)
    else Ok(es[e])
  }

  predicate Earlier(ss: Statements, i: Id, j: Id)
    requires i in ss && j in ss
  {
    ss[i].recordedAt < ss[j].recordedAt || (ss[i].recordedAt == ss[j].recordedAt && i < j)
  }

  ghost function First(ss: Statements, ids: set<Id>): (i: Id)
    requires ids != {} && ids <= ss.Keys
    ensures i in ids && forall j :: j in ids && j != i ==> Earlier(ss, i, j)
  {
    Least((i, j) => i in ss && j in ss && Earlier(ss, i, j), ids)
  }

  ghost function Last(ss: Statements, ids: set<Id>): (i: Id)
    requires ids != {} && ids <= ss.Keys
    ensures i in ids && forall j :: j in ids && j != i ==> Earlier(ss, j, i)
  {
    Least((i, j) => i in ss && j in ss && Earlier(ss, j, i), ids)
  }

  /** The ids from the oldest record to the newest. */
  ghost function Oldest(ss: Statements, ids: set<Id>): (r: seq<Id>)
    requires ids <= ss.Keys
    ensures forall i :: i in r <==> i in ids
    ensures |r| == |ids|
    ensures forall j, k :: 0 <= j < k < |r| ==> r[j] != r[k]
  {
    if ids == {} then [] else var i := First(ss, ids); [i] + Oldest(ss, ids - {i})
  }

  // ---------------------------------------------------------------- reading

  predicate Visible(s: Statement, valid: Time, known: Time, proposed: bool) {
    s.KnownAt(known) && s.ValidAt(valid) && (s.status != Proposed || proposed)
  }

  /** Statements of a property about an entity, or anything merged into it, that are true now. */
  ghost function Current(st: State, subject: Id, property: string, now: Time, proposed: bool): set<Id> {
    set i | i in st.statements
            && st.statements[i].subject in Group(st.entities, subject)
            && st.statements[i].property == property
            && Visible(st.statements[i], now, now, proposed)
  }

  /** The statements a read returns: about a subject and its members, of some properties,
      naming a target or one of its members. */
  ghost function Matching(st: State, subject: Option<Id>, properties: Option<set<string>>, target: Option<Id>,
                          valid: Time, known: Time, proposed: bool): set<Id> {
    set i | i in st.statements
            && (subject.Some? ==> st.statements[i].subject in Group(st.entities, subject.value))
            && (properties.Some? ==> st.statements[i].property in properties.value)
            && (target.Some? ==> st.statements[i].target.Some?
                                 && st.statements[i].target.value in Group(st.entities, target.value))
            && Visible(st.statements[i], valid, known, proposed)
  }

  ghost function About(st: State, e: Id): set<Id> {
    set i | i in st.statements
            && (st.statements[i].subject in Group(st.entities, e)
                || (st.statements[i].target.Some? && st.statements[i].target.value in Group(st.entities, e)))
  }

  // ---------------------------------------------------------------- statements

  datatype Claim = Claim(subject: Id, property: string, target: Option<Id>, literal: Option<string>)

  function ClaimProblem(onto: Ontology, es: Entities, subject: Entity, c: Claim): Option<Refusal> {
    if c.property !in onto.properties then Some(UnknownProperty)
    else
      var p := onto.properties[c.property];
      if p.deprecated then Some(DeprecatedProperty)
      else if !onto.IsSubclass(subject.class_, p.domain) then Some(OutsideDomain)
      else if p.kind == Attribute then
        if c.literal.None? || c.target.Some? then Some(WrongShape) else None
      else if c.target.None? || c.literal.Some? then Some(WrongShape)
      else
        var found := Lookup(es, c.target.value);
        if found.Refused? then Some(found.why)
        else
          var narrowed := onto.ConstraintFor(subject, c.property);
          var allowed := if narrowed.Some? && narrowed.value.objectClass.Some?
                         then narrowed.value.objectClass.value else p.range;
          if onto.IsSubclass(found.value.class_, allowed) then None else Some(OutsideRange)
  }

  /** The current values a new value closes: those that did not start after it. */
  ghost function Displaced(onto: Ontology, st: State, id: Id, new_: Statement, subject: Entity, now: Time): (r: set<Id>)
    ensures r <= st.statements.Keys && id !in r
  {
    if !onto.SingleValued(subject, new_.property) then {}
    else set i | i in Current(st, new_.subject, new_.property, now, false)
                 && i != id && st.statements[i].Start() <= new_.Start()
  }

  function ClosedAt(ss: Statements, ids: set<Id>, at: Time): Statements {
    map i | i in ids && i in ss :: ss[i].(validTo := Some(at))
  }

  /** One save: some records closed, then one record written. */
  function Saved(ss: Statements, closed: set<Id>, at: Time, id: Id, s: Statement): (ss': Statements)
    ensures ss'.Keys == ss.Keys + {id} && ss'[id] == s
    ensures forall i :: i in ss && i != id && i !in closed ==> ss'[i] == ss[i]
    ensures forall i :: i in ss && i != id && i in closed ==> ss'[i] == ss[i].(validTo := Some(at))
  {
    ss + ClosedAt(ss, closed, at) + map[id := s]
  }

  /** The new value points back at the newest record it displaced. */
  ghost function PlacedAs(ss: Statements, closed: set<Id>, new_: Statement): Statement
    requires closed <= ss.Keys
  {
    if closed == {} then new_ else new_.(supersedes := Some(Last(ss, closed)))
  }

  ghost function Place(onto: Ontology, st: State, id: Id, new_: Statement, subject: Entity, now: Time): State {
    var closed := Displaced(onto, st, id, new_, subject, now);
    st.(statements := Saved(st.statements, closed, new_.Start(), id, PlacedAs(st.statements, closed, new_)))
  }

  ghost function Alike(st: State, c: Claim, now: Time): set<Id> {
    set i | i in Current(st, c.subject, c.property, now, true)
            && st.statements[i].target == c.target && st.statements[i].literal == c.literal
  }

  function Reinforce(s: Statement, now: Time): Statement {
    s.(reinforced := if s.reinforced + 1 < 1 then 1 else s.reinforced + 1, lastReinforcedAt := Some(now))
  }

  function NewStatement(c: Claim, status: Status, validFrom: Option<Time>, now: Time): Statement {
    Statement(c.subject, c.property, c.target, c.literal, now, validFrom, None, None, status, None, None, 1, None)
  }

  ghost function Assert(onto: Ontology, st: State, id: Id, c: Claim, status: Status,
                        validFrom: Option<Time>, now: Time): Outcome<Id> {
    if status == Retracted then Outcome(st, Refused(BadStatus))
    else
      var subject := Lookup(st.entities, c.subject);
      if subject.Refused? then Outcome(st, Refused(subject.why))
      else
        var problem := ClaimProblem(onto, st.entities, subject.value, c);
        if problem.Some? then Outcome(st, Refused(problem.value))
        else
          var same := Alike(st, c, now);
          if same != {} then
            var i := First(st.statements, same);
            var st' := st.(statements := st.statements[i := Reinforce(st.statements[i], now)]);
            if status == Confirmed && st'.statements[i].status == Proposed then Confirm(onto, st', i, now)
            else Outcome(st', Ok(i))
          else
            var new_ := NewStatement(c, status, validFrom, now);
            if status == Confirmed then Outcome(Place(onto, st, id, new_, subject.value, now), Ok(id))
            else Outcome(st.(statements := st.statements[id := new_]), Ok(id))
  }

  ghost function Confirm(onto: Ontology, st: State, id: Id, now: Time): Outcome<Id> {
    if id !in st.statements then Outcome(st, Refused(Missing))
    else
      var s := st.statements[id];
      if s.status == Retracted then Outcome(st, Refused(AlreadyRetracted))
      else if s.status == Confirmed then Outcome(st, Ok(id))
      else
        var subject := Lookup(st.entities, s.subject);
        if subject.Refused? then Outcome(st, Refused(subject.why))
        else Outcome(Place(onto, st, id, s.(status := Confirmed), subject.value, now), Ok(id))
  }

  function Unconfirm(st: State, id: Id): Outcome<Id> {
    if id !in st.statements then Outcome(st, Refused(Missing))
    else if st.statements[id].status != Confirmed then Outcome(st, Ok(id))
    else Outcome(st.(statements := st.statements[id := st.statements[id].(status := Proposed)]), Ok(id))
  }

  function End(st: State, id: Id, at: Option<Time>, now: Time): Outcome<Id> {
    if id !in st.statements then Outcome(st, Refused(Missing))
    else
      var s := st.statements[id];
      var moment := if at.Some? then at.value else now;
      if s.status == Retracted then Outcome(st, Refused(AlreadyRetracted))
      else if s.validTo.Some? then Outcome(st, Refused(AlreadyEnded))
      else if moment <= s.Start() then Outcome(st, Refused(EndsBeforeStart))
      else Outcome(st.(statements := st.statements[id := s.(validTo := Some(moment))]), Ok(id))
  }

  /** The predecessor whose end was this statement's start: the one a retraction reopens. */
  predicate Reopens(ss: Statements, s: Statement) {
    s.supersedes.Some? && s.supersedes.value in ss
    && ss[s.supersedes.value].status == Confirmed
    && ss[s.supersedes.value].validTo == Some(s.Start())
  }

  function Withdrawn(s: Statement, reason: Option<string>, now: Time): Statement {
    s.(status := Retracted, retractedAt := Some(now), reason := reason)
  }

  function Retract(st: State, id: Id, reason: Option<string>, now: Time): Outcome<Id> {
    if id !in st.statements then Outcome(st, Refused(Missing))
    else
      var s := st.statements[id];
      if s.status == Retracted then Outcome(st, Ok(id))
      else
        var said := if reason.Some? && reason.value != "" then reason else s.reason;
        var reopened := if Reopens(st.statements, s)
                        then map[s.supersedes.value := st.statements[s.supersedes.value].(validTo := None)]
                        else map[];
        Outcome(st.(statements := st.statements + reopened + map[id := Withdrawn(s, said, now)]), Ok(id))
  }

  // ---------------------------------------------------------------- putting a statement back

  /** The open predecessor that a returning statement closes again. */
  predicate Recloses(ss: Statements, back: Statement) {
    back.supersedes.Some? && back.supersedes.value in ss
    && var p := ss[back.supersedes.value];
       p.status == Confirmed && p.validTo.None? && p.Start() <= back.Start()
  }

  ghost function Newer(onto: Ontology, st: State, id: Id, back: Statement, now: Time): (r: set<Id>)
    ensures r <= st.statements.Keys
  {
    if back.subject !in st.entities || !onto.SingleValued(st.entities[back.subject], back.property) then {}
    else set i | i in Current(st, back.subject, back.property, now, false)
                 && i != id && st.statements[i].recordedAt > back.recordedAt
  }

  ghost function EarliestStart(ss: Statements, ids: set<Id>): (t: Time)
    requires ids != {} && ids <= ss.Keys
    ensures forall j :: j in ids ==> t <= ss[j].Start()
    ensures exists i :: i in ids && t == ss[i].Start()
  {
    var less := (i, j) => i in ss && j in ss
                          && (ss[i].Start() < ss[j].Start() || (ss[i].Start() == ss[j].Start() && i < j));
    ss[Least(less, ids)].Start()
  }

  ghost function PutBack(onto: Ontology, st: State, id: Id, back: Statement, now: Time): Statements {
    if back.status != Confirmed || back.validTo.Some? then map[id := back]
    else Written(st.statements, Reclosed(st.statements, back), back.Start(), id,
                 ClosedByNewer(st.statements, Newer(onto, st, id, back, now), back))
  }

  function Reclosed(ss: Statements, back: Statement): (r: set<Id>)
    ensures r <= ss.Keys
  {
    if Recloses(ss, back) then {back.supersedes.value} else {}
  }

  ghost function ClosedByNewer(ss: Statements, newer: set<Id>, back: Statement): Statement
    requires newer <= ss.Keys
  {
    if newer == {} then back else back.(validTo := Some(EarliestStart(ss, newer)))
  }

  /** Only what is to be written: some records closed, and one more record. */
  function Written(ss: Statements, closed: set<Id>, at: Time, id: Id, s: Statement): (r: Statements)
    requires closed <= ss.Keys
    ensures r.Keys == closed + {id} && r[id] == s
    ensures forall i :: i in closed && i != id ==> r[i] == ss[i].(validTo := Some(at))
  {
    ClosedAt(ss, closed, at) + map[id := s]
  }

  ghost function Reinstate(onto: Ontology, st: State, id: Id, status: Status, reason: Option<string>, now: Time): Outcome<Id> {
    if id !in st.statements then Outcome(st, Refused(Missing))
    else
      var s := st.statements[id];
      if s.status != Retracted then Outcome(st, Refused(NotRetracted))
      else if status == Retracted then Outcome(st, Refused(BadStatus))
      else
        var subject := Lookup(st.entities, s.subject);
        if subject.Refused? then Outcome(st, Refused(subject.why))
        else if s.target.Some? && Lookup(st.entities, s.target.value).Refused? then
          Outcome(st, Refused(Lookup(st.entities, s.target.value).why))
        else
          var back := s.(status := status, retractedAt := None, reason := reason);
          Outcome(st.(statements := st.statements + PutBack(onto, st, id, back, now)), Ok(id))
  }

  // ---------------------------------------------------------------- removing an entity

  function Memo(ss: Statements, ids: seq<Id>): seq<(Id, Status, Option<string>)>
    requires forall i :: i in ids ==> i in ss
  {
    if ids == [] then [] else [(ids[0], ss[ids[0]].status, ss[ids[0]].reason)] + Memo(ss, ids[1..])
  }

  ghost function Live(st: State, e: Id, now: Time): set<Id> {
    set i | i in About(st, e) && st.statements[i].Holds(now)
  }

  ghost function Remove(st: State, e: Id, reason: string, now: Time): Outcome<Id> {
    if e == OWNER_ID then Outcome(st, Refused(OwnerStays))
    else
      var entity := Lookup(st.entities, e);
      if entity.Refused? then Outcome(st, Refused(entity.why))
      else
        var live := Live(st, e, now);
        var gone := entity.value.(removedAt := Some(now), removedReason := Some(reason),
                                  removedStatements := Memo(st.statements, Oldest(st.statements, live)));
        Outcome(st.(entities := st.entities[e := gone],
                    statements := st.statements + map i | i in live :: Withdrawn(st.statements[i], Some(reason), now)),
                Ok(e))
  }

  /** What a list of removal notes puts back, each judged against the store as it is. */
  ghost function PutBackAll(onto: Ontology, st: State, notes: seq<(Id, Status, Option<string>)>, now: Time): Statements {
    if notes == [] then map[]
    else
      var before := PutBackAll(onto, st, notes[..|notes| - 1], now);
      var (i, status, reason) := notes[|notes| - 1];
      if i in st.statements && st.statements[i].status == Retracted then
        before + PutBack(onto, st, i, st.statements[i].(status := status, retractedAt := None, reason := reason), now)
      else before
  }

  ghost function Restore(onto: Ontology, st: State, e: Id, now: Time): Outcome<Id> {
    if e !in st.entities then Outcome(st, Refused(Missing))
    else if st.entities[e].removedAt.None? then Outcome(st, Ok(e))
    else
      var notes := st.entities[e].removedStatements;
      var standing := st.entities[e].(removedAt := None, removedReason := None, removedStatements := []);
      Outcome(st.(entities := st.entities[e := standing],
                  statements := st.statements + PutBackAll(onto, st, notes, now)), Ok(e))
  }

  ghost function Delete(st: State, e: Id, now: Time): Outcome<Id> {
    if e !in st.entities then Outcome(st, Refused(Missing))
    else if st.entities[e].removedAt.None? then Outcome(st, Refused(NotRemoved))
    else if Group(st.entities, e) != {e} then Outcome(st, Refused(HasMembers))
    else if Live(st, e, now) != {} then Outcome(st, Refused(StillHolds))
    else
      Outcome(State(st.entities - {e}, st.statements - About(st, e),
                    map d | d in st.decisions && !st.decisions[d].Names(e) :: st.decisions[d]), Ok(e))
  }

  function Purge(st: State, ids: set<Id>, now: Time): Outcome<nat> {
    if !(ids <= st.statements.Keys) then Outcome(st, Refused(Missing))
    else if exists i :: i in ids && st.statements[i].Holds(now) then Outcome(st, Refused(StillHolds))
    else Outcome(st.(statements := st.statements - ids), Ok(|ids|))
  }

  // ---------------------------------------------------------------- identity

  function WithEntity(st: State, e: Id, class_: string, title: string, aliases: seq<string>, now: Time): State {
    st.(entities := st.entities[e := Entity(class_, title, FreshNames(aliases, {title, ""}), now, None, None, None, [])])
  }

  function AddRefusal(onto: Ontology, class_: string, name: string): Option<Refusal> {
    if Label(name) == "" then Some(EmptyLabel) else onto.ClassRefusal(class_)
  }

  function AddEntity(onto: Ontology, st: State, e: Id, class_: string, name: string, aliases: seq<string>, now: Time):
    Outcome<Id>
  {
    var refusal := AddRefusal(onto, class_, name);
    if refusal.Some? then Outcome(st, Refused(refusal.value))
    else Outcome(WithEntity(st, e, class_, Label(name), aliases, now), Ok(e))
  }

  /** Names in order, each once, without those taken. */
  function FreshNames(names: seq<string>, taken: set<string>): (r: seq<string>)
    ensures forall n :: n in r <==> n in names && n !in taken
  {
    if names == [] then []
    else if names[0] in taken then FreshNames(names[1..], taken)
    else [names[0]] + FreshNames(names[1..], taken + {names[0]})
  }

  function Without(names: seq<string>, gone: set<string>): (r: seq<string>)
    ensures forall n :: n in r <==> n in names && n !in gone
  {
    if names == [] then []
    else (if names[0] in gone then [] else [names[0]]) + Without(names[1..], gone)
  }

  function Set<T>(s: seq<T>): set<T> {
    set x | x in s
  }

  predicate DecidedEarlier(ds: map<Id, Decision>, i: Id, j: Id)
    requires i in ds && j in ds
  {
    ds[i].decidedAt < ds[j].decidedAt || (ds[i].decidedAt == ds[j].decidedAt && i < j)
  }

  /** The latest decision about an unordered pair. */
  ghost function DecisionBetween(ds: map<Id, Decision>, a: Id, b: Id): (r: Option<Id>)
    ensures r.None? <==> forall i :: i in ds ==> !ds[i].Between(a, b)
    ensures r.Some? ==> r.value in ds && ds[r.value].Between(a, b)
    ensures r.Some? ==> forall j :: j in ds && ds[j].Between(a, b) && j != r.value ==> DecidedEarlier(ds, j, r.value)
  {
    var ids := set i | i in ds && ds[i].Between(a, b);
    assert forall i :: i in ds && ds[i].Between(a, b) ==> i in ids;
    if ids == {} then None
    else Some(Least((i, j) => i in ds && j in ds && DecidedEarlier(ds, j, i), ids))
  }

  function Added(winner: Entity, loser: Entity): seq<string> {
    FreshNames([loser.name] + loser.aliases, {winner.name} + Set(winner.aliases))
  }

  ghost function MergeRefusal(onto: Ontology, st: State, keep: Id, fold: Id): Option<Refusal> {
    var winner, loser := Lookup(st.entities, keep), Lookup(st.entities, fold);
    if winner.Refused? then Some(winner.why)
    else if loser.Refused? then Some(loser.why)
    else if keep == fold then Some(WithItself)
    else
      var d := DecisionBetween(st.decisions, keep, fold);
      if d.Some? && st.decisions[d.value].verdict == Distinct then Some(MarkedDistinct)
      else if !onto.Related(loser.value.class_, winner.value.class_) then Some(UnrelatedClasses)
      else None
  }

  ghost function Merge(onto: Ontology, st: State, keep: Id, fold: Id, evidence: seq<string>, newId: Id, now: Time): Outcome<Id> {
    var refusal := MergeRefusal(onto, st, keep, fold);
    if refusal.Some? then Outcome(st, Refused(refusal.value))
    else
      var winner, loser := st.entities[keep], st.entities[fold];
      var previous := DecisionBetween(st.decisions, keep, fold);
      var seen := if previous.Some? then st.decisions[previous.value].evidence else [];
      var added := Added(winner, loser);
      var d := if previous.Some? then previous.value else newId;
      Outcome(st.(entities := st.entities[keep := winner.(aliases := winner.aliases + added)]
                                         [fold := loser.(mergedInto := Some(keep))],
                  decisions := st.decisions[d := Decision(keep, fold, Same, now, FreshNames(seen + evidence, {}), added)]),
              Ok(d))
  }

  function Unmerge(st: State, d: Id, now: Time): Outcome<Id> {
    if d !in st.decisions || st.decisions[d].verdict != Same then Outcome(st, Refused(NotAMerge))
    else
      var decision := st.decisions[d];
      if decision.a !in st.entities || decision.b !in st.entities then Outcome(st, Refused(Missing))
      else
        var winner, loser := st.entities[decision.a], st.entities[decision.b];
        Outcome(st.(entities := st.entities
                      [decision.a := winner.(aliases := Without(winner.aliases, Set(decision.addedAliases)))]
                      [decision.b := loser.(mergedInto := None)],
                    decisions := st.decisions[d := decision.(verdict := Undone, decidedAt := now)]),
                Ok(d))
  }

  ghost function MarkDistinct(st: State, a: Id, b: Id, newId: Id, now: Time): Outcome<Id> {
    var previous := DecisionBetween(st.decisions, a, b);
    if previous.Some? && st.decisions[previous.value].verdict == Same then Outcome(st, Refused(AreMerged))
    else
      var d := if previous.Some? then previous.value else newId;
      var seen := if previous.Some? then st.decisions[previous.value].evidence else [];
      Outcome(st.(decisions := st.decisions[d := Decision(a, b, Distinct, now, seen, [])]), Ok(d))
  }

  ghost function NoteCandidate(st: State, a: Id, b: Id, episode: Option<string>, newId: Id, now: Time): (State, Option<Id>) {
    var previous := DecisionBetween(st.decisions, a, b);
    if previous.Some? && st.decisions[previous.value].verdict in {Distinct, Same} then (st, None)
    else
      var seen := if previous.Some? then st.decisions[previous.value].evidence else [];
      var evidence := if episode.Some? && episode.value !in seen then seen + [episode.value] else seen;
      var d := if previous.Some? then previous.value else newId;
      var (x, y) := if previous.Some? then (st.decisions[previous.value].a, st.decisions[previous.value].b) else (a, b);
      (st.(decisions := st.decisions[d := Decision(x, y, Candidate, now, evidence, [])]), Some(d))
  }
}
