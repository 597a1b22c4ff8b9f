/** Which entity a name means: an exact lookup through the name index, look-alikes recorded as candidates, and the
    evidence that merges them. */
module Resolver {
  import opened Records
  import opened MergeForest
  import opened Orders
  import opened GraphSpec
  import opened Labels
  import opened Runs
  import opened IdentityLaws
  import opened MemoryGraph

  datatype How = Exact | Alias | New

  /** What the caller supplies: how names fold, how it normalises them, which names it finds alike. */
  datatype Naming = Naming(fold: string -> string, normalise: Option<string -> string>, alike: (string, string) -> bool)

  function Normal(n: Naming, name: string): string {
    if n.normalise.Some? then (n.normalise.value)(name) else name
  }

  function Keys(n: Naming, name: string): set<string> {
    {n.fold(name), n.fold(Normal(n, name))} - {""}
  }

  predicate Older(es: Entities, i: Id, j: Id)
    requires i in es && j in es
  {
    es[i].createdAt < es[j].createdAt || (es[i].createdAt == es[j].createdAt && i < j)
  }

  /** Entities standing alone, of a class related to the one asked for. */
  function LiveIn(onto: Ontology, es: Entities, class_: string): set<Id> {
    set i | i in es && es[i].Standing() && onto.Related(es[i].class_, class_)
  }

  /** The superclasses of a declared class are declared. */
  predicate Declared(onto: Ontology) {
    forall c, d | c in onto.classes && d in onto.classes[c] :: d in onto.classes
  }

  /** What the store's class index gives for the declared classes related to the one asked for. */
  function LiveByClass(onto: Ontology, es: Entities, class_: string): set<Id> {
    var classes := set c | c in onto.classes && onto.Related(c, class_);
    set i | i in es && es[i].Standing() && es[i].class_ in classes
  }

  /** The index and the scan of every entity give the same. */
  lemma ClassIndexIsComplete(onto: Ontology, es: Entities, class_: string)
    requires Declared(onto)
    ensures LiveByClass(onto, es, class_) == LiveIn(onto, es, class_)
  {
    forall c | onto.Related(c, class_)
      ensures c in onto.classes
    {
      if onto.IsSubclass(class_, c) {
        assert class_ in onto.classes && c in onto.classes[class_];
      }
    }
  }

  predicate IsNamed(n: Naming, e: Entity, wanted: set<string>) {
    Keys(n, e.name) * wanted != {} || exists a | a in e.aliases :: Keys(n, a) * wanted != {}
  }

  function Means(n: Naming, e: Entity, wanted: set<string>): How {
    if Keys(n, e.name) * wanted != {} then Exact else Alias
  }

  ghost function Eldest(es: Entities, ids: set<Id>): (i: Id)
    requires ids != {} && ids <= es.Keys
    ensures i in ids && forall j :: j in ids && j != i ==> Older(es, i, j)
  {
    Least((i, j) => i in es && j in es && Older(es, i, j), ids)
  }

  function Hits(onto: Ontology, n: Naming, es: Entities, name: string, class_: string): set<Id> {
    set i | i in LiveIn(onto, es, class_) && IsNamed(n, es[i], Keys(n, name))
  }

  /** The scan of every live entity: the oldest that carries the name. */
  ghost function Scan(onto: Ontology, n: Naming, es: Entities, name: string, class_: string): Option<(Id, How)> {
    var hits := Hits(onto, n, es, name, class_);
    if hits == {} then None
    else
      var i := Eldest(es, hits);
      Some((i, Means(n, es[i], Keys(n, name))))
  }

  predicate Carries(n: Naming, e: Entity, key: string) {
    n.fold(e.name) == key || exists a | a in e.aliases :: n.fold(a) == key
  }

  /** The store's name index: the entities one of whose names folds as the key does. */
  function Indexed(n: Naming, es: Entities, key: string): set<Id> {
    set i | i in es && Carries(n, es[i], n.fold(key))
  }

  ghost predicate FoldsOnce(n: Naming) {
    forall s :: n.fold(n.fold(s)) == n.fold(s)
  }

  /** With no normalisation the index answers alone: what it finds under the keys is what carries the name. */
  lemma IndexIsComplete(n: Naming, es: Entities, name: string, i: Id)
    requires n.normalise.None? && FoldsOnce(n) && i in es
    ensures (exists key | key in Keys(n, name) :: i in Indexed(n, es, key)) <==> IsNamed(n, es[i], Keys(n, name))
  {
    var wanted := Keys(n, name);
    assert forall x :: Keys(n, x) == {n.fold(x)} - {""};
    if IsNamed(n, es[i], wanted) {
      var key := n.fold(name);
      assert key in wanted;
      if Keys(n, es[i].name) * wanted == {} {
        var a :| a in es[i].aliases && Keys(n, a) * wanted != {};
        assert n.fold(a) == key;
      } else {
        assert n.fold(es[i].name) == key;
      }
      assert i in Indexed(n, es, key);
    }
    if key :| key in wanted && i in Indexed(n, es, key) {
      if n.fold(es[i].name) == n.fold(key) {
        assert n.fold(es[i].name) in Keys(n, es[i].name) * wanted;
      } else {
        var a :| a in es[i].aliases && n.fold(a) == n.fold(key);
        assert n.fold(a) in Keys(n, a) * wanted;
      }
    }
  }

  predicate Sorted(es: Entities, order: seq<Id>) {
    && (forall i <- order :: i in es)
    && (forall j, k :: 0 <= j < k < |order| ==> order[j] in es && order[k] in es && Older(es, order[j], order[k]))
  }

  lemma FirstIsScanned(onto: Ontology, n: Naming, es: Entities, name: string, class_: string, order: seq<Id>, k: nat)
    requires Sorted(es, order) && k < |order|
    requires order[k] in LiveIn(onto, es, class_) && IsNamed(n, es[order[k]], Keys(n, name))
    requires forall i :: i in LiveIn(onto, es, class_) && IsNamed(n, es[i], Keys(n, name)) ==> i in order
    requires forall j :: 0 <= j < k ==> !IsNamed(n, es[order[j]], Keys(n, name))
    ensures Scan(onto, n, es, name, class_) == Some((order[k], Means(n, es[order[k]], Keys(n, name))))
  {
    var hits := Hits(onto, n, es, name, class_);
    assert order[k] in hits;
    assert Scan(onto, n, es, name, class_).Some?;
    var i := Eldest(es, hits);
    assert i in hits && i in order;
    var m :| 0 <= m < |order| && order[m] == i;
    assert m >= k;
  }

  // ---- Evidence gathered --------------------------------------------------------------------------------------

  /** The two entities of a pair, the older name first. */
  function ByAge(es: Entities, a: Id, b: Id): (Id, Id)
    requires a in es && b in es
  {
    if Older(es, b, a) then (b, a) else (a, b)
  }

  predicate BothStand(es: Entities, a: Id, b: Id) {
    a in es && b in es && es[a].Standing() && es[b].Standing()
  }

  /** With evidence enough, a pair that still stands is merged under the older name. */
  ghost function MergeOnEvidence(onto: Ontology, st: State, a: Id, b: Id, evidence: seq<string>, enough: nat,
                                 newId: Id, now: Time): Outcome<bool>
  {
    if |evidence| < enough || !BothStand(st.entities, a, b) then Outcome(st, Ok(false))
    else
      var (keep, fold) := ByAge(st.entities, a, b);
      var out := Merge(onto, st, keep, fold, evidence, newId, now);
      Outcome(out.state, if out.result.Ok? then Ok(true) else Refused(out.result.why))
  }

  /** One decision about the entity, as it stood when the gathering began: a candidate gains the episode, and with
      evidence enough its two entities, if they still stand, are merged. */
  ghost function GatherOne(onto: Ontology, st: State, d: Decision, episode: Option<string>, enough: nat, newId: Id,
                           now: Time): Outcome<bool>
  {
    if d.verdict != Candidate then Outcome(st, Ok(false))
    else
      var (noted, id) := NoteCandidate(st, d.a, d.b, episode, newId, now);
      if id.None? then Outcome(noted, Ok(false))
      else MergeOnEvidence(onto, noted, d.a, d.b, noted.decisions[id.value].evidence, enough, newId + 1, now)
  }

  ghost function Gathered(onto: Ontology, st: State, ds: seq<Decision>, episode: Option<string>, enough: nat,
                          newId: Id, now: Time): Outcome<nat>
  {
    if ds == [] then Outcome(st, Ok(0))
    else
      var before := Gathered(onto, st, ds[..|ds| - 1], episode, enough, newId, now);
      if before.result.Refused? then before
      else
        var out := GatherOne(onto, before.state, ds[|ds| - 1], episode, enough, newId + 2 * (|ds| - 1), now);
        Outcome(out.state, if out.result.Refused? then Refused(out.result.why)
                           else Ok(before.result.value + (if out.result.value then 1 else 0)))
  }

  // ---- What resolving keeps -----------------------------------------------------------------------------------

  predicate Pair(onto: Ontology, es: Entities, a: Id, b: Id) {
    a != b && a in es && b in es && onto.Related(es[a].class_, es[b].class_)
  }

  /** Every pair not marked apart is of two entities that exist and could be one. */
  ghost predicate Recorded(onto: Ontology, st: State) {
    forall d :: d in st.decisions && st.decisions[d].verdict != Distinct ==>
      Pair(onto, st.entities, st.decisions[d].a, st.decisions[d].b)
  }

  ghost predicate Below(ds: map<Id, Decision>, next: Id) {
    forall d :: d in ds ==> d < next
  }

  /** Where an entity's merges lead still stands. */
  predicate Stands(es: Entities, e: Id) {
    Canon(es, e) in es && es[Canon(es, e)].Standing()
  }

  lemma NoteKeepsRecorded(onto: Ontology, st: State, a: Id, b: Id, episode: Option<string>, newId: Id, now: Time)
    requires Identity(st) && Recorded(onto, st) && newId !in st.decisions
    requires DecisionBetween(st.decisions, a, b).Some? || Pair(onto, st.entities, a, b)
    ensures var (st', d) := NoteCandidate(st, a, b, episode, newId, now);
      && Identity(st') && Recorded(onto, st') && st'.entities == st.entities
      && st'.decisions.Keys <= st.decisions.Keys + {newId}
  {
    NoteStep(st, a, b, episode, newId, now);
    hide Identity, KeepsNames, DecisionBetween;
    KeptNamesIsIdentity(st, NoteCandidate(st, a, b, episode, newId, now).0);
  }

  lemma KeptNamesIsIdentity(st: State, st': State)
    requires KeepsNames(st, st')
    ensures Identity(st')
  {
  }

  lemma NotedIsCandidate(st: State, a: Id, b: Id, episode: Option<string>, newId: Id, now: Time)
    requires OnePerPair(st.decisions) && newId !in st.decisions
    ensures var (st', d) := NoteCandidate(st, a, b, episode, newId, now);
      d.Some? ==> DecisionBetween(st'.decisions, a, b) == d && st'.decisions[d.value].verdict == Candidate
  {
    var (st', d) := NoteCandidate(st, a, b, episode, newId, now);
    if d.Some? {
      OneMoreDecision(st.decisions, a, b, newId, st'.decisions[d.value]);
      assert st'.decisions[d.value].Between(a, b);
    }
  }

  lemma SamePairSameDecision(ds: map<Id, Decision>, a: Id, b: Id)
    ensures DecisionBetween(ds, a, b) == DecisionBetween(ds, b, a)
  {
    assert forall d :: d in ds ==> (ds[d].Between(a, b) <==> ds[d].Between(b, a));
  }

  lemma MergedRecorded(onto: Ontology, st: State, st': State, keep: Id, fold: Id, d: Id, added: seq<string>)
    requires Recorded(onto, st) && Merged(st, st', keep, fold, d, added)
    requires onto.Related(st.entities[fold].class_, st.entities[keep].class_)
    ensures Recorded(onto, st')
  {
    assert forall e :: e in st.entities ==> st'.entities[e].class_ == st.entities[e].class_;
  }

  lemma MergedStands(st: State, st': State, keep: Id, fold: Id, d: Id, added: seq<string>, e: Id)
    requires Forest(st.entities) && Merged(st, st', keep, fold, d, added)
    requires e in st.entities && Stands(st.entities, e)
    ensures Stands(st'.entities, e)
  {
    MergeMovesCanon(st.entities, st'.entities, keep, fold, e);
    hide Forest, Canon;
  }

  lemma MergeKeepsRecorded(onto: Ontology, st: State, keep: Id, fold: Id, evidence: seq<string>, newId: Id, now: Time,
                           e: Id)
    requires Identity(st) && Recorded(onto, st) && newId !in st.decisions
    ensures var st' := Merge(onto, st, keep, fold, evidence, newId, now).state;
      && Identity(st') && Recorded(onto, st') && st'.entities.Keys == st.entities.Keys
      && st'.decisions.Keys <= st.decisions.Keys + {newId}
      && (e in st.entities && Stands(st.entities, e) ==> Stands(st'.entities, e))
  {
    var out := Merge(onto, st, keep, fold, evidence, newId, now);
    MergeKeepsIdentity(onto, st, keep, fold, evidence, newId, now);
    KeptNamesIsIdentity(st, out.state);
    IdentityIsForest(st);
    hide Identity, KeepsNames, DecisionBetween, FreshNames, Merged, Recorded, Stands, Forest, OnePerPair;
    if MergeRefusal(onto, st, keep, fold).None? {
      MergeMerges(onto, st, keep, fold, evidence, newId, now);
      var added := Added(st.entities[keep], st.entities[fold]);
      MergedRecorded(onto, st, out.state, keep, fold, out.result.value, added);
      if e in st.entities && Stands(st.entities, e) {
        MergedStands(st, out.state, keep, fold, out.result.value, added, e);
      }
    }
  }

  lemma NoRefusal(onto: Ontology, st: State, keep: Id, fold: Id)
    requires Pair(onto, st.entities, keep, fold) && BothStand(st.entities, keep, fold)
    requires var d := DecisionBetween(st.decisions, keep, fold);
      d.Some? ==> st.decisions[d.value].verdict != Distinct
    ensures MergeRefusal(onto, st, keep, fold).None?
  {
    hide DecisionBetween;
  }

  lemma MergesUnlessRefused(onto: Ontology, st: State, keep: Id, fold: Id, evidence: seq<string>, newId: Id, now: Time)
    ensures Merge(onto, st, keep, fold, evidence, newId, now).result.Ok? <==> MergeRefusal(onto, st, keep, fold).None?
  {
    hide DecisionBetween, FreshNames, MergeRefusal;
  }

  lemma IdentityIsForest(st: State)
    requires Identity(st)
    ensures Forest(st.entities) && OnePerPair(st.decisions)
  {
  }

  lemma MergeOnEvidenceKeeps(onto: Ontology, st: State, a: Id, b: Id, evidence: seq<string>, enough: nat, newId: Id,
                             now: Time, e: Id)
    requires Identity(st) && Recorded(onto, st) && newId !in st.decisions && Pair(onto, st.entities, a, b)
    requires var d := DecisionBetween(st.decisions, a, b);
      d.Some? ==> st.decisions[d.value].verdict != Distinct
    ensures var out := MergeOnEvidence(onto, st, a, b, evidence, enough, newId, now);
      && out.result.Ok? && Identity(out.state) && Recorded(onto, out.state)
      && out.state.decisions.Keys <= st.decisions.Keys + {newId}
      && out.state.entities.Keys == st.entities.Keys
      && (e in st.entities && Stands(st.entities, e) ==> Stands(out.state.entities, e))
  {
    hide Identity, DecisionBetween, Forest, Stands, Recorded, Merge, MergeRefusal;
    if |evidence| >= enough && BothStand(st.entities, a, b) {
      var (keep, fold) := ByAge(st.entities, a, b);
      SamePairSameDecision(st.decisions, a, b);
      NoRefusal(onto, st, keep, fold);
      MergesUnlessRefused(onto, st, keep, fold, evidence, newId, now);
      MergeKeepsRecorded(onto, st, keep, fold, evidence, newId, now, e);
    }
  }

  /** From a state whose open pairs are of two related entities, gathering never meets a refusal. */
  lemma GatherOneKeeps(onto: Ontology, st: State, d: Decision, episode: Option<string>, enough: nat, newId: Id,
                       now: Time, e: Id)
    requires Identity(st) && Recorded(onto, st) && Below(st.decisions, newId)
    requires d.verdict == Candidate ==> Pair(onto, st.entities, d.a, d.b)
    ensures var out := GatherOne(onto, st, d, episode, enough, newId, now);
      && out.result.Ok? && Identity(out.state) && Recorded(onto, out.state) && Below(out.state.decisions, newId + 2)
      && out.state.entities.Keys == st.entities.Keys
      && (e in st.entities && Stands(st.entities, e) ==> Stands(out.state.entities, e))
  {
    hide Identity, OnePerPair, DecisionBetween, Forest, Stands, Recorded, NoteCandidate, MergeOnEvidence, Pair;
    if d.verdict == Candidate {
      var (noted, id) := NoteCandidate(st, d.a, d.b, episode, newId, now);
      IdentityIsForest(st);
      NoteKeepsRecorded(onto, st, d.a, d.b, episode, newId, now);
      NotedIsCandidate(st, d.a, d.b, episode, newId, now);
      if id.Some? {
        MergeOnEvidenceKeeps(onto, noted, d.a, d.b, noted.decisions[id.value].evidence, enough, newId + 1, now, e);
      }
    }
  }

  predicate Classed(es: Entities, es': Entities) {
    es.Keys <= es'.Keys && forall e :: e in es ==> es'[e].class_ == es[e].class_
  }

  lemma GatherOneKeepsClasses(onto: Ontology, st: State, d: Decision, episode: Option<string>, enough: nat, newId: Id,
                              now: Time)
    ensures Classed(st.entities, GatherOne(onto, st, d, episode, enough, newId, now).state.entities)
  {
    hide DecisionBetween, FreshNames, Added, Merge;
    if d.verdict == Candidate {
      var (noted, id) := NoteCandidate(st, d.a, d.b, episode, newId, now);
      assert noted.entities == st.entities;
      if id.Some? && |noted.decisions[id.value].evidence| >= enough && BothStand(noted.entities, d.a, d.b) {
        var (keep, fold) := ByAge(noted.entities, d.a, d.b);
        MergeKeepsClasses(onto, noted, keep, fold, noted.decisions[id.value].evidence, newId + 1, now);
      }
    }
  }

  lemma MergeKeepsClasses(onto: Ontology, st: State, keep: Id, fold: Id, evidence: seq<string>, newId: Id, now: Time)
    ensures Classed(st.entities, Merge(onto, st, keep, fold, evidence, newId, now).state.entities)
  {
    hide DecisionBetween, FreshNames, Added;
  }

  /** Nor does the whole gathering; and what the entity is merged into, if it stood before, stands after. */
  lemma {:induction false} GatheredKeeps(onto: Ontology, st: State, ds: seq<Decision>, episode: Option<string>,
                                         enough: nat, newId: Id, now: Time, e: Id)
    requires Identity(st) && Recorded(onto, st) && Below(st.decisions, newId)
    requires forall d <- ds :: d.verdict == Candidate ==> Pair(onto, st.entities, d.a, d.b)
    ensures var out := Gathered(onto, st, ds, episode, enough, newId, now);
      && out.result.Ok? && Identity(out.state) && Recorded(onto, out.state)
      && Below(out.state.decisions, newId + 2 * |ds|)
      && out.state.entities.Keys == st.entities.Keys && Classed(st.entities, out.state.entities)
      && (e in st.entities && Stands(st.entities, e) ==> Stands(out.state.entities, e))
  {
    hide Identity, Recorded, GatherOne, Stands;
    if ds != [] {
      var front, d := ds[..|ds| - 1], ds[|ds| - 1];
      GatheredKeeps(onto, st, front, episode, enough, newId, now, e);
      var before := Gathered(onto, st, front, episode, enough, newId, now);
      var next := newId + 2 * (|ds| - 1);
      GatherOneKeeps(onto, before.state, d, episode, enough, next, now, e);
      GatherOneKeepsClasses(onto, before.state, d, episode, enough, next, now);
    }
  }

  // ---- Open pairs over whole runs -----------------------------------------------------------------------------

  lemma SameDecisionsKeepRecorded(onto: Ontology, st: State, st': State)
    requires Recorded(onto, st) && st'.decisions == st.decisions && Classed(st.entities, st'.entities)
    ensures Recorded(onto, st')
  {
  }

  lemma StatementStepsKeepEntities(onto: Ontology, st: State, op: Op, now: Time)
    requires !op.AddOp? && !op.DeleteOp? && !op.MergeOp? && !op.UnmergeOp? && !op.DistinctOp? && !op.NoteOp?
    ensures Step(onto, st, op, now).decisions == st.decisions
    ensures Classed(st.entities, Step(onto, st, op, now).entities)
  {
    hide ClaimProblem, Displaced, Saved, PlacedAs, Alike, PutBack, PutBackAll, Live, Memo, Oldest, First, NewStatement,
      Reinforce, Withdrawn, Reopens;
  }

  lemma DeleteKeepsRecorded(onto: Ontology, st: State, e: Id, now: Time)
    requires Recorded(onto, st)
    ensures Recorded(onto, Delete(st, e, now).state)
  {
    hide Live, About, Group;
  }

  lemma UnmergeKeepsRecorded(onto: Ontology, st: State, d: Id, now: Time)
    requires Recorded(onto, st)
    ensures Recorded(onto, Unmerge(st, d, now).state)
  {
    hide Without;
  }

  lemma DistinctKeepsRecorded(onto: Ontology, st: State, a: Id, b: Id, newId: Id, now: Time)
    requires Recorded(onto, st)
    ensures Recorded(onto, MarkDistinct(st, a, b, newId, now).state)
  {
    hide DecisionBetween;
  }

  /** Look-alikes are noted only about two entities that could be one, as resolving does. */
  predicate NotesPairs(onto: Ontology, st: State, op: Op) {
    op.NoteOp? ==> Pair(onto, st.entities, op.a, op.b)
  }

  /** Every operation keeps the open pairs so. */
  lemma StepKeepsRecorded(onto: Ontology, st: State, op: Op, now: Time)
    requires Identity(st) && Recorded(onto, st) && NotesPairs(onto, st, op)
    ensures Identity(Step(onto, st, op, now)) && Recorded(onto, Step(onto, st, op, now))
  {
    StepKeepsIdentity(onto, st, op, now);
    KeptNamesIsIdentity(st, Step(onto, st, op, now));
    hide Identity, Recorded, KeepsNames, Assert, Confirm, Unconfirm, End, Retract, Reinstate, Purge, Remove, Restore,
      Delete, Merge, Unmerge, MarkDistinct, NoteCandidate;
    if FreshIds(st, op) {
      match op
      case DeleteOp(e) => DeleteKeepsRecorded(onto, st, e, now);
      case MergeOp(k, f, ev, d) => MergeKeepsRecorded(onto, st, k, f, ev, d, now, k);
      case UnmergeOp(d) => UnmergeKeepsRecorded(onto, st, d, now);
      case DistinctOp(a, b, d) => DistinctKeepsRecorded(onto, st, a, b, d, now);
      case NoteOp(a, b, ep, d) => NoteKeepsRecorded(onto, st, a, b, ep, d, now);
      case AddOp(e, c, n, al) => SameDecisionsKeepRecorded(onto, st, AddEntity(onto, st, e, c, n, al, now).state);
      case _ =>
        StatementStepsKeepEntities(onto, st, op, now);
        SameDecisionsKeepRecorded(onto, st, Step(onto, st, op, now));
    }
  }

  // ---- The resolver -------------------------------------------------------------------------------------------

  /** The decisions naming an entity, each once, in the order the store lists them. */
  ghost predicate Listed(ds: map<Id, Decision>, e: Id, order: seq<Id>) {
    && (forall d :: d in order <==> d in ds && ds[d].Names(e))
    && (forall j, k :: 0 <= j < k < |order| ==> order[j] != order[k])
  }

  function Read(ds: map<Id, Decision>, order: seq<Id>): (r: seq<Decision>)
    requires forall d <- order :: d in ds
    ensures |r| == |order| && forall k :: 0 <= k < |r| ==> r[k] == ds[order[k]]
  {
    seq(|order|, k requires 0 <= k < |order| => ds[order[k]])
  }

  /** One candidate for every live entity alike, other than the one just made. */
  predicate IsAlike(n: Naming, e: Entity, name: string) {
    || n.alike(Normal(n, name), Normal(n, e.name))
    || exists a | a in e.aliases :: n.alike(Normal(n, name), Normal(n, a))
  }

  function LookAlikes(onto: Ontology, n: Naming, es: Entities, name: string, class_: string, e: Id): set<Id> {
    set i | i in LiveIn(onto, es, class_) && i != e && IsAlike(n, es[i], name)
  }

  lemma GatherOneIds(onto: Ontology, st: State, d: Decision, episode: Option<string>, enough: nat, newId: Id, now: Time)
    requires Below(st.decisions, newId)
    ensures Below(GatherOne(onto, st, d, episode, enough, newId, now).state.decisions, newId + 2)
  {
    hide DecisionBetween, FreshNames, MergeRefusal;
  }

  datatype Resolution = Resolution(target: Id, how: How, created: bool)

  /** No record names the id yet. */
  ghost predicate Unused(st: State, e: Id) {
    e !in st.entities && forall d :: d in st.decisions ==> !st.decisions[d].Names(e)
  }

  predicate NotedWith(d: Decision, i: Id, e: Id, episode: Option<string>) {
    && d.a == i && d.b == e && d.verdict == Candidate
    && d.evidence == (if episode.Some? then [episode.value] else [])
  }

  /** What noting look-alikes of `e` adds: one candidate for each of them, and nothing else. */
  ghost predicate CandidatesFor(ds: map<Id, Decision>, ds': map<Id, Decision>, alike: set<Id>, e: Id,
                                episode: Option<string>)
  {
    && (forall d :: d in ds ==> d in ds' && ds'[d] == ds[d])
    && (forall d :: d in ds' && d !in ds ==> ds'[d].a in alike && NotedWith(ds'[d], ds'[d].a, e, episode))
    && (forall c, d :: c in ds' && d in ds' && c !in ds && d !in ds && c != d ==> ds'[c].a != ds'[d].a)
    && (forall i :: i in alike ==> IsNoted(ds, ds', i, e, episode))
  }

  predicate IsNoted(ds: map<Id, Decision>, ds': map<Id, Decision>, i: Id, e: Id, episode: Option<string>) {
    exists d | d in ds' :: d !in ds && NotedWith(ds'[d], i, e, episode)
  }

  lemma NothingBetween(ds: map<Id, Decision>, ds': map<Id, Decision>, alike: set<Id>, i: Id, e: Id,
                       episode: Option<string>)
    requires CandidatesFor(ds, ds', alike, e, episode) && i !in alike && i != e && e !in alike
    requires forall d :: d in ds ==> !ds[d].Names(e)
    ensures DecisionBetween(ds', i, e).None?
  {
    forall d | d in ds'
      ensures !ds'[d].Between(i, e)
    {
      if d in ds {
        assert !ds[d].Names(e);
        assert e in {i, e};
      } else {
        assert i in {i, e};
        assert ds'[d].a in alike && ds'[d].b == e;
      }
    }
  }

  lemma NotedStays(ds: map<Id, Decision>, ds': map<Id, Decision>, i: Id, e: Id, episode: Option<string>, newId: Id,
                   noted: Decision)
    requires newId !in ds'
    ensures IsNoted(ds, ds', i, e, episode) ==> IsNoted(ds, ds'[newId := noted], i, e, episode)
    ensures newId !in ds && NotedWith(noted, i, e, episode) ==> IsNoted(ds, ds'[newId := noted], i, e, episode)
  {
    var more := ds'[newId := noted];
    if IsNoted(ds, ds', i, e, episode) {
      var d :| d in ds' && d !in ds && NotedWith(ds'[d], i, e, episode);
      assert d in more && NotedWith(more[d], i, e, episode);
    }
    if newId !in ds && NotedWith(noted, i, e, episode) {
      assert newId in more && NotedWith(more[newId], i, e, episode);
    }
  }

  lemma CandidateAdded(ds: map<Id, Decision>, ds': map<Id, Decision>, alike: set<Id>, i: Id, e: Id,
                       episode: Option<string>, newId: Id, noted: Decision)
    requires CandidatesFor(ds, ds', alike, e, episode) && i !in alike && newId !in ds'
    requires NotedWith(noted, i, e, episode)
    ensures CandidatesFor(ds, ds'[newId := noted], alike + {i}, e, episode)
  {
    hide IsNoted;
    forall x | x in alike + {i}
      ensures IsNoted(ds, ds'[newId := noted], x, e, episode)
    {
      NotedStays(ds, ds', x, e, episode, newId, noted);
    }
  }

  lemma OneMoreCandidate(st: State, ds: map<Id, Decision>, alike: set<Id>, i: Id, e: Id, episode: Option<string>,
                         newId: Id, now: Time)
    requires CandidatesFor(ds, st.decisions, alike, e, episode) && i !in alike && newId !in st.decisions
    requires forall d :: d in ds ==> !ds[d].Names(e)
    requires i != e && e !in alike
    ensures CandidatesFor(ds, NoteCandidate(st, i, e, episode, newId, now).0.decisions, alike + {i}, e, episode)
  {
    hide CandidatesFor, DecisionBetween, IsNoted, NoteCandidate;
    NothingBetween(ds, st.decisions, alike, i, e, episode);
    FirstNote(st, i, e, episode, newId, now);
    CandidateAdded(ds, st.decisions, alike, i, e, episode, newId, FreshCandidate(i, e, episode, now));
  }

  function FreshCandidate(i: Id, e: Id, episode: Option<string>, now: Time): (d: Decision)
    ensures NotedWith(d, i, e, episode)
  {
    Decision(i, e, Candidate, now, if episode.Some? then [episode.value] else [], [])
  }

  lemma FirstNote(st: State, i: Id, e: Id, episode: Option<string>, newId: Id, now: Time)
    requires DecisionBetween(st.decisions, i, e).None?
    ensures NoteCandidate(st, i, e, episode, newId, now).0.decisions
         == st.decisions[newId := FreshCandidate(i, e, episode, now)]
  {
    hide DecisionBetween;
    assert episode.Some? ==> [] + [episode.value] == [episode.value];
  }

  // ---- One resolution -----------------------------------------------------------------------------------------

  datatype Request = Request(name: string, class_: string, episode: Option<string>, newEntity: Id, newId: Id)

  /** The state and the answer after a request: what the scan finds is gathered, its decisions listed in some order, and
      followed through its merges; what it does not find is new, with one candidate for each look-alike, or refused when
      it cannot be added. */
  ghost predicate Resolves(onto: Ontology, n: Naming, enough: nat, st: State, q: Request, now: Time, st': State,
                           r: Result<Resolution>, order: seq<Id>)
  {
    var found := Scan(onto, n, st.entities, q.name, q.class_);
    if found.Some? then
      && Listed(st.decisions, found.value.0, order)
      && var out := Gathered(onto, st, Read(st.decisions, order), q.episode, enough, q.newId, now);
      && st' == out.state
      && r == if out.result.Refused? then Refused(out.result.why)
              else Ok(Resolution(Canon(st'.entities, found.value.0), found.value.1, false))
    else if AddRefusal(onto, q.class_, q.name).Some? then
      st' == st && r == Refused(AddRefusal(onto, q.class_, q.name).value)
    else
      && st'.entities == WithEntity(st, q.newEntity, q.class_, Label(q.name), [], now).entities
      && st'.statements == st.statements
      && CandidatesFor(st.decisions, st'.decisions, LookAlikes(onto, n, st'.entities, q.name, q.class_, q.newEntity),
                       q.newEntity, q.episode)
      && r == Ok(Resolution(q.newEntity, New, true))
  }

  lemma CandidatesKeepPairs(ds: map<Id, Decision>, ds': map<Id, Decision>, alike: set<Id>, e: Id, episode: Option<string>)
    requires OnePerPair(ds) && CandidatesFor(ds, ds', alike, e, episode) && e !in alike
    requires forall d :: d in ds ==> !ds[d].Names(e)
    ensures OnePerPair(ds')
  {
    hide IsNoted;
    forall i, j | i in ds' && j in ds' && i != j
      ensures !ds'[i].Between(ds'[j].a, ds'[j].b)
    {
      if i in ds && j in ds {
      } else if i in ds {
        assert !ds[i].Names(e) && ds'[j].b == e;
      } else if j in ds {
        assert !ds[j].Names(e) && ds'[i].b == e;
      } else {
        assert ds'[i].a != ds'[j].a && ds'[i].a != e;
      }
    }
  }

  lemma CandidatesKeepSame(st: State, st': State, alike: set<Id>, e: Id, episode: Option<string>)
    requires SameIsMerged(st) && AddedApart(st) && st'.entities == st.entities
    requires CandidatesFor(st.decisions, st'.decisions, alike, e, episode)
    ensures SameIsMerged(st') && AddedApart(st')
  {
    hide IsNoted;
    assert forall d :: d in st'.decisions && st'.decisions[d].verdict == Same ==> d in st.decisions;
    forall b | b in st'.entities && st'.entities[b].mergedInto.Some?
      ensures exists d :: Merges(st'.decisions, d, st'.entities[b].mergedInto.value, b)
    {
      var d :| Merges(st.decisions, d, st.entities[b].mergedInto.value, b);
      assert Merges(st'.decisions, d, st'.entities[b].mergedInto.value, b);
    }
  }

  lemma CandidatesKeepIdentity(st: State, st': State, alike: set<Id>, e: Id, episode: Option<string>)
    requires Identity(st) && st'.entities == st.entities && st'.statements == st.statements && e !in alike
    requires CandidatesFor(st.decisions, st'.decisions, alike, e, episode)
    requires forall d :: d in st.decisions ==> !st.decisions[d].Names(e)
    ensures Identity(st')
  {
    hide Forest, CandidatesFor, OnePerPair, SameIsMerged, AddedApart;
    CandidatesKeepPairs(st.decisions, st'.decisions, alike, e, episode);
    CandidatesKeepSame(st, st', alike, e, episode);
  }

  lemma MadeKeeps(onto: Ontology, n: Naming, st: State, q: Request, now: Time, st': State)
    requires Identity(st) && Recorded(onto, st) && Unused(st, q.newEntity)
    requires AddRefusal(onto, q.class_, q.name).None?
    requires st'.entities == WithEntity(st, q.newEntity, q.class_, Label(q.name), [], now).entities
    requires st'.statements == st.statements
    requires CandidatesFor(st.decisions, st'.decisions, LookAlikes(onto, n, st'.entities, q.name, q.class_, q.newEntity),
                           q.newEntity, q.episode)
    ensures Identity(st') && Recorded(onto, st')
  {
    hide Identity, CandidatesFor, FreshNames, Label;
    var mid := AddEntity(onto, st, q.newEntity, q.class_, q.name, [], now).state;
    AddStep(onto, st, q.newEntity, q.class_, q.name, [], now);
    KeptNamesIsIdentity(st, mid);
    var alike := LookAlikes(onto, n, st'.entities, q.name, q.class_, q.newEntity);
    CandidatesKeepIdentity(mid, st', alike, q.newEntity, q.episode);
    CandidatesArePairs(onto, st, st', alike, q.newEntity, q.episode);
  }

  lemma CandidatesArePairs(onto: Ontology, st: State, st': State, alike: set<Id>, e: Id, episode: Option<string>)
    requires Recorded(onto, st) && Classed(st.entities, st'.entities) && e in st'.entities && e !in alike
    requires forall i :: i in alike ==> i in st'.entities && onto.Related(st'.entities[i].class_, st'.entities[e].class_)
    requires CandidatesFor(st.decisions, st'.decisions, alike, e, episode)
    ensures Recorded(onto, st')
  {
    hide IsNoted, Ontology.Related;
  }

  /** What cannot be added: a blank name, or a class that is undeclared, abstract or deprecated. */
  predicate Unaddable(onto: Ontology, class_: string, name: string) {
    Blank(name) || class_ !in onto.classes || class_ in onto.abstracts || class_ in onto.outdated
  }

  lemma RefusedIff(onto: Ontology, class_: string, name: string)
    ensures AddRefusal(onto, class_, name).Some? <==> Unaddable(onto, class_, name)
  {
    EmptyLabelIff(name);
  }

  /** From sound open pairs a request is refused exactly when nothing carries the name and it cannot be added. Otherwise
      what it gives stands unmerged. Either way the open pairs stay sound. */
  lemma ResolvingKeeps(onto: Ontology, n: Naming, enough: nat, st: State, q: Request, now: Time, st': State,
                       r: Result<Resolution>, order: seq<Id>)
    requires Identity(st) && Recorded(onto, st) && Below(st.decisions, q.newId) && Unused(st, q.newEntity)
    requires Resolves(onto, n, enough, st, q, now, st', r, order)
    ensures r.Refused? <==> Scan(onto, n, st.entities, q.name, q.class_).None? && Unaddable(onto, q.class_, q.name)
    ensures r.Ok? ==> r.value.target in st'.entities && st'.entities[r.value.target].Standing()
    ensures r.Refused? ==> st' == st
    ensures Identity(st') && Recorded(onto, st')
  {
    hide Identity, Recorded, CandidatesFor, Gathered, Scan, Below, LookAlikes, AddRefusal, Unaddable, Label;
    RefusedIff(onto, q.class_, q.name);
    var found := Scan(onto, n, st.entities, q.name, q.class_);
    ScanStands(onto, n, st, q.name, q.class_);
    if found.Some? {
      ReadPairs(onto, st, order, found.value.0);
      GatheredKeeps(onto, st, Read(st.decisions, order), q.episode, enough, q.newId, now, found.value.0);
    } else if AddRefusal(onto, q.class_, q.name).None? {
      MadeKeeps(onto, n, st, q, now, st');
    }
  }

  class Resolver {
    const graph: MemoryGraph
    const naming: Naming
    const enough: nat
    const indexed: bool

    constructor (graph: MemoryGraph, naming: Naming, evidenceEpisodes: nat, indexed: bool)
      ensures this.graph == graph && this.naming == naming && this.indexed == indexed
      ensures enough >= 1 && (evidenceEpisodes >= 1 ==> enough == evidenceEpisodes)
    {
      this.graph, this.naming, this.indexed := graph, naming, indexed;
      enough := if evidenceEpisodes >= 1 then evidenceEpisodes else 1;
    }

    method OldestFirst(ids: set<Id>) returns (order: seq<Id>)
      requires ids <= graph.entities.Keys
      ensures Sorted(graph.entities, order) && forall i :: i in order <==> i in ids
    {
      order := [];
      var rest := ids;
      while rest != {}
        invariant rest <= ids && Sorted(graph.entities, order)
        invariant forall i :: i in ids <==> i in order || i in rest
        invariant forall i, j :: i in order && j in rest ==> Older(graph.entities, i, j)
        decreases |rest|
      {
        var i := EldestOf(rest);
        order := order + [i];
        rest := rest - {i};
      }
    }

    method EldestOf(ids: set<Id>) returns (i: Id)
      requires ids != {} && ids <= graph.entities.Keys
      ensures i in ids && forall j :: j in ids && j != i ==> Older(graph.entities, i, j)
    {
      i :| i in ids;
      var rest := ids - {i};
      while rest != {}
        invariant rest <= ids && i in ids - rest
        invariant forall j :: j in ids - rest && j != i ==> Older(graph.entities, i, j)
        decreases |rest|
      {
        var j :| j in rest;
        var best := if Older(graph.entities, j, i) then j else i;
        forall k | k in ids - (rest - {j}) && k != best
          ensures Older(graph.entities, best, k)
        {
          assert k == j || k == i || (k in ids - rest && Older(graph.entities, i, k));
        }
        i, rest := best, rest - {j};
      }
    }

    /** Every live entity of a related class, oldest first: asked of the store by class when it is indexed. */
    method LiveEntities(class_: string) returns (order: seq<Id>)
      requires indexed ==> Declared(graph.onto)
      ensures Sorted(graph.entities, order)
      ensures forall i :: i in order <==> i in LiveIn(graph.onto, graph.entities, class_)
    {
      if indexed {
        ClassIndexIsComplete(graph.onto, graph.entities, class_);
        order := OldestFirst(LiveByClass(graph.onto, graph.entities, class_));
      } else {
        order := OldestFirst(LiveIn(graph.onto, graph.entities, class_));
      }
    }

    /** The live entities the name index gives for the keys, oldest first. */
    method Named(keys: set<string>, class_: string) returns (order: seq<Id>)
      ensures Sorted(graph.entities, order)
      ensures forall i :: i in order <==> (i in LiveIn(graph.onto, graph.entities, class_)
                          && exists key | key in keys :: i in Indexed(naming, graph.entities, key))
    {
      var found, rest := {}, keys;
      while rest != {}
        invariant rest <= keys
        invariant forall i :: i in found <==> (i in LiveIn(graph.onto, graph.entities, class_)
                              && exists key | key in keys - rest :: i in Indexed(naming, graph.entities, key))
        decreases |rest|
      {
        var key :| key in rest;
        rest := rest - {key};
        found := found + (Indexed(naming, graph.entities, key) * LiveIn(graph.onto, graph.entities, class_));
      }
      assert keys - rest == keys;
      order := OldestFirst(found);
    }

    method FindIn(live: seq<Id>, wanted: set<string>) returns (r: Option<(Id, How)>)
      requires forall i <- live :: i in graph.entities
      ensures r.None? ==> forall i <- live :: !IsNamed(naming, graph.entities[i], wanted)
      ensures r.Some? ==> exists k :: FirstNamed(live, wanted, k)
                                      && r.value == (live[k], Means(naming, graph.entities[live[k]], wanted))
    {
      for k := 0 to |live|
        invariant forall j :: 0 <= j < k ==> !IsNamed(naming, graph.entities[live[j]], wanted)
      {
        var e := graph.entities[live[k]];
        if Keys(naming, e.name) * wanted != {} {
          assert FirstNamed(live, wanted, k);
          return Some((live[k], Exact));
        }
        if exists a | a in e.aliases :: Keys(naming, a) * wanted != {} {
          assert FirstNamed(live, wanted, k);
          return Some((live[k], Alias));
        }
      }
      return None;
    }

    ghost predicate FirstNamed(live: seq<Id>, wanted: set<string>, k: int)
      requires forall i <- live :: i in graph.entities
      reads graph
    {
      && 0 <= k < |live|
      && IsNamed(naming, graph.entities[live[k]], wanted)
      && forall j :: 0 <= j < k ==> !IsNamed(naming, graph.entities[live[j]], wanted)
    }

    /** Through the index or by the scan: the same entity, found the same way, as the scan of all. */
    method Find(name: string, class_: string) returns (r: Option<(Id, How)>)
      requires (naming.normalise.None? ==> FoldsOnce(naming)) && (indexed ==> Declared(graph.onto))
      ensures r == Scan(graph.onto, naming, graph.entities, name, class_)
    {
      var wanted := Keys(naming, name);
      if wanted == {} {
        return None;
      }
      var live;
      if naming.normalise.None? {
        live := Named(wanted, class_);
        forall i | i in LiveIn(graph.onto, graph.entities, class_)
          ensures i in live <==> IsNamed(naming, graph.entities[i], wanted)
        {
          IndexIsComplete(naming, graph.entities, name, i);
        }
      } else {
        live := LiveEntities(class_);
      }
      r := FindIn(live, wanted);
      if r.Some? {
        ghost var k :| FirstNamed(live, wanted, k) && r.value == (live[k], Means(naming, graph.entities[live[k]], wanted));
        FirstIsScanned(graph.onto, naming, graph.entities, name, class_, live, k);
      } else {
        assert Hits(graph.onto, naming, graph.entities, name, class_) == {};
      }
    }

    method DecisionsOf(e: Id) returns (order: seq<Id>)
      ensures Listed(graph.decisions, e, order)
    {
      order := [];
      var rest := graph.decisions.Keys;
      while rest != {}
        invariant rest <= graph.decisions.Keys
        invariant forall d :: d in order <==> d in graph.decisions && d !in rest && graph.decisions[d].Names(e)
        invariant forall j, k :: 0 <= j < k < |order| ==> order[j] != order[k]
        decreases |rest|
      {
        var d :| d in rest;
        rest := rest - {d};
        if graph.decisions[d].Names(e) {
          order := order + [d];
        }
      }
    }

    method GatherNext(d: Decision, episode: Option<string>, newId: Id, now: Time) returns (r: Result<bool>)
      requires Below(graph.decisions, newId)
      modifies graph`entities, graph`decisions
      ensures Outcome(graph.St(), r) == GatherOne(graph.onto, old(graph.St()), d, episode, enough, newId, now)
    {
      if d.verdict != Candidate {
        return Ok(false);
      }
      GatherOneIds(graph.onto, graph.St(), d, episode, enough, newId, now);
      hide NoteCandidate, Merge, Below;
      var id := Note(d, episode, newId, now);
      if id.None? || |graph.decisions[id.value].evidence| < enough || !BothStand(graph.entities, d.a, d.b) {
        return Ok(false);
      }
      var (keep, fold) := ByAge(graph.entities, d.a, d.b);
      var merged := graph.MergeEntities(keep, fold, graph.decisions[id.value].evidence, newId + 1, now);
      return if merged.Ok? then Ok(true) else Refused(merged.why);
    }

    method Note(d: Decision, episode: Option<string>, newId: Id, now: Time) returns (id: Option<Id>)
      requires Below(graph.decisions, newId)
      modifies graph`decisions
      ensures (graph.St(), id) == NoteCandidate(old(graph.St()), d.a, d.b, episode, newId, now)
      ensures newId + 1 !in graph.decisions && (id.Some? ==> id.value in graph.decisions)
    {
      id := graph.NoteAlike(d.a, d.b, episode, newId, now);
    }

    method GatherAll(ds: seq<Decision>, episode: Option<string>, newId: Id, now: Time) returns (r: Result<nat>)
      requires Below(graph.decisions, newId)
      modifies graph`entities, graph`decisions
      ensures Outcome(graph.St(), r) == Gathered(graph.onto, old(graph.St()), ds, episode, enough, newId, now)
    {
      var merged := 0;
      hide GatherOne, Gathered, Below;
      NothingGathered(graph.onto, graph.St(), episode, enough, newId, now);
      ghost var before := graph.St();
      for k := 0 to |ds|
        invariant Outcome(graph.St(), Ok(merged)) == Gathered(graph.onto, before, ds[..k], episode, enough, newId, now)
        invariant Below(graph.decisions, newId + 2 * k)
      {
        GatherOneIds(graph.onto, graph.St(), ds[k], episode, enough, newId + 2 * k, now);
        GatheredOneMore(graph.onto, before, ds, k, episode, enough, newId, now);
        var one := GatherNext(ds[k], episode, newId + 2 * k, now);
        if one.Refused? {
          GatheredStops(graph.onto, before, ds, k + 1, episode, enough, newId, now);
          return Refused(one.why);
        }
        merged := merged + (if one.value then 1 else 0);
      }
      assert ds[..|ds|] == ds;
      return Ok(merged);
    }

    /** A name in use again: evidence for its open candidates, and the merges it warrants. */
    method Gather(e: Id, episode: Option<string>, newId: Id, now: Time)
      returns (r: Result<nat>, ghost order: seq<Id>)
      requires Below(graph.decisions, newId)
      modifies graph`entities, graph`decisions
      ensures Listed(old(graph.decisions), e, order)
      ensures Outcome(graph.St(), r)
           == Gathered(graph.onto, old(graph.St()), Read(old(graph.decisions), order), episode, enough, newId, now)
    {
      hide Gathered;
      var listed := DecisionsOf(e);
      order := listed;
      r := GatherAll(Read(graph.decisions, listed), episode, newId, now);
    }

    /** Records every live entity like the new one as a candidate. */
    method NoteLookAlikes(e: Id, name: string, class_: string, episode: Option<string>, newId: Id, now: Time)
      requires e in graph.entities && graph.entities[e].class_ == class_ && Below(graph.decisions, newId)
      requires (forall d :: d in graph.decisions ==> !graph.decisions[d].Names(e)) && (indexed ==> Declared(graph.onto))
      modifies graph`decisions
      ensures CandidatesFor(old(graph.decisions), graph.decisions,
                            LookAlikes(graph.onto, naming, graph.entities, name, class_, e), e, episode)
    {
      hide CandidatesFor;
      var live := LiveEntities(class_);
      ghost var before, alike := graph.decisions, {};
      var next := newId;
      NoneYet(before, e, episode);
      for k := 0 to |live|
        invariant alike == set i | i in live[..k] && i != e && IsAlike(naming, graph.entities[i], name)
        invariant CandidatesFor(before, graph.decisions, alike, e, episode)
        invariant Below(graph.decisions, next)
      {
        var i := live[k];
        if i != e && IsAlike(naming, graph.entities[i], name) {
          assert i !in alike by {
            forall j | 0 <= j < k
              ensures live[j] != i
            {
              assert Older(graph.entities, live[j], live[k]);
            }
          }
          OneMoreCandidate(graph.St(), before, alike, i, e, episode, next, now);
          var _ := graph.NoteAlike(i, e, episode, next, now);
          next := next + 1;
          alike := alike + {i};
        }
      }
      assert live[..|live|] == live;
      assert alike == LookAlikes(graph.onto, naming, graph.entities, name, class_, e);
    }

    /** The entity a name means: the one the scan finds, gathered and followed through its merges, or a new one with
        its look-alikes recorded. When every open pair is of two entities that could be one, it is refused exactly
        when nothing carries the name and it cannot be added; otherwise what it gives stands unmerged. */
    method Resolve(name: string, class_: string, episode: Option<string>, newEntity: Id, newId: Id, now: Time)
      returns (r: Result<Resolution>, ghost order: seq<Id>)
      requires (naming.normalise.None? ==> FoldsOnce(naming)) && (indexed ==> Declared(graph.onto))
      requires Below(graph.decisions, newId) && Unused(graph.St(), newEntity)
      modifies graph
      ensures Resolves(graph.onto, naming, enough, old(graph.St()), Request(name, class_, episode, newEntity, newId), now,
                       graph.St(), r, order)
      ensures old(Identity(graph.St())) && old(Recorded(graph.onto, graph.St()))
              ==> && Identity(graph.St()) && Recorded(graph.onto, graph.St())
                  && (r.Ok? ==> r.value.target in graph.entities && graph.entities[r.value.target].Standing())
                  && (r.Refused? <==> Scan(graph.onto, naming, old(graph.entities), name, class_).None?
                                      && Unaddable(graph.onto, class_, name))
    {
      ghost var before, q := graph.St(), Request(name, class_, episode, newEntity, newId);
      hide Identity, Recorded, CandidatesFor, Gathered, Scan, Listed;
      var found := Find(name, class_);
      order := [];
      if found.Some? {
        var (e, how) := found.value;
        ScanStands(graph.onto, naming, graph.St(), name, class_);
        var gathered;
        gathered, order := Gather(e, episode, newId, now);
        if gathered.Ok? {
          var target := graph.CanonicalId(e);
          r := Ok(Resolution(target, how, false));
        } else {
          r := Refused(gathered.why);
        }
      } else {
        var made := graph.NewEntity(newEntity, class_, name, [], now);
        if made.Ok? {
          NoteLookAlikes(newEntity, name, class_, episode, newId, now);
          r := Ok(Resolution(newEntity, New, true));
        } else {
          r := Refused(made.why);
        }
      }
      assert Resolves(graph.onto, naming, enough, before, q, now, graph.St(), r, order);
      if Identity(before) && Recorded(graph.onto, before) {
        ResolvingKeeps(graph.onto, naming, enough, before, q, now, graph.St(), r, order);
      }
    }
  }

  lemma NothingGathered(onto: Ontology, st: State, episode: Option<string>, enough: nat, newId: Id, now: Time)
    ensures Gathered(onto, st, [], episode, enough, newId, now) == Outcome(st, Ok(0))
  {
  }

  lemma GatheredOneMore(onto: Ontology, st: State, ds: seq<Decision>, k: nat, episode: Option<string>, enough: nat,
                        newId: Id, now: Time)
    requires k < |ds| && Gathered(onto, st, ds[..k], episode, enough, newId, now).result.Ok?
    ensures var before := Gathered(onto, st, ds[..k], episode, enough, newId, now);
      var out := GatherOne(onto, before.state, ds[k], episode, enough, newId + 2 * k, now);
      Gathered(onto, st, ds[..k + 1], episode, enough, newId, now)
      == Outcome(out.state, if out.result.Refused? then Refused(out.result.why)
                            else Ok(before.result.value + (if out.result.value then 1 else 0)))
  {
    hide GatherOne;
    assert ds[..k + 1][..k] == ds[..k] && ds[..k + 1][k] == ds[k];
  }

  lemma {:induction false} GatheredStops(onto: Ontology, st: State, ds: seq<Decision>, k: nat, episode: Option<string>,
                                         enough: nat, newId: Id, now: Time)
    requires k <= |ds| && Gathered(onto, st, ds[..k], episode, enough, newId, now).result.Refused?
    ensures Gathered(onto, st, ds, episode, enough, newId, now)
         == Gathered(onto, st, ds[..k], episode, enough, newId, now)
    decreases |ds|
  {
    if k == |ds| {
      assert ds[..k] == ds;
    } else {
      assert ds[..|ds| - 1][..k] == ds[..k];
      GatheredStops(onto, st, ds[..|ds| - 1], k, episode, enough, newId, now);
    }
  }

  lemma NoneYet(ds: map<Id, Decision>, e: Id, episode: Option<string>)
    ensures CandidatesFor(ds, ds, {}, e, episode)
  {
  }

  lemma ScanStands(onto: Ontology, n: Naming, st: State, name: string, class_: string)
    ensures var r := Scan(onto, n, st.entities, name, class_);
      r.Some? ==> r.value.0 in st.entities && st.entities[r.value.0].Standing()
                  && (Identity(st) ==> Stands(st.entities, r.value.0))
  {
    var r := Scan(onto, n, st.entities, name, class_);
    if r.Some? && Identity(st) {
      CanonIsTheRoot(st.entities, r.value.0);
    }
  }

  lemma ReadPairs(onto: Ontology, st: State, order: seq<Id>, e: Id)
    requires Recorded(onto, st) && Listed(st.decisions, e, order)
    ensures forall d <- Read(st.decisions, order) :: d.verdict == Candidate ==> Pair(onto, st.entities, d.a, d.b)
  {
  }
}
