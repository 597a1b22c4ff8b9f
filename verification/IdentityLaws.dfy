/** What every run of operations keeps about identity: the merge forest, the decisions that
    record it, the statements that rest on it, and the names each entity owns. */
module IdentityLaws {
  import opened Records
  import opened MergeForest
  import opened GraphSpec
  import opened Labels
  import opened Runs

  // ---------------------------------------------------------------- the invariant

  ghost predicate MergedStay(es: Entities) {
    forall e :: e in es && es[e].mergedInto.Some? ==> es[e].removedAt.None?
  }

  ghost predicate StandingIsClean(es: Entities) {
    forall e :: e in es && es[e].removedAt.None? ==> es[e].removedReason.None? && es[e].removedStatements == []
  }

  /** No statement names an entity that is gone. */
  ghost predicate Named(st: State) {
    forall i :: i in st.statements ==>
      st.statements[i].subject in st.entities
      && (st.statements[i].target.Some? ==> st.statements[i].target.value in st.entities)
  }

  ghost predicate OnePerPair(ds: map<Id, Decision>) {
    forall i, j :: i in ds && j in ds && i != j ==> !ds[i].Between(ds[j].a, ds[j].b)
  }

  predicate Merges(ds: map<Id, Decision>, d: Id, a: Id, b: Id) {
    d in ds && ds[d].verdict == Same && ds[d].a == a && ds[d].b == b
  }

  /** "same" is recorded exactly when the pointer is there. */
  ghost predicate SameIsMerged(st: State) {
    && (forall d :: d in st.decisions && st.decisions[d].verdict == Same ==>
          st.decisions[d].a in st.entities && st.decisions[d].b in st.entities
          && st.entities[st.decisions[d].b].mergedInto == Some(st.decisions[d].a))
    && (forall b :: b in st.entities && st.entities[b].mergedInto.Some? ==>
          exists d :: Merges(st.decisions, d, st.entities[b].mergedInto.value, b))
  }

  /** The names merges have added to one winner do not overlap. */
  ghost predicate AddedApart(st: State) {
    && (forall d :: d in st.decisions && st.decisions[d].verdict == Same && st.decisions[d].a in st.entities ==>
          Set(st.decisions[d].addedAliases) <= Set(st.entities[st.decisions[d].a].aliases))
    && (forall c, d ::
          (c in st.decisions && d in st.decisions && c != d
           && st.decisions[c].verdict == Same && st.decisions[d].verdict == Same
           && st.decisions[c].a == st.decisions[d].a) ==>
          Set(st.decisions[c].addedAliases) !! Set(st.decisions[d].addedAliases))
  }

  ghost predicate Identity(st: State) {
    Forest(st.entities) && MergedStay(st.entities) && StandingIsClean(st.entities) && Named(st)
    && OnePerPair(st.decisions) && SameIsMerged(st) && AddedApart(st)
  }

  /** A pair marked apart stays marked, unless one of the two was deleted. */
  ghost predicate KeepsApart(st: State, st': State) {
    forall d :: d in st.decisions && st.decisions[d].verdict == Distinct ==>
      (d in st'.decisions && st'.decisions[d].verdict == Distinct && st'.decisions[d].Between(st.decisions[d].a, st.decisions[d].b))
      || (st.decisions[d].a in st.entities && st.decisions[d].a !in st'.entities)
      || (st.decisions[d].b in st.entities && st.decisions[d].b !in st'.entities)
  }

  /** The invariant again; every entity still there owns the names it owned; apart stays apart. */
  ghost predicate KeepsNames(st: State, st': State) {
    && Identity(st')
    && (forall w :: w in st.entities && w in st'.entities ==> OwnNames(st', w) == OwnNames(st, w))
    && KeepsApart(st, st')
  }

  // ---------------------------------------------------------------- the names an entity owns

  ghost function AddedTo(ds: map<Id, Decision>, w: Id): set<string> {
    set d, n | d in ds && ds[d].verdict == Same && ds[d].a == w && n in ds[d].addedAliases :: n
  }

  /** The aliases of w, less what merges still in force have lent it. */
  ghost function OwnNames(st: State, w: Id): seq<string>
    requires w in st.entities
  {
    Without(st.entities[w].aliases, AddedTo(st.decisions, w))
  }

  lemma {:induction false} WithoutOfSum(x: seq<string>, y: seq<string>, gone: set<string>)
    ensures Without(x + y, gone) == Without(x, gone) + Without(y, gone)
  {
    if x == [] {
      assert x + y == y;
    } else {
      assert (x + y)[1..] == x[1..] + y;
      WithoutOfSum(x[1..], y, gone);
    }
  }

  lemma {:induction false} WithoutAll(x: seq<string>, gone: set<string>)
    requires Set(x) <= gone
    ensures Without(x, gone) == []
  {
    if x != [] {
      assert x[0] in Set(x) && forall n :: n in Set(x[1..]) ==> n in Set(x);
      WithoutAll(x[1..], gone);
    }
  }

  lemma {:induction false} WithoutTwice(x: seq<string>, a: set<string>, b: set<string>)
    ensures Without(Without(x, a), b) == Without(x, a + b)
  {
    if x != [] {
      WithoutTwice(x[1..], a, b);
      WithoutOfSum(if x[0] in a then [] else [x[0]], Without(x[1..], a), b);
    }
  }

  lemma {:induction false} WithoutOthers(x: seq<string>, a: set<string>, b: set<string>)
    requires Set(x) !! b
    ensures Without(x, a + b) == Without(x, a)
  {
    if x != [] {
      assert x[0] in Set(x) && forall n :: n in Set(x[1..]) ==> n in Set(x);
      WithoutOthers(x[1..], a, b);
    }
  }

  /** A decision that lends w nothing, before or after, does not change what w is lent. */
  lemma AddedToOthers(ds: map<Id, Decision>, ds': map<Id, Decision>, d: Id, w: Id)
    requires forall e :: e != d ==> (e in ds <==> e in ds') && (e in ds ==> ds'[e] == ds[e])
    requires d in ds && ds[d].verdict == Same ==> ds[d].a != w
    requires d in ds' && ds'[d].verdict == Same ==> ds'[d].a != w
    ensures AddedTo(ds', w) == AddedTo(ds, w)
  {
    forall n ensures n in AddedTo(ds', w) <==> n in AddedTo(ds, w) {
      if n in AddedTo(ds, w) {
        var e :| e in ds && ds[e].verdict == Same && ds[e].a == w && n in ds[e].addedAliases;
        assert e in ds' && ds'[e] == ds[e];
      }
      if n in AddedTo(ds', w) {
        var e :| e in ds' && ds'[e].verdict == Same && ds'[e].a == w && n in ds'[e].addedAliases;
        assert e in ds && ds'[e] == ds[e];
      }
    }
  }

  lemma AddedToLess(ds: map<Id, Decision>, d: Id, undone: Decision)
    requires d in ds && ds[d].verdict == Same && undone.verdict != Same
    ensures AddedTo(ds, ds[d].a) == Set(ds[d].addedAliases) + AddedTo(ds[d := undone], ds[d].a)
  {
    var ds', w := ds[d := undone], ds[d].a;
    forall n | n in AddedTo(ds, w) ensures n in Set(ds[d].addedAliases) + AddedTo(ds', w) {
      var e :| e in ds && ds[e].verdict == Same && ds[e].a == w && n in ds[e].addedAliases;
      if e != d { assert ds'[e] == ds[e]; }
    }
    forall n | n in AddedTo(ds', w) ensures n in AddedTo(ds, w) {
      var e :| e in ds' && ds'[e].verdict == Same && ds'[e].a == w && n in ds'[e].addedAliases;
      assert ds'[e] == ds[e];
    }
    forall n | n in ds[d].addedAliases ensures n in AddedTo(ds, w) {}
  }

  // ---------------------------------------------------------------- decisions

  lemma OneMoreDecision(ds: map<Id, Decision>, a: Id, b: Id, newId: Id, decision: Decision)
    requires OnePerPair(ds) && newId !in ds && decision.Between(a, b)
    ensures var previous := DecisionBetween(ds, a, b);
            OnePerPair(ds[(if previous.Some? then previous.value else newId) := decision])
  {
  }

  // ---------------------------------------------------------------- steps that change identity

  /** What a merge does, seen from the two entities. */
  ghost predicate Merged(st: State, st': State, keep: Id, fold: Id, d: Id, added: seq<string>) {
    && Root(st.entities, keep) && Root(st.entities, fold) && keep != fold
    && st.entities[keep].removedAt.None? && st.entities[fold].removedAt.None?
    && (d in st.decisions ==> st.decisions[d].verdict != Same)
    && st'.statements == st.statements && st'.entities.Keys == st.entities.Keys
    && Set(added) !! Set(st.entities[keep].aliases)
    && st'.entities == st.entities[keep := st.entities[keep].(aliases := st.entities[keep].aliases + added)]
                                  [fold := st.entities[fold].(mergedInto := Some(keep))]
    && st'.decisions.Keys == st.decisions.Keys + {d}
    && (forall e :: e in st.decisions && e != d ==> st'.decisions[e] == st.decisions[e])
    && st'.decisions[d].verdict == Same && st'.decisions[d].a == keep && st'.decisions[d].b == fold
    && st'.decisions[d].addedAliases == added
  }

  lemma MergeMerges(onto: Ontology, st: State, keep: Id, fold: Id, evidence: seq<string>, newId: Id, now: Time)
    requires Identity(st) && newId !in st.decisions && MergeRefusal(onto, st, keep, fold).None?
    ensures var out := Merge(onto, st, keep, fold, evidence, newId, now);
            out.result.Ok? && Merged(st, out.state, keep, fold, out.result.value, Added(st.entities[keep], st.entities[fold]))
    ensures OnePerPair(Merge(onto, st, keep, fold, evidence, newId, now).state.decisions)
  {
    hide Forest, AddedApart, MergedStay, StandingIsClean, Named, FreshNames, Ontology.Related;
    var out := Merge(onto, st, keep, fold, evidence, newId, now);
    OneMoreDecision(st.decisions, keep, fold, newId, out.state.decisions[out.result.value]);
    hide OnePerPair;
    assert forall n :: n in Set(Added(st.entities[keep], st.entities[fold])) ==> n !in Set(st.entities[keep].aliases);
  }

  lemma MergedPointers(st: State, st': State, keep: Id, fold: Id, d: Id, added: seq<string>)
    requires Identity(st) && Merged(st, st', keep, fold, d, added)
    ensures Forest(st'.entities) && SameIsMerged(st')
    ensures MergedStay(st'.entities) && StandingIsClean(st'.entities) && Named(st')
  {
    hide Forest, AddedApart, OnePerPair;
    MergeKeepsForest(st.entities, st'.entities, keep, fold);
    assert Merges(st'.decisions, d, keep, fold);
    forall b | b in st'.entities && st'.entities[b].mergedInto.Some? && b != fold
      ensures exists e :: Merges(st'.decisions, e, st'.entities[b].mergedInto.value, b)
    {
      var e :| Merges(st.decisions, e, st.entities[b].mergedInto.value, b);
      assert Merges(st'.decisions, e, st'.entities[b].mergedInto.value, b);
    }
  }

  lemma MergedApart(st: State, st': State, keep: Id, fold: Id, d: Id, added: seq<string>)
    requires Merged(st, st', keep, fold, d, added) && (d in st.decisions ==> st.decisions[d].verdict != Distinct)
    ensures KeepsApart(st, st')
  {
  }

  lemma MergedAddedApart(st: State, st': State, keep: Id, fold: Id, d: Id, added: seq<string>)
    requires AddedApart(st) && Merged(st, st', keep, fold, d, added)
    ensures AddedApart(st')
  {
    assert Set(st'.entities[keep].aliases) == Set(st.entities[keep].aliases) + Set(added);
  }

  /** What the merge lends the keeper is counted as lent. */
  lemma MergedKeeper(st: State, st': State, keep: Id, fold: Id, d: Id, added: seq<string>)
    requires Merged(st, st', keep, fold, d, added)
    ensures OwnNames(st', keep) == OwnNames(st, keep)
  {
    assert AddedTo(st'.decisions, keep) == AddedTo(st.decisions, keep) + Set(added);
    hide AddedTo;
    WithoutOfSum(st.entities[keep].aliases, added, AddedTo(st'.decisions, keep));
    WithoutAll(added, AddedTo(st'.decisions, keep));
    WithoutOthers(st.entities[keep].aliases, AddedTo(st.decisions, keep), Set(added));
  }

  lemma MergedNames(st: State, st': State, keep: Id, fold: Id, d: Id, added: seq<string>)
    requires AddedApart(st) && Merged(st, st', keep, fold, d, added)
    ensures AddedApart(st') && forall w :: w in st.entities ==> OwnNames(st', w) == OwnNames(st, w)
  {
    MergedAddedApart(st, st', keep, fold, d, added);
    hide AddedApart, AddedTo;
    forall w | w in st.entities
      ensures OwnNames(st', w) == OwnNames(st, w)
    {
      if w == keep {
        MergedKeeper(st, st', keep, fold, d, added);
      } else {
        AddedToOthers(st.decisions, st'.decisions, d, w);
      }
    }
  }

  lemma MergeKeepsIdentity(onto: Ontology, st: State, keep: Id, fold: Id, evidence: seq<string>, newId: Id, now: Time)
    requires Identity(st) && newId !in st.decisions
    ensures KeepsNames(st, Merge(onto, st, keep, fold, evidence, newId, now).state)
  {
    hide MergeRefusal, Merged, Forest, OnePerPair, AddedApart, SameIsMerged, MergedStay, StandingIsClean, Named, OwnNames,
      KeepsApart, DecisionBetween, FreshNames;
    if MergeRefusal(onto, st, keep, fold).None? {
      RefusedNone(onto, st, keep, fold);
      var out := Merge(onto, st, keep, fold, evidence, newId, now);
      var added := Added(st.entities[keep], st.entities[fold]);
      MergeMerges(onto, st, keep, fold, evidence, newId, now);
      MergedPointers(st, out.state, keep, fold, out.result.value, added);
      MergedNames(st, out.state, keep, fold, out.result.value, added);
      MergedOver(onto, st, keep, fold, evidence, newId, now);
      MergedApart(st, out.state, keep, fold, out.result.value, added);
    } else {
      RefusedMerge(onto, st, keep, fold, evidence, newId, now);
    }
  }

  lemma RefusedNone(onto: Ontology, st: State, keep: Id, fold: Id)
    requires MergeRefusal(onto, st, keep, fold).None?
    ensures keep in st.entities && fold in st.entities
  {
    hide DecisionBetween;
  }

  lemma MergedOver(onto: Ontology, st: State, keep: Id, fold: Id, evidence: seq<string>, newId: Id, now: Time)
    requires newId !in st.decisions && MergeRefusal(onto, st, keep, fold).None?
    ensures var out := Merge(onto, st, keep, fold, evidence, newId, now);
      out.result.Ok? && (out.result.value in st.decisions ==> st.decisions[out.result.value].verdict != Distinct)
  {
    hide FreshNames, Ontology.Related;
  }

  lemma RefusedMerge(onto: Ontology, st: State, keep: Id, fold: Id, evidence: seq<string>, newId: Id, now: Time)
    requires Identity(st) && MergeRefusal(onto, st, keep, fold).Some?
    ensures KeepsNames(st, Merge(onto, st, keep, fold, evidence, newId, now).state)
  {
    hide MergeRefusal, Forest, OnePerPair, AddedApart, SameIsMerged, MergedStay, StandingIsClean, Named, OwnNames;
  }

  lemma UnmergeKeepsIdentity(st: State, d: Id, now: Time)
    requires Identity(st)
    ensures KeepsNames(st, Unmerge(st, d, now).state)
  {
    if d in st.decisions && st.decisions[d].verdict == Same {
      UnmergedPointers(st, d, now);
      UnmergedNames(st, d, now);
      assert KeepsApart(st, Unmerge(st, d, now).state);
      hide Unmerge, Forest, OnePerPair, AddedApart, SameIsMerged, MergedStay, StandingIsClean, Named, OwnNames, KeepsApart;
    }
  }

  lemma UnmergedPointers(st: State, d: Id, now: Time)
    requires Identity(st) && d in st.decisions && st.decisions[d].verdict == Same
    ensures var st' := Unmerge(st, d, now).state;
            Forest(st'.entities) && OnePerPair(st'.decisions) && SameIsMerged(st')
            && MergedStay(st'.entities) && StandingIsClean(st'.entities) && Named(st')
  {
    hide Forest, AddedApart, Without, OnePerPair, SameIsMerged;
    SameNamesPointers(st, d);
    UnmergedForest(st, d, now);
    UnmergedSame(st, d, now);
  }

  lemma SameNamesPointers(st: State, d: Id)
    requires SameIsMerged(st) && d in st.decisions && st.decisions[d].verdict == Same
    ensures var decision := st.decisions[d];
            decision.a in st.entities && decision.b in st.entities
            && st.entities[decision.b].mergedInto == Some(decision.a)
  {
  }

  lemma UnmergedForest(st: State, d: Id, now: Time)
    requires Forest(st.entities) && SameIsMerged(st) && d in st.decisions && st.decisions[d].verdict == Same
    ensures Forest(Unmerge(st, d, now).state.entities)
  {
    hide Forest, Without;
    SameNamesPointers(st, d);
    ForestHasNoLoop(st.entities, st.decisions[d].b);
    FewerPointersKeepForest(st.entities, Unmerge(st, d, now).state.entities);
  }

  lemma UnmergedSame(st: State, d: Id, now: Time)
    requires Forest(st.entities) && SameIsMerged(st) && OnePerPair(st.decisions)
    requires d in st.decisions && st.decisions[d].verdict == Same
    ensures SameIsMerged(Unmerge(st, d, now).state) && OnePerPair(Unmerge(st, d, now).state.decisions)
  {
    hide Forest, Without;
    var st' := Unmerge(st, d, now).state;
    var decision := st.decisions[d];
    ForestHasNoLoop(st.entities, decision.b);
    forall b | b in st'.entities && st'.entities[b].mergedInto.Some?
      ensures exists e :: Merges(st'.decisions, e, st'.entities[b].mergedInto.value, b)
    {
      var e :| Merges(st.decisions, e, st.entities[b].mergedInto.value, b);
      assert Merges(st'.decisions, e, st'.entities[b].mergedInto.value, b);
    }
    forall e | e in st'.decisions && st'.decisions[e].verdict == Same
      ensures st'.entities[st'.decisions[e].b].mergedInto == Some(st'.decisions[e].a)
    {
      assert !st.decisions[e].Between(decision.a, decision.b);
      assert st.entities[st.decisions[e].b].mergedInto == Some(st.decisions[e].a);
    }
  }

  lemma UnmergedAddedApart(st: State, d: Id, now: Time)
    requires AddedApart(st) && d in st.decisions && st.decisions[d].verdict == Same
    requires st.decisions[d].a in st.entities && st.decisions[d].b in st.entities && st.decisions[d].a != st.decisions[d].b
    ensures AddedApart(Unmerge(st, d, now).state)
  {
  }

  lemma UnmergedNames(st: State, d: Id, now: Time)
    requires Identity(st) && d in st.decisions && st.decisions[d].verdict == Same
    ensures var st' := Unmerge(st, d, now).state;
            AddedApart(st') && forall w :: w in st.entities ==> OwnNames(st', w) == OwnNames(st, w)
  {
    var st' := Unmerge(st, d, now).state;
    var gone := Set(st.decisions[d].addedAliases);
    SameNamesPointers(st, d);
    ForestHasNoLoop(st.entities, st.decisions[d].b);
    UnmergedAddedApart(st, d, now);
    hide Forest, Named, MergedStay, StandingIsClean, OnePerPair, SameIsMerged, AddedTo;
    forall w | w in st.entities ensures OwnNames(st', w) == OwnNames(st, w) {
      if w == st.decisions[d].a {
        AddedToLess(st.decisions, d, st'.decisions[d]);
        WithoutTwice(st.entities[w].aliases, gone, AddedTo(st'.decisions, w));
      } else {
        AddedToOthers(st.decisions, st'.decisions, d, w);
      }
    }
  }

  lemma ForestHasNoLoop(es: Entities, e: Id)
    requires Forest(es) && e in es
    ensures es[e].mergedInto != Some(e)
  {
    var rank := RankOf(es);
  }

  lemma DecidingKeepsIdentity(st: State, a: Id, b: Id, decision: Decision, newId: Id)
    requires Identity(st) && newId !in st.decisions && decision.Between(a, b) && decision.verdict != Same
    requires var previous := DecisionBetween(st.decisions, a, b);
             previous.Some? ==> st.decisions[previous.value].verdict != Same
                                && (st.decisions[previous.value].verdict == Distinct ==> decision.verdict == Distinct)
    ensures var previous := DecisionBetween(st.decisions, a, b);
            var st' := st.(decisions := st.decisions[(if previous.Some? then previous.value else newId) := decision]);
            KeepsNames(st, st')
  {
    var previous := DecisionBetween(st.decisions, a, b);
    var d := if previous.Some? then previous.value else newId;
    var st' := st.(decisions := st.decisions[d := decision]);
    OneMoreDecision(st.decisions, a, b, newId, decision);
    forall w | w in st.entities ensures OwnNames(st', w) == OwnNames(st, w) {
      AddedToOthers(st.decisions, st'.decisions, d, w);
    }
    DecidedPointers(st, d, decision);
    assert KeepsApart(st, st');
    hide DecisionBetween, Forest, OnePerPair, AddedApart, SameIsMerged, MergedStay, StandingIsClean, Named, OwnNames, KeepsApart;
  }

  lemma DecidedPointers(st: State, d: Id, decision: Decision)
    requires Identity(st) && decision.verdict != Same && (d in st.decisions ==> st.decisions[d].verdict != Same)
    ensures var st' := st.(decisions := st.decisions[d := decision]);
            SameIsMerged(st') && AddedApart(st') && Named(st')
  {
    var st' := st.(decisions := st.decisions[d := decision]);
    hide Forest, OnePerPair;
    forall x | x in st'.entities && st'.entities[x].mergedInto.Some?
      ensures exists e :: Merges(st'.decisions, e, st'.entities[x].mergedInto.value, x)
    {
      var e :| Merges(st.decisions, e, st.entities[x].mergedInto.value, x);
      assert Merges(st'.decisions, e, st'.entities[x].mergedInto.value, x);
    }
  }

  lemma DeleteKeepsIdentity(st: State, e: Id, now: Time)
    requires Identity(st)
    ensures KeepsNames(st, Delete(st, e, now).state)
  {
    if Delete(st, e, now).result.Ok? {
      DeletedPointers(st, e, now);
      DeletedNames(st, e, now);
      assert KeepsApart(st, Delete(st, e, now).state);
      hide Delete, Forest, OnePerPair, AddedApart, SameIsMerged, MergedStay, StandingIsClean, Named, OwnNames, KeepsApart;
    }
  }

  lemma DeletedPointers(st: State, e: Id, now: Time)
    requires Identity(st) && Delete(st, e, now).result.Ok?
    ensures var st' := Delete(st, e, now).state;
            Forest(st'.entities) && OnePerPair(st'.decisions) && SameIsMerged(st')
            && MergedStay(st'.entities) && StandingIsClean(st'.entities) && Named(st')
  {
    hide Forest, AddedApart, Live, About, Group, Named;
    var st' := Delete(st, e, now).state;
    DeletionKeepsForest(st.entities, e);
    DeletedNamed(st, e, now);
    forall b | b in st'.entities ensures st.entities[b].mergedInto != Some(e) { NotMergedInto(st.entities, e, b); }
    forall b | b in st'.entities && st'.entities[b].mergedInto.Some?
      ensures exists d :: Merges(st'.decisions, d, st'.entities[b].mergedInto.value, b)
    {
      var d :| Merges(st.decisions, d, st.entities[b].mergedInto.value, b);
      assert Merges(st'.decisions, d, st'.entities[b].mergedInto.value, b);
    }
  }

  /** Every statement that named the entity went with it. */
  lemma DeletedNamed(st: State, e: Id, now: Time)
    requires Named(st) && Delete(st, e, now).result.Ok?
    ensures Named(Delete(st, e, now).state)
  {
    hide Live;
    assert e in Group(st.entities, e);
    hide Group;
    assert forall i :: i in st.statements && (st.statements[i].subject == e || st.statements[i].target == Some(e))
                       ==> i in About(st, e);
  }

  lemma DeletedNames(st: State, e: Id, now: Time)
    requires Identity(st) && Delete(st, e, now).result.Ok?
    ensures var st' := Delete(st, e, now).state;
            AddedApart(st') && forall w :: w in st'.entities ==> OwnNames(st', w) == OwnNames(st, w)
  {
    var st' := Delete(st, e, now).state;
    forall d | d in st.decisions && st.decisions[d].verdict == Same ensures d in st'.decisions {
      var b := st.decisions[d].b;
      assert st.entities[b].mergedInto == Some(st.decisions[d].a);
      if b != e { NotMergedInto(st.entities, e, b); }
    }
    hide Forest, Named, OnePerPair;
    forall w | w in st'.entities ensures AddedTo(st'.decisions, w) == AddedTo(st.decisions, w) {}
  }

  lemma NotMergedInto(es: Entities, e: Id, b: Id)
    requires Group(es, e) == {e} && b in es && b != e
    ensures es[b].mergedInto != Some(e)
  {
    if es[b].mergedInto.Some? {
      assert b !in Group(es, e);
      assert Climbs(es, b, es[b].mergedInto.value, 1);
    }
  }

  // ---------------------------------------------------------------- steps that do not

  /** Entities keep their pointers, aliases and removal; statements keep what they name. */
  lemma OtherStepsKeepIdentity(st: State, st': State)
    requires Identity(st) && st'.decisions == st.decisions && st.entities.Keys <= st'.entities.Keys
    requires forall e :: e in st'.entities && e !in st.entities ==>
      st'.entities[e].mergedInto.None? && st'.entities[e].removedAt.None?
      && st'.entities[e].removedReason.None? && st'.entities[e].removedStatements == []
    requires forall e :: e in st.entities ==>
      st'.entities[e].mergedInto == st.entities[e].mergedInto && st'.entities[e].aliases == st.entities[e].aliases
    requires MergedStay(st'.entities) && StandingIsClean(st'.entities) && Named(st')
    ensures KeepsNames(st, st')
  {
    FewerPointersKeepForest(st.entities, st'.entities);
  }

  ghost predicate SameSubjects(ss: Statements, ss': Statements) {
    forall i :: i in ss' ==> i in ss && ss'[i].subject == ss[i].subject && ss'[i].target == ss[i].target
  }

  lemma PlaceKeepsNamed(onto: Ontology, st: State, id: Id, new_: Statement, subject: Entity, now: Time)
    requires Named(st) && new_.subject in st.entities && (new_.target.Some? ==> new_.target.value in st.entities)
    ensures Named(Place(onto, st, id, new_, subject, now))
  {
  }

  lemma ConfirmKeepsNamed(onto: Ontology, st: State, id: Id, now: Time)
    requires Named(st)
    ensures var st' := Confirm(onto, st, id, now).state; Named(st') && st'.entities == st.entities && st'.decisions == st.decisions
  {
    hide Displaced, Saved, PlacedAs;
    if id in st.statements && Lookup(st.entities, st.statements[id].subject).Ok? {
      PlaceKeepsNamed(onto, st, id, st.statements[id].(status := Confirmed),
                      st.entities[st.statements[id].subject], now);
    }
  }

  lemma AssertKeepsNamed(onto: Ontology, st: State, id: Id, c: Claim, status: Status, validFrom: Option<Time>, now: Time)
    requires Named(st)
    ensures var st' := Assert(onto, st, id, c, status, validFrom, now).state;
            Named(st') && st'.entities == st.entities && st'.decisions == st.decisions
  {
    hide Displaced, Saved, PlacedAs, Confirm, Group;
    var subject := Lookup(st.entities, c.subject);
    if status != Retracted && subject.Ok? && ClaimProblem(onto, st.entities, subject.value, c).None? {
      var same := Alike(st, c, now);
      if same != {} {
        var i := First(st.statements, same);
        ConfirmKeepsNamed(onto, st.(statements := st.statements[i := Reinforce(st.statements[i], now)]), i, now);
      } else {
        PlaceKeepsNamed(onto, st, id, NewStatement(c, status, validFrom, now), subject.value, now);
      }
    }
  }

  lemma PutBackKeepsSubjects(onto: Ontology, st: State, id: Id, back: Statement, now: Time)
    requires id in st.statements && back.subject == st.statements[id].subject && back.target == st.statements[id].target
    ensures SameSubjects(st.statements, PutBack(onto, st, id, back, now))
  {
  }

  lemma {:induction false} PutBackAllKeepsSubjects(onto: Ontology, st: State, notes: seq<(Id, Status, Option<string>)>, now: Time)
    ensures SameSubjects(st.statements, PutBackAll(onto, st, notes, now))
  {
    if notes != [] {
      PutBackAllKeepsSubjects(onto, st, notes[..|notes| - 1], now);
      var (i, status, reason) := notes[|notes| - 1];
      if i in st.statements && st.statements[i].status == Retracted {
        PutBackKeepsSubjects(onto, st, i, st.statements[i].(status := status, retractedAt := None, reason := reason), now);
      }
    }
  }

  // ---------------------------------------------------------------- every run

  /** A step that writes only statements, and those about entities that exist. */
  lemma StatementStep(st: State, st': State)
    requires Identity(st) && Named(st') && st'.entities == st.entities && st'.decisions == st.decisions
    ensures KeepsNames(st, st')
  {
    hide Forest, AddedApart, SameIsMerged, OnePerPair;
    OtherStepsKeepIdentity(st, st');
  }

  lemma AssertStep(onto: Ontology, st: State, id: Id, c: Claim, status: Status, validFrom: Option<Time>, now: Time)
    requires Identity(st)
    ensures KeepsNames(st, Assert(onto, st, id, c, status, validFrom, now).state)
  {
    AssertKeepsNamed(onto, st, id, c, status, validFrom, now);
    hide Assert;
    StatementStep(st, Assert(onto, st, id, c, status, validFrom, now).state);
  }

  lemma ConfirmStep(onto: Ontology, st: State, id: Id, now: Time)
    requires Identity(st)
    ensures KeepsNames(st, Confirm(onto, st, id, now).state)
  {
    ConfirmKeepsNamed(onto, st, id, now);
    hide Confirm;
    StatementStep(st, Confirm(onto, st, id, now).state);
  }

  lemma ReinstateStep(onto: Ontology, st: State, id: Id, status: Status, reason: Option<string>, now: Time)
    requires Identity(st)
    ensures KeepsNames(st, Reinstate(onto, st, id, status, reason, now).state)
  {
    hide PutBack, Forest, AddedApart, SameIsMerged, OnePerPair, OwnNames, MergedStay, StandingIsClean;
    if id in st.statements {
      PutBackKeepsSubjects(onto, st, id, st.statements[id].(status := status, retractedAt := None, reason := reason), now);
    }
    StatementStep(st, Reinstate(onto, st, id, status, reason, now).state);
  }

  lemma UnconfirmStep(st: State, id: Id)
    requires Identity(st)
    ensures KeepsNames(st, Unconfirm(st, id).state)
  {
    hide Identity, KeepsNames;
    SameSubjectsStep(st, Unconfirm(st, id).state);
  }

  lemma EndStep(st: State, id: Id, at: Option<Time>, now: Time)
    requires Identity(st)
    ensures KeepsNames(st, End(st, id, at, now).state)
  {
    hide Identity, KeepsNames;
    SameSubjectsStep(st, End(st, id, at, now).state);
  }

  lemma RetractStep(st: State, id: Id, reason: Option<string>, now: Time)
    requires Identity(st)
    ensures KeepsNames(st, Retract(st, id, reason, now).state)
  {
    hide Identity, KeepsNames;
    SameSubjectsStep(st, Retract(st, id, reason, now).state);
  }

  lemma PurgeStep(st: State, ids: set<Id>, now: Time)
    requires Identity(st)
    ensures KeepsNames(st, Purge(st, ids, now).state)
  {
    hide Identity, KeepsNames;
    SameSubjectsStep(st, Purge(st, ids, now).state);
  }

  lemma SameSubjectsStep(st: State, st': State)
    requires Identity(st) && SameSubjects(st.statements, st'.statements)
    requires st'.entities == st.entities && st'.decisions == st.decisions
    ensures KeepsNames(st, st')
  {
    assert Named(st');
    StatementStep(st, st');
  }

  lemma RestoreStep(onto: Ontology, st: State, e: Id, now: Time)
    requires Identity(st)
    ensures KeepsNames(st, Restore(onto, st, e, now).state)
  {
    if e in st.entities && st.entities[e].removedAt.Some? {
      PutBackAllKeepsSubjects(onto, st, st.entities[e].removedStatements, now);
      hide PutBackAll;
      OtherStepsKeepIdentity(st, Restore(onto, st, e, now).state);
    }
  }

  lemma RemoveStep(st: State, e: Id, why: string, now: Time)
    requires Identity(st)
    ensures KeepsNames(st, Remove(st, e, why, now).state)
  {
    hide Forest, AddedApart, SameIsMerged, OnePerPair, Oldest, Memo, OwnNames, Group;
    if Remove(st, e, why, now).result.Ok? { OtherStepsKeepIdentity(st, Remove(st, e, why, now).state); }
  }

  /** One step of anything keeps the invariant, and the names every surviving entity owns. */
  lemma StepKeepsIdentity(onto: Ontology, st: State, op: Op, now: Time)
    requires Identity(st)
    ensures KeepsNames(st, Step(onto, st, op, now))
  {
    hide Assert, Confirm, Unconfirm, End, Retract, Reinstate, Purge, Remove, Restore, Delete, Merge, Unmerge,
      MarkDistinct, NoteCandidate, Forest, AddedApart, SameIsMerged, OnePerPair, Named, MergedStay, StandingIsClean, OwnNames;
    if FreshIds(st, op) {
      match op
      case AddOp(e, c, n, al) => AddStep(onto, st, e, c, n, al, now);
      case AssertOp(id, c, s, vf) => AssertStep(onto, st, id, c, s, vf, now);
      case ConfirmOp(id) => ConfirmStep(onto, st, id, now);
      case UnconfirmOp(id) => UnconfirmStep(st, id);
      case EndOp(id, at) => EndStep(st, id, at, now);
      case RetractOp(id, why) => RetractStep(st, id, why, now);
      case PurgeOp(ids) => PurgeStep(st, ids, now);
      case ReinstateOp(id, s, why) => ReinstateStep(onto, st, id, s, why, now);
      case RemoveOp(e, why) => RemoveStep(st, e, why, now);
      case RestoreOp(e) => RestoreStep(onto, st, e, now);
      case DeleteOp(e) => DeleteKeepsIdentity(st, e, now);
      case MergeOp(k, f, ev, d) => MergeKeepsIdentity(onto, st, k, f, ev, d, now);
      case UnmergeOp(d) => UnmergeKeepsIdentity(st, d, now);
      case DistinctOp(a, b, d) => DistinctStep(st, a, b, d, now);
      case NoteOp(a, b, ep, d) => NoteStep(st, a, b, ep, d, now);
    }
  }

  lemma AddStep(onto: Ontology, st: State, e: Id, class_: string, name: string, aliases: seq<string>, now: Time)
    requires Identity(st) && e !in st.entities
    ensures KeepsNames(st, AddEntity(onto, st, e, class_, name, aliases, now).state)
  {
    hide Forest, AddedApart, SameIsMerged, OnePerPair, OwnNames, FreshNames, Label;
    OtherStepsKeepIdentity(st, AddEntity(onto, st, e, class_, name, aliases, now).state);
  }

  lemma DistinctStep(st: State, a: Id, b: Id, newId: Id, now: Time)
    requires Identity(st) && newId !in st.decisions
    ensures KeepsNames(st, MarkDistinct(st, a, b, newId, now).state)
  {
    var out := MarkDistinct(st, a, b, newId, now);
    if out.result.Ok? { DecidingKeepsIdentity(st, a, b, out.state.decisions[out.result.value], newId); }
  }

  lemma NoteStep(st: State, a: Id, b: Id, episode: Option<string>, newId: Id, now: Time)
    requires Identity(st) && newId !in st.decisions
    ensures KeepsNames(st, NoteCandidate(st, a, b, episode, newId, now).0)
  {
    var (st', d) := NoteCandidate(st, a, b, episode, newId, now);
    if d.Some? { DecidingKeepsIdentity(st, a, b, st'.decisions[d.value], newId); }
  }

  /** Over every run from an empty graph. */
  lemma {:induction false} RunKeepsIdentity(onto: Ontology, st: State, ops: seq<(Op, Time)>)
    requires Identity(st)
    ensures Identity(Run(onto, st, ops))
    decreases |ops|
  {
    if ops != [] {
      StepKeepsIdentity(onto, st, ops[0].0, ops[0].1);
      RunKeepsIdentity(onto, Step(onto, st, ops[0].0, ops[0].1), ops[1..]);
    }
  }

  lemma EveryRunHasIdentity(onto: Ontology, ops: seq<(Op, Time)>)
    ensures Identity(Run(onto, NOTHING, ops))
  {
    assert Ranked(NOTHING.entities, x => 0);
    RunKeepsIdentity(onto, NOTHING, ops);
  }

  // ---------------------------------------------------------------- names come back

  ghost predicate Survives(onto: Ontology, st: State, ops: seq<(Op, Time)>, w: Id)
    decreases |ops|
  {
    w in st.entities && (ops == [] || Survives(onto, Step(onto, st, ops[0].0, ops[0].1), ops[1..], w))
  }

  lemma {:induction false} OwnNamesOverRun(onto: Ontology, st: State, ops: seq<(Op, Time)>, w: Id)
    requires Identity(st) && Survives(onto, st, ops, w)
    ensures w in Run(onto, st, ops).entities && OwnNames(Run(onto, st, ops), w) == OwnNames(st, w)
    decreases |ops|
  {
    if ops != [] {
      hide Step, OwnNames;
      StepKeepsIdentity(onto, st, ops[0].0, ops[0].1);
      OwnNamesOverRun(onto, Step(onto, st, ops[0].0, ops[0].1), ops[1..], w);
    }
  }

  lemma {:induction false} WithoutNone(x: seq<string>)
    ensures Without(x, {}) == x
  {
    if x != [] { WithoutNone(x[1..]); }
  }

  /** However merges into w and their undoing interleave, with anything else between: once no
      merge into w is in force again, its aliases are letter for letter what they were. */
  lemma AliasesComeBack(onto: Ontology, st: State, ops: seq<(Op, Time)>, w: Id)
    requires Identity(st) && Survives(onto, st, ops, w)
    requires AddedTo(st.decisions, w) == {} && AddedTo(Run(onto, st, ops).decisions, w) == {}
    ensures w in Run(onto, st, ops).entities && Run(onto, st, ops).entities[w].aliases == st.entities[w].aliases
  {
    OwnNamesOverRun(onto, st, ops, w);
    WithoutNone(st.entities[w].aliases);
    WithoutNone(Run(onto, st, ops).entities[w].aliases);
  }

  /** Undone at once, a merge leaves every entity exactly as it was. */
  lemma UnmergeUndoesMerge(onto: Ontology, st: State, keep: Id, fold: Id, evidence: seq<string>, newId: Id, now: Time, later: Time)
    requires Identity(st) && newId !in st.decisions
    requires Merge(onto, st, keep, fold, evidence, newId, now).result.Ok?
    ensures var merged := Merge(onto, st, keep, fold, evidence, newId, now);
            var undone := Unmerge(merged.state, merged.result.value, later);
            undone.result.Ok? && undone.state.entities == st.entities
  {
    MergeMerges(onto, st, keep, fold, evidence, newId, now);
    var out := Merge(onto, st, keep, fold, evidence, newId, now);
    UnmergeRestores(st, out.state, keep, fold, out.result.value, Added(st.entities[keep], st.entities[fold]), later);
  }

  lemma UnmergeRestores(st: State, st': State, keep: Id, fold: Id, d: Id, added: seq<string>, later: Time)
    requires Merged(st, st', keep, fold, d, added)
    ensures var undone := Unmerge(st', d, later);
            undone.result.Ok? && undone.state.entities == st.entities
  {
    var aliases := st.entities[keep].aliases;
    WithoutOfSum(aliases, added, Set(added));
    WithoutAll(added, Set(added));
    WithoutNone(aliases);
    WithoutOthers(aliases, {}, Set(added));
    assert {} + Set(added) == Set(added);
    assert aliases + [] == aliases;
    hide Without;
    assert Without(st'.entities[keep].aliases, Set(added)) == aliases;
    assert Unmerge(st', d, later).state.entities == st.entities;
  }

  // ---------------------------------------------------------------- "distinct" is for good

  ghost predicate KeptApart(st: State, a: Id, b: Id) {
    exists d :: d in st.decisions && st.decisions[d].Between(a, b) && st.decisions[d].verdict == Distinct
  }

  lemma ApartIsTheDecision(st: State, a: Id, b: Id) returns (d: Id)
    requires OnePerPair(st.decisions) && KeptApart(st, a, b)
    ensures DecisionBetween(st.decisions, a, b) == Some(d) && st.decisions[d].verdict == Distinct
    ensures DecisionBetween(st.decisions, b, a) == Some(d)
  {
    d :| d in st.decisions && st.decisions[d].Between(a, b) && st.decisions[d].verdict == Distinct;
  }

  /** Marked apart, two entities are never merged, never noted as alike. */
  lemma ApartIsNeverMerged(onto: Ontology, st: State, a: Id, b: Id, evidence: seq<string>, episode: Option<string>, newId: Id, now: Time)
    requires OnePerPair(st.decisions) && KeptApart(st, a, b)
    ensures Merge(onto, st, a, b, evidence, newId, now).result.Refused?
    ensures Merge(onto, st, b, a, evidence, newId, now).result.Refused?
    ensures NoteCandidate(st, a, b, episode, newId, now) == (st, None)
  {
    var d := ApartIsTheDecision(st, a, b);
  }

  /** Over every run in which neither is deleted, they stay apart. */
  lemma {:induction false} ApartOverRun(onto: Ontology, st: State, ops: seq<(Op, Time)>, a: Id, b: Id)
    requires Identity(st) && KeptApart(st, a, b) && Survives(onto, st, ops, a) && Survives(onto, st, ops, b)
    ensures KeptApart(Run(onto, st, ops), a, b)
    decreases |ops|
  {
    if ops != [] {
      var d := ApartIsTheDecision(st, a, b);
      var st' := Step(onto, st, ops[0].0, ops[0].1);
      StepKeepsIdentity(onto, st, ops[0].0, ops[0].1);
      hide Step, Identity;
      assert d in st'.decisions && st'.decisions[d].verdict == Distinct && st'.decisions[d].Between(a, b);
      ApartOverRun(onto, st', ops[1..], a, b);
    }
  }
}
