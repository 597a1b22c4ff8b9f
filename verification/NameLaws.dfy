/** The names and the decisions a write leaves: which names an entity answers to after it was added, merged or unmerged,
    and what is decided about a pair. Said of the fields of the records. */
module NameLaws {
  import opened Records
  import opened GraphSpec
  import opened Labels
  import opened WriteLaws

  predicate NoTwice(names: seq<string>) {
    forall j, k :: 0 <= j < k < |names| ==> names[j] != names[k]
  }

  /** In the order in which they first come up. */
  ghost predicate AsTheyComeUp(r: seq<string>, names: seq<string>) {
    forall j, k :: 0 <= j < k < |r| ==> exists i :: 0 <= i < |names| && names[i] == r[j] && r[k] !in names[..i + 1]
  }

  lemma {:induction false} FreshComeUp(names: seq<string>, taken: set<string>)
    ensures NoTwice(FreshNames(names, taken)) && AsTheyComeUp(FreshNames(names, taken), names)
    decreases |names|
  {
    if names != [] {
      var seen := taken + {names[0]};
      var r, rest := FreshNames(names, taken), FreshNames(names[1..], if names[0] in taken then taken else seen);
      FreshComeUp(names[1..], if names[0] in taken then taken else seen);
      if names[0] in taken {
        LaterComeUp(rest, names);
      } else {
        assert r == [names[0]] + rest;
        LaterComeUp(rest, names);
        forall k | 1 <= k < |r|
          ensures r[k] != names[0] && r[k] !in names[..1]
        {
          assert r[k] == rest[k - 1] && rest[k - 1] in rest;
        }
        FirstComesUp(names, rest);
      }
    }
  }

  lemma LaterComeUp(rest: seq<string>, names: seq<string>)
    requires names != [] && AsTheyComeUp(rest, names[1..]) && names[0] !in rest
    ensures AsTheyComeUp(rest, names)
  {
    forall j, k | 0 <= j < k < |rest|
      ensures exists i :: 0 <= i < |names| && names[i] == rest[j] && rest[k] !in names[..i + 1]
    {
      var i :| 0 <= i < |names[1..]| && names[1..][i] == rest[j] && rest[k] !in names[1..][..i + 1];
      assert names[..i + 2] == [names[0]] + names[1..][..i + 1];
      assert names[i + 1] == rest[j] && rest[k] in rest;
    }
  }

  lemma FirstComesUp(names: seq<string>, rest: seq<string>)
    requires names != [] && AsTheyComeUp(rest, names) && names[0] !in rest && NoTwice(rest)
    ensures NoTwice([names[0]] + rest) && AsTheyComeUp([names[0]] + rest, names)
  {
    var r := [names[0]] + rest;
    forall j, k | 0 <= j < k < |r|
      ensures r[j] != r[k] && exists i :: 0 <= i < |names| && names[i] == r[j] && r[k] !in names[..i + 1]
    {
      assert r[k] == rest[k - 1] && rest[k - 1] in rest;
      if j == 0 {
        assert names[0] == r[j] && r[k] !in names[..0 + 1];
      } else {
        assert r[j] == rest[j - 1];
        var i :| 0 <= i < |names| && names[i] == rest[j - 1] && rest[k - 1] !in names[..i + 1];
        assert names[i] == r[j];
      }
    }
  }

  // ---------------------------------------------------------------- a new entity

  /** An added entity stands alone under its label and class, with the other names it was given, each once, in order; no
      other record is touched. */
  lemma AddedEntity(onto: Ontology, st: State, e: Id, class_: string, name: string, aliases: seq<string>, now: Time)
    requires AddEntity(onto, st, e, class_, name, aliases, now).result.Ok?
    ensures var out := AddEntity(onto, st, e, class_, name, aliases, now);
      && out.result.value == e && out.state.statements == st.statements && out.state.decisions == st.decisions
      && out.state.entities.Keys == st.entities.Keys + {e}
      && (forall x :: x in st.entities && x != e ==> out.state.entities[x] == st.entities[x])
      && var x := out.state.entities[e];
         && x.class_ == class_ && x.name == Label(name) && x.createdAt == now && Upright(out.state.entities, e)
         && x.removedReason.None? && x.removedStatements == []
         && (forall n :: n in x.aliases <==> n in aliases && n != Label(name) && |n| > 0)
         && NoTwice(x.aliases) && AsTheyComeUp(x.aliases, aliases)
  {
    FreshComeUp(aliases, {Label(name), ""});
    hide Label, AsTheyComeUp, NoTwice;
  }

  lemma NotAdded(onto: Ontology, st: State, e: Id, class_: string, name: string, aliases: seq<string>, now: Time)
    ensures var out := AddEntity(onto, st, e, class_, name, aliases, now);
      && (out.result.Ok? <==> && !Blank(name) && class_ in onto.classes && class_ !in onto.abstracts
                              && class_ !in onto.outdated)
      && (out.result.Refused? ==> out.state == st)
  {
    EmptyLabelIff(name);
    hide Label, Blank, FreshNames;
  }

  // ---------------------------------------------------------------- what is decided about a pair

  predicate OfPair(d: Decision, a: Id, b: Id) {
    (d.a == a && d.b == b) || (d.a == b && d.b == a)
  }

  predicate Later(ds: map<Id, Decision>, i: Id, j: Id)
    requires i in ds && j in ds
  {
    ds[i].decidedAt > ds[j].decidedAt || (ds[i].decidedAt == ds[j].decidedAt && i > j)
  }

  /** The last word about a pair, in either order. */
  predicate LastWord(ds: map<Id, Decision>, a: Id, b: Id, d: Id) {
    && d in ds && OfPair(ds[d], a, b)
    && forall j | j in ds :: OfPair(ds[j], a, b) && j != d ==> Later(ds, d, j)
  }

  predicate Undecided(ds: map<Id, Decision>, a: Id, b: Id) {
    forall d | d in ds :: !OfPair(ds[d], a, b)
  }

  /** The last word is the given verdict. */
  ghost predicate LastlyIs(ds: map<Id, Decision>, a: Id, b: Id, v: Verdict) {
    exists d :: LastWord(ds, a, b, d) && ds[d].verdict == v
  }

  lemma LastWordIff(ds: map<Id, Decision>, a: Id, b: Id, d: Id)
    ensures LastWord(ds, a, b, d) <==> DecisionBetween(ds, a, b) == Some(d)
    ensures Undecided(ds, a, b) <==> DecisionBetween(ds, a, b).None?
  {
    forall i | i in ds
      ensures ds[i].Between(a, b) <==> OfPair(ds[i], a, b)
    {
      PairIff(ds[i], a, b);
    }
    var last := DecisionBetween(ds, a, b);
    hide DecisionBetween, OfPair, Decision.Between;
  }

  lemma PairIff(d: Decision, a: Id, b: Id)
    ensures d.Between(a, b) <==> OfPair(d, a, b)
  {
    if {d.a, d.b} == {a, b} {
      assert d.a in {a, b} && d.b in {a, b} && a in {d.a, d.b} && b in {d.a, d.b};
    }
  }

  lemma LastlyIff(ds: map<Id, Decision>, a: Id, b: Id, v: Verdict)
    ensures LastlyIs(ds, a, b, v)
            <==> DecisionBetween(ds, a, b).Some? && ds[DecisionBetween(ds, a, b).value].verdict == v
  {
    var last := DecisionBetween(ds, a, b);
    if last.Some? { LastWordIff(ds, a, b, last.value); }
    hide LastWord, DecisionBetween;
    if d :| LastWord(ds, a, b, d) && ds[d].verdict == v {
      LastWordIff(ds, a, b, d);
    }
  }

  /** One decision is written, over the last word about the pair if there is one; every other stays. */
  ghost predicate DecidesOver(ds: map<Id, Decision>, ds': map<Id, Decision>, a: Id, b: Id, newId: Id, d: Id) {
    && (if Undecided(ds, a, b) then d == newId else LastWord(ds, a, b, d))
    && ds'.Keys == ds.Keys + {d} && forall x :: x in ds && x != d ==> ds'[x] == ds[x]
  }

  function EvidenceOf(ds: map<Id, Decision>, d: Id): seq<string> {
    if d in ds then ds[d].evidence else []
  }

  // ---------------------------------------------------------------- merging

  /** Two are merged exactly when both stand, are not one, belong to related classes, and were not lastly told apart. */
  lemma MergesIff(onto: Ontology, st: State, keep: Id, fold: Id, evidence: seq<string>, newId: Id, now: Time)
    ensures var out := Merge(onto, st, keep, fold, evidence, newId, now);
      && (out.result.Ok? <==> && Upright(st.entities, keep) && Upright(st.entities, fold) && keep != fold
                              && (st.entities[keep].class_ in ChainOf(onto, st.entities[fold].class_)
                                  || st.entities[fold].class_ in ChainOf(onto, st.entities[keep].class_))
                              && !LastlyIs(st.decisions, keep, fold, Distinct))
      && (out.result.Refused? ==> out.state == st)
  {
    LastlyIff(st.decisions, keep, fold, Distinct);
    hide DecisionBetween, LastlyIs, FreshNames;
  }

  /** After a merge the keeper answers to its own names, as they stood, and after them to those of the other that it did
      not have, its label first, each once; the other is as it was, but merged into it. */
  lemma NamesMerged(onto: Ontology, st: State, keep: Id, fold: Id, evidence: seq<string>, newId: Id, now: Time)
    requires Merge(onto, st, keep, fold, evidence, newId, now).result.Ok?
    ensures keep in st.entities && fold in st.entities && keep != fold
    ensures var out := Merge(onto, st, keep, fold, evidence, newId, now).state;
      && out.statements == st.statements && out.entities.Keys == st.entities.Keys
      && (forall x :: x in st.entities && x != keep && x != fold ==> out.entities[x] == st.entities[x])
      && out.entities[fold] == st.entities[fold].(mergedInto := Some(keep))
      && var winner, loser, now_ := st.entities[keep], st.entities[fold], out.entities[keep];
         && now_ == winner.(aliases := now_.aliases) && winner.aliases <= now_.aliases
         && (forall n :: n == now_.name || n in now_.aliases
                         <==> n == winner.name || n in winner.aliases || n == loser.name || n in loser.aliases)
         && var added := now_.aliases[|winner.aliases|..];
            && NoTwice(added) && AsTheyComeUp(added, [loser.name] + loser.aliases)
            && forall n :: n in added ==> n != winner.name && n !in winner.aliases
  {
    hide DecisionBetween, AsTheyComeUp, NoTwice, Ontology.Related;
    var winner, loser := st.entities[keep], st.entities[fold];
    var added := Added(winner, loser);
    FreshComeUp([loser.name] + loser.aliases, {winner.name} + Set(winner.aliases));
    assert (winner.aliases + added)[|winner.aliases|..] == added;
    forall n
      ensures n in added <==> (n == loser.name || n in loser.aliases) && n != winner.name && n !in winner.aliases
    {
      assert n in [loser.name] + loser.aliases <==> n == loser.name || n in loser.aliases;
    }
  }

  /** The merge is on record: the pair in its order, now, with all the evidence there was and is, each once, and the names
      it added. */
  lemma MergedDecision(onto: Ontology, st: State, keep: Id, fold: Id, evidence: seq<string>, newId: Id, now: Time)
    requires Merge(onto, st, keep, fold, evidence, newId, now).result.Ok?
    ensures var out := Merge(onto, st, keep, fold, evidence, newId, now);
      var d := out.result.value;
      && DecidesOver(st.decisions, out.state.decisions, keep, fold, newId, d)
      && keep in st.entities && keep in out.state.entities
      && var r := out.state.decisions[d];
         && r.a == keep && r.b == fold && r.verdict == Same && r.decidedAt == now
         && out.state.entities[keep].aliases == st.entities[keep].aliases + r.addedAliases
         && (forall x :: x in r.evidence <==> (!Undecided(st.decisions, keep, fold) && x in EvidenceOf(st.decisions, d))
                                              || x in evidence)
         && NoTwice(r.evidence)
  {
    hide DecisionBetween, NoTwice, AsTheyComeUp, Ontology.Related, Added, LastWord, Undecided;
    var last := DecisionBetween(st.decisions, keep, fold);
    LastWordIff(st.decisions, keep, fold, if last.Some? then last.value else newId);
    var seen := if last.Some? then st.decisions[last.value].evidence else [];
    FreshComeUp(seen + evidence, {});
  }

  // ---------------------------------------------------------------- unmerging

  /** Only a merge on record, of two that still exist, is undone: the loser stands for itself, the keeper loses the names it
      was lent and no other, and the decision says so. */
  lemma NamesUnmerged(st: State, d: Id, now: Time, n: string)
    ensures var out := Unmerge(st, d, now);
      && (out.result.Ok? <==> && d in st.decisions && st.decisions[d].verdict == Same
                              && st.decisions[d].a in st.entities && st.decisions[d].b in st.entities)
      && (if out.result.Ok? then
            var r := st.decisions[d];
            && out.state.statements == st.statements && out.state.entities.Keys == st.entities.Keys
            && out.state.decisions == st.decisions[d := r.(verdict := Undone, decidedAt := now)]
            && out.state.entities[r.b].mergedInto.None? && out.state.entities[r.b].name == st.entities[r.b].name
            && (forall x :: x in st.entities && x != r.a && x != r.b ==> out.state.entities[x] == st.entities[x])
            && (r.a != r.b ==>
                  && out.state.entities[r.b] == st.entities[r.b].(mergedInto := None)
                  && out.state.entities[r.a] == st.entities[r.a].(aliases := out.state.entities[r.a].aliases)
                  && (n in out.state.entities[r.a].aliases <==> n in st.entities[r.a].aliases && n !in r.addedAliases))
          else out.state == st)
  {
  }

  // ---------------------------------------------------------------- telling apart, and evidence

  /** A pair is told apart unless it is merged; the evidence stays on record. */
  lemma ToldApart(st: State, a: Id, b: Id, newId: Id, now: Time)
    ensures var out := MarkDistinct(st, a, b, newId, now);
      && (out.result.Ok? <==> !LastlyIs(st.decisions, a, b, Same))
      && out.state.entities == st.entities && out.state.statements == st.statements
      && (if out.result.Ok? then
            var d := out.result.value;
            && DecidesOver(st.decisions, out.state.decisions, a, b, newId, d)
            && out.state.decisions[d] == Decision(a, b, Distinct, now,
                 if Undecided(st.decisions, a, b) then [] else EvidenceOf(st.decisions, d), [])
          else out.state == st)
  {
    var last := DecisionBetween(st.decisions, a, b);
    LastWordIff(st.decisions, a, b, if last.Some? then last.value else newId);
    LastlyIff(st.decisions, a, b, Same);
    hide DecisionBetween, LastlyIs, LastWord, Undecided;
  }

  /** A pair gains an episode as evidence, once, unless it is merged or was told apart. */
  lemma EvidenceNoted(st: State, a: Id, b: Id, episode: Option<string>, newId: Id, now: Time)
    ensures var (st', d) := NoteCandidate(st, a, b, episode, newId, now);
      && (d.None? <==> LastlyIs(st.decisions, a, b, Same) || LastlyIs(st.decisions, a, b, Distinct))
      && st'.entities == st.entities && st'.statements == st.statements
      && (if d.Some? then
            var seen := if Undecided(st.decisions, a, b) then [] else EvidenceOf(st.decisions, d.value);
            && DecidesOver(st.decisions, st'.decisions, a, b, newId, d.value)
            && var r := st'.decisions[d.value];
               && r.verdict == Candidate && r.decidedAt == now && r.addedAliases == []
               && (if Undecided(st.decisions, a, b) then r.a == a && r.b == b
                   else d.value in st.decisions && r.a == st.decisions[d.value].a && r.b == st.decisions[d.value].b)
               && r.evidence == (match episode
                                 case Some(x) => if x in seen then seen else seen + [x]
                                 case None => seen)
          else st' == st)
  {
    var last := DecisionBetween(st.decisions, a, b);
    LastWordIff(st.decisions, a, b, if last.Some? then last.value else newId);
    LastlyIff(st.decisions, a, b, Same);
    LastlyIff(st.decisions, a, b, Distinct);
    hide DecisionBetween, LastlyIs, LastWord, Undecided;
  }
}
