/** What merging and unmerging do to timelines: two may become one, and another class may limit them. */
module MergeTimelines {
  import opened Records
  import opened MergeForest
  import opened GraphSpec
  import opened TimelineLaws

  /** A confirmed value about the entity or anything merged into it, on a property it limits to one. */
  ghost predicate ValueOf(onto: Ontology, st: State, e: Id, limiter: Id, i: Id) {
    && i in st.statements && st.statements[i].status == Confirmed
    && Canon(st.entities, st.statements[i].subject) == e
    && limiter in st.entities && onto.SingleValued(st.entities[limiter], st.statements[i].property)
  }

  /** Two confirmed values of one property, not both the keeper's own, under the keeper's limits: they never hold at one
      instant. */
  ghost predicate FoldsApart(onto: Ontology, st: State, keep: Id, fold: Id) {
    forall i, j | ValueOf(onto, st, fold, keep, i)
                  && (ValueOf(onto, st, fold, keep, j) || ValueOf(onto, st, keep, keep, j))
                  && i != j && st.statements[i].property == st.statements[j].property
                :: Apart(st.statements[i], st.statements[j])
  }

  /** The state after a merge that was not refused, as far as timelines go. */
  ghost predicate Folded(st: State, st': State, keep: Id, fold: Id) {
    && Root(st.entities, keep) && Root(st.entities, fold) && keep != fold
    && st'.statements == st.statements && st'.entities.Keys == st.entities.Keys
    && st'.entities[fold].mergedInto == Some(keep)
    && forall x :: x in st.entities ==>
         st'.entities[x].class_ == st.entities[x].class_
         && (x != fold ==> st'.entities[x].mergedInto == st.entities[x].mergedInto)
  }

  lemma MergeFolds(onto: Ontology, st: State, keep: Id, fold: Id, evidence: seq<string>, newId: Id, now: Time)
    requires MergeRefusal(onto, st, keep, fold).None?
    ensures Folded(st, Merge(onto, st, keep, fold, evidence, newId, now).state, keep, fold)
  {
    hide DecisionBetween, FreshNames, Added;
  }

  /** Subjects of statements are entities, so every one of them has a canonical entity. */
  ghost predicate Placed(st: State) {
    forall i :: i in st.statements ==> st.statements[i].subject in st.entities
  }

  lemma FoldedCanon(st: State, st': State, keep: Id, fold: Id, i: Id)
    requires Forest(st.entities) && Placed(st) && Folded(st, st', keep, fold) && i in st.statements
    ensures var c := Canon(st.entities, st.statements[i].subject);
            Canon(st'.entities, st.statements[i].subject) == if c == fold then keep else c
  {
    MergeMovesCanon(st.entities, st'.entities, keep, fold, st.statements[i].subject);
  }

  lemma SameLimits(onto: Ontology, a: Entity, b: Entity, property: string)
    requires a.class_ == b.class_
    ensures onto.SingleValued(a, property) == onto.SingleValued(b, property)
  {
  }

  lemma FoldedSlots(onto: Ontology, st: State, st': State, keep: Id, fold: Id, i: Id, j: Id)
    requires Forest(st.entities) && Placed(st) && Folded(st, st', keep, fold)
    requires i in st.statements && j in st.statements && st.statements[i].property == st.statements[j].property
    ensures var ci, cj := Canon(st.entities, st.statements[i].subject), Canon(st.entities, st.statements[j].subject);
            var p := st.statements[i].property;
            Slot(onto, st', i, j)
            <==> if ci in {keep, fold} then cj in {keep, fold} && onto.SingleValued(st.entities[keep], p)
                 else Slot(onto, st, i, j)
  {
    hide Canon, Ontology.SingleValued, Forest;
    FoldedCanon(st, st', keep, fold, i);
    FoldedCanon(st, st', keep, fold, j);
    var c := Canon(st'.entities, st.statements[i].subject);
    if c in st.entities {
      SameLimits(onto, st.entities[c], st'.entities[c], st.statements[i].property);
    }
  }

  /** A merge keeps timelines apart exactly when no two confirmed values that it brings under the keeper's limits hold at
      one instant: one of the folded group against the keeper's, or two of the folded group on a property that only the
      keeper's class limits. */
  lemma MergeKeepsTimelineIff(onto: Ontology, st: State, keep: Id, fold: Id, evidence: seq<string>, newId: Id, now: Time)
    requires Forest(st.entities) && Placed(st) && TimelineSafe(onto, st)
    requires MergeRefusal(onto, st, keep, fold).None?
    ensures TimelineSafe(onto, Merge(onto, st, keep, fold, evidence, newId, now).state)
            <==> FoldsApart(onto, st, keep, fold)
  {
    hide MergeRefusal, Merge, Forest, Canon, Apart, Placed, Ontology.SingleValued;
    MergeFolds(onto, st, keep, fold, evidence, newId, now);
    var st' := Merge(onto, st, keep, fold, evidence, newId, now).state;
    forall i, j | i in st.statements && j in st.statements && st.statements[i].property == st.statements[j].property
      ensures var ci := Canon(st.entities, st.statements[i].subject);
              var cj := Canon(st.entities, st.statements[j].subject);
              Slot(onto, st', i, j)
              <==> if ci in {keep, fold} then cj in {keep, fold}
                                              && onto.SingleValued(st.entities[keep], st.statements[i].property)
                   else Slot(onto, st, i, j)
    {
      FoldedSlots(onto, st, st', keep, fold, i, j);
    }
    FoldedSafeIff(onto, st, st', keep, fold);
  }

  lemma ApartBothWays(a: Statement, b: Statement)
    ensures Apart(a, b) == Apart(b, a)
  {
  }

  lemma FoldedSafeIff(onto: Ontology, st: State, st': State, keep: Id, fold: Id)
    requires TimelineSafe(onto, st) && Folded(st, st', keep, fold)
    requires forall i, j | i in st.statements && j in st.statements && st.statements[i].property == st.statements[j].property
      :: Slot(onto, st', i, j)
         <==> if Canon(st.entities, st.statements[i].subject) in {keep, fold}
              then Canon(st.entities, st.statements[j].subject) in {keep, fold}
                   && onto.SingleValued(st.entities[keep], st.statements[i].property)
              else Slot(onto, st, i, j)
    ensures TimelineSafe(onto, st') <==> FoldsApart(onto, st, keep, fold)
  {
    hide Canon, Apart, Ontology.SingleValued;
    if FoldsApart(onto, st, keep, fold) {
      forall i, j | Slot(onto, st', i, j) && i != j
                    && st.statements[i].status == Confirmed && st.statements[j].status == Confirmed
        ensures Apart(st.statements[i], st.statements[j])
      {
        ApartBothWays(st.statements[i], st.statements[j]);
        if Canon(st.entities, st.statements[i].subject) == fold {
          assert ValueOf(onto, st, fold, keep, i);
        } else if Canon(st.entities, st.statements[i].subject) == keep {
          assert ValueOf(onto, st, keep, keep, i);
          if Canon(st.entities, st.statements[j].subject) == fold {
            assert ValueOf(onto, st, fold, keep, j);
          } else {
            assert Slot(onto, st, i, j);
          }
        }
      }
    }
    if TimelineSafe(onto, st') {
      forall i, j | ValueOf(onto, st, fold, keep, i)
                    && (ValueOf(onto, st, fold, keep, j) || ValueOf(onto, st, keep, keep, j))
                    && i != j && st.statements[i].property == st.statements[j].property
        ensures Apart(st.statements[i], st.statements[j])
      {
        assert Slot(onto, st', i, j);
      }
    }
  }

  // ---------------------------------------------------------------- unmerging

  /** What stood under the loser of a merge, by its own limits, never holds twice at one instant. */
  ghost predicate LoserApart(onto: Ontology, st: State, loser: Id) {
    forall i, j | ValueUnder(onto, st, loser, i) && ValueUnder(onto, st, loser, j)
                  && i != j && st.statements[i].property == st.statements[j].property
                :: Apart(st.statements[i], st.statements[j])
  }

  ghost predicate ValueUnder(onto: Ontology, st: State, loser: Id, i: Id) {
    && i in st.statements && st.statements[i].status == Confirmed && Under(st.entities, st.statements[i].subject, loser)
    && loser in st.entities && onto.SingleValued(st.entities[loser], st.statements[i].property)
  }

  ghost predicate Unfolded(st: State, st': State, loser: Id) {
    && loser in st.entities && st'.statements == st.statements && st'.entities.Keys == st.entities.Keys
    && st'.entities[loser].mergedInto.None?
    && forall x :: x in st.entities ==>
         st'.entities[x].class_ == st.entities[x].class_
         && (x != loser ==> st'.entities[x].mergedInto == st.entities[x].mergedInto)
  }

  lemma UnmergeUnfolds(st: State, d: Id, now: Time)
    requires Unmerge(st, d, now).result.Ok?
    ensures d in st.decisions && Unfolded(st, Unmerge(st, d, now).state, st.decisions[d].b)
  {
    hide Without;
  }

  lemma UnfoldedSlots(onto: Ontology, st: State, st': State, loser: Id, i: Id, j: Id)
    requires Forest(st.entities) && Placed(st) && Unfolded(st, st', loser)
    requires i in st.statements && j in st.statements && st.statements[i].property == st.statements[j].property
    ensures var ui, uj := Under(st.entities, st.statements[i].subject, loser), Under(st.entities, st.statements[j].subject, loser);
            Slot(onto, st', i, j)
            <==> if ui && uj then onto.SingleValued(st.entities[loser], st.statements[i].property)
                 else !ui && !uj && Slot(onto, st, i, j)
  {
    var si, sj := st.statements[i].subject, st.statements[j].subject;
    UnmergeMovesCanon(st.entities, st'.entities, loser, si);
    UnmergeMovesCanon(st.entities, st'.entities, loser, sj);
    NotUnderIsElsewhere(st.entities, loser, si);
    NotUnderIsElsewhere(st.entities, loser, sj);
    hide Canon, Ontology.SingleValued, Forest, Under;
    var c := Canon(st'.entities, si);
    if c in st.entities {
      SameLimits(onto, st.entities[c], st'.entities[c], st.statements[i].property);
    }
  }

  lemma NotUnderIsElsewhere(es: Entities, x: Id, e: Id)
    requires Forest(es) && e in es
    ensures !Under(es, e, x) ==> Canon(es, e) != x
  {
    CanonIsTheRoot(es, e);
  }

  /** Undoing a merge keeps timelines apart exactly when no two confirmed values of the loser's own group, on a property
      its class limits, hold at one instant. */
  lemma UnmergeKeepsTimelineIff(onto: Ontology, st: State, d: Id, now: Time)
    requires Forest(st.entities) && Placed(st) && TimelineSafe(onto, st) && Unmerge(st, d, now).result.Ok?
    ensures d in st.decisions
    ensures TimelineSafe(onto, Unmerge(st, d, now).state) <==> LoserApart(onto, st, st.decisions[d].b)
  {
    hide Unmerge, Forest, Canon, Apart, Placed, Under, Ontology.SingleValued;
    UnmergeUnfolds(st, d, now);
    var st', loser := Unmerge(st, d, now).state, st.decisions[d].b;
    forall i, j | i in st.statements && j in st.statements && st.statements[i].property == st.statements[j].property
      ensures var ui := Under(st.entities, st.statements[i].subject, loser);
              var uj := Under(st.entities, st.statements[j].subject, loser);
              Slot(onto, st', i, j)
              <==> if ui && uj then onto.SingleValued(st.entities[loser], st.statements[i].property)
                   else !ui && !uj && Slot(onto, st, i, j)
    {
      UnfoldedSlots(onto, st, st', loser, i, j);
    }
    UnfoldedSafeIff(onto, st, st', loser);
  }

  lemma UnfoldedSafeIff(onto: Ontology, st: State, st': State, loser: Id)
    requires TimelineSafe(onto, st) && Unfolded(st, st', loser)
    requires forall i, j | i in st.statements && j in st.statements && st.statements[i].property == st.statements[j].property
      :: Slot(onto, st', i, j)
         <==> if Under(st.entities, st.statements[i].subject, loser) && Under(st.entities, st.statements[j].subject, loser)
              then onto.SingleValued(st.entities[loser], st.statements[i].property)
              else !Under(st.entities, st.statements[i].subject, loser)
                   && !Under(st.entities, st.statements[j].subject, loser) && Slot(onto, st, i, j)
    ensures TimelineSafe(onto, st') <==> LoserApart(onto, st, loser)
  {
    hide Canon, Apart, Under, Ontology.SingleValued;
    if LoserApart(onto, st, loser) {
      forall i, j | Slot(onto, st', i, j) && i != j
                    && st.statements[i].status == Confirmed && st.statements[j].status == Confirmed
        ensures Apart(st.statements[i], st.statements[j])
      {
        if Under(st.entities, st.statements[i].subject, loser) {
          assert ValueUnder(onto, st, loser, i) && ValueUnder(onto, st, loser, j);
        }
      }
    }
    if TimelineSafe(onto, st') {
      forall i, j | ValueUnder(onto, st, loser, i) && ValueUnder(onto, st, loser, j)
                    && i != j && st.statements[i].property == st.statements[j].property
        ensures Apart(st.statements[i], st.statements[j])
      {
        assert Slot(onto, st', i, j);
      }
    }
  }
}
