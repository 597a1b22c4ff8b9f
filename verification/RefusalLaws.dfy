/** Why an operation is refused, said of the records; and that a refusal changes nothing, but for an assertion that was
  * counted first. */
module RefusalLaws {
  import opened Records
  import opened MergeForest
  import opened GraphSpec
  import opened Labels
  import opened ReadLaws
  import opened WriteLaws
  import opened NameLaws

  /** What keeps an entity from being written about. */
  predicate Hinders(es: Entities, e: Id, why: Refusal) {
    match why
    case Missing => e !in es
    case WasMerged => e in es && es[e].mergedInto.Some?
    case WasRemoved => e in es && es[e].mergedInto.None? && es[e].removedAt.Some?
    case _ => false
  }

  /** What is wrong with a claim about this subject. */
  ghost predicate Spoils(onto: Ontology, es: Entities, subject: Entity, c: Claim, why: Refusal) {
    if c.property !in onto.properties then why == UnknownProperty
    else
      var p := onto.properties[c.property];
      match why
      case DeprecatedProperty => p.deprecated
      case OutsideDomain => p.domain !in ChainOf(onto, subject.class_)
      case WrongShape =>
        if p.kind == Attribute then c.literal.None? || c.target.Some? else c.target.None? || c.literal.Some?
      case OutsideRange =>
        c.target.Some? && Upright(es, c.target.value) && !Suits(onto, subject, c.property, es[c.target.value])
      case _ => c.target.Some? && Hinders(es, c.target.value, why)
  }

  lemma ProblemSpoils(onto: Ontology, es: Entities, subject: Entity, c: Claim)
    ensures var problem := ClaimProblem(onto, es, subject, c);
            problem.Some? ==> Spoils(onto, es, subject, c, problem.value)
  {
    hide Suits;
    if c.property in onto.properties && c.target.Some? && Upright(es, c.target.value) {
      SuitsIff(onto, subject, c.property, es[c.target.value]);
    }
  }

  /** An assertion: a status it cannot have, a subject that does not stand, something wrong with the claim, or a claim found
    * as a proposal whose own subject does not stand; only in that last case was anything written. */
  lemma AssertionRefused(onto: Ontology, st: State, id: Id, c: Claim, status: Status, validFrom: Option<Time>, now: Time)
    ensures var out := Assert(onto, st, id, c, status, validFrom, now);
      match out.result
      case Ok(_) => true
      case Refused(why) =>
        || (why == BadStatus && status == Retracted && out.state == st)
        || (status != Retracted && Hinders(st.entities, c.subject, why) && out.state == st)
        || (Upright(st.entities, c.subject) && Spoils(onto, st.entities, st.entities[c.subject], c, why)
            && out.state == st)
        || (status == Confirmed
            && exists i :: IsAbout(st, i, c.subject) && Claims(st.statements[i], c) && st.statements[i].status == Proposed
                           && Hinders(st.entities, st.statements[i].subject, why))
  {
    hide ClaimProblem, Spoils, Group, Place, NewStatement;
    if Upright(st.entities, c.subject) {
      ProblemSpoils(onto, st.entities, st.entities[c.subject], c);
    }
    if Alike(st, c, now) != {} {
      var i := First(st.statements, Alike(st, c, now));
      assert i in Alike(st, c, now) && IsAbout(st, i, c.subject) && Claims(st.statements[i], c);
    }
  }

  lemma ConfirmationRefused(onto: Ontology, st: State, id: Id, now: Time)
    ensures var out := Confirm(onto, st, id, now);
      match out.result
      case Ok(_) => true
      case Refused(why) =>
        && out.state == st
        && if id !in st.statements then why == Missing
           else if st.statements[id].status == Retracted then why == AlreadyRetracted
           else Hinders(st.entities, st.statements[id].subject, why)
  {
    hide Place;
  }

  lemma EndRefused(st: State, id: Id, at: Option<Time>, now: Time)
    ensures var out := End(st, id, at, now);
      match out.result
      case Ok(_) => true
      case Refused(Missing) => id !in st.statements && out.state == st
      case Refused(AlreadyRetracted) => id in st.statements && st.statements[id].status == Retracted && out.state == st
      case Refused(AlreadyEnded) => id in st.statements && st.statements[id].validTo.Some? && out.state == st
      case Refused(EndsBeforeStart) =>
        && id in st.statements && out.state == st
        && (match at case Some(t) => t <= Since(st.statements[id]) case None => now <= Since(st.statements[id]))
      case Refused(_) => false
  {
  }

  /** Unconfirming, retracting and restoring: only what is not there. */
  lemma OnlyMissing(onto: Ontology, st: State, id: Id, reason: Option<string>, now: Time)
    ensures Unconfirm(st, id).result == if id in st.statements then Ok(id) else Refused(Missing)
    ensures Retract(st, id, reason, now).result == if id in st.statements then Ok(id) else Refused(Missing)
    ensures Restore(onto, st, id, now).result == if id in st.entities then Ok(id) else Refused(Missing)
    ensures id !in st.statements ==> Unconfirm(st, id).state == st && Retract(st, id, reason, now).state == st
    ensures id !in st.entities ==> Restore(onto, st, id, now).state == st
  {
    hide PutBackAll;
  }

  lemma ReinstatementRefused(onto: Ontology, st: State, id: Id, status: Status, reason: Option<string>, now: Time)
    ensures var out := Reinstate(onto, st, id, status, reason, now);
      match out.result
      case Ok(_) => true
      case Refused(why) =>
        && out.state == st
        && if id !in st.statements then why == Missing
           else if st.statements[id].status != Retracted then why == NotRetracted
           else if status == Retracted then why == BadStatus
           else || Hinders(st.entities, st.statements[id].subject, why)
                || (st.statements[id].target.Some? && Hinders(st.entities, st.statements[id].target.value, why))
  {
    hide PutBack;
  }

  lemma RemovalRefused(st: State, e: Id, reason: string, now: Time)
    ensures var out := Remove(st, e, reason, now);
      match out.result
      case Ok(_) => true
      case Refused(why) => out.state == st && if e == OWNER_ID then why == OwnerStays else Hinders(st.entities, e, why)
  {
    hide Live, Oldest, Memo;
  }

  lemma DeletionRefused(st: State, e: Id, now: Time)
    ensures match Delete(st, e, now).result
      case Ok(_) => true
      case Refused(Missing) => e !in st.entities
      case Refused(NotRemoved) => e in st.entities && st.entities[e].removedAt.None?
      case Refused(HasMembers) => exists m :: m in st.entities && m != e && Under(st.entities, m, e)
      case Refused(StillHolds) => exists i :: NamesIt(st, i, e) && HoldsNow(st.statements[i], now)
      case Refused(_) => false
  {
    hide Under, Live, NamesIt;
    assert e in Group(st.entities, e);
    if m :| m in Group(st.entities, e) && m != e {
      assert Under(st.entities, m, e);
    }
    if i :| i in Live(st, e, now) {
      LiveIff(st, e, now, i);
    }
  }

  lemma PurgeRefused(st: State, ids: set<Id>, now: Time)
    ensures match Purge(st, ids, now).result
      case Ok(_) => true
      case Refused(Missing) => exists i :: i in ids && i !in st.statements
      case Refused(StillHolds) => exists i :: i in ids && i in st.statements && HoldsNow(st.statements[i], now)
      case Refused(_) => false
  {
  }

  lemma AdditionRefused(onto: Ontology, st: State, e: Id, class_: string, name: string, aliases: seq<string>, now: Time)
    ensures match AddEntity(onto, st, e, class_, name, aliases, now).result
      case Ok(_) => true
      case Refused(EmptyLabel) => Blank(name)
      case Refused(UndeclaredClass) => class_ !in onto.classes
      case Refused(AbstractClass) => class_ in onto.abstracts
      case Refused(DeprecatedClass) => class_ in onto.outdated
      case Refused(_) => false
  {
    EmptyLabelIff(name);
    hide Label, Blank, FreshNames;
  }

  lemma MergeRefused(onto: Ontology, st: State, keep: Id, fold: Id, evidence: seq<string>, newId: Id, now: Time)
    ensures var out := Merge(onto, st, keep, fold, evidence, newId, now);
      match out.result
      case Ok(_) => true
      case Refused(WithItself) => keep == fold
      case Refused(MarkedDistinct) => LastlyIs(st.decisions, keep, fold, Distinct)
      case Refused(UnrelatedClasses) =>
        && keep in st.entities && fold in st.entities
        && st.entities[keep].class_ !in ChainOf(onto, st.entities[fold].class_)
        && st.entities[fold].class_ !in ChainOf(onto, st.entities[keep].class_)
      case Refused(why) => Hinders(st.entities, keep, why) || Hinders(st.entities, fold, why)
  {
    LastlyIff(st.decisions, keep, fold, Distinct);
    hide LastlyIs, DecisionBetween, FreshNames;
  }

  lemma UnmergeRefused(st: State, d: Id, now: Time)
    ensures match Unmerge(st, d, now).result
      case Ok(_) => true
      case Refused(NotAMerge) => d !in st.decisions || st.decisions[d].verdict != Same
      case Refused(Missing) =>
        d in st.decisions && (st.decisions[d].a !in st.entities || st.decisions[d].b !in st.entities)
      case Refused(_) => false
  {
  }

  lemma DistinctionRefused(st: State, a: Id, b: Id, newId: Id, now: Time)
    ensures match MarkDistinct(st, a, b, newId, now).result
      case Ok(_) => true
      case Refused(AreMerged) => LastlyIs(st.decisions, a, b, Same)
      case Refused(_) => false
  {
    LastlyIff(st.decisions, a, b, Same);
    hide LastlyIs, DecisionBetween;
  }
}
