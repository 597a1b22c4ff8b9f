/** Promises the graph does not keep on every input, each with an input that shows it.
    The laws beside them say exactly when each one is kept. */
module Surprises {
  import opened Records
  import opened MergeForest
  import opened GraphSpec
  import opened IdentityLaws
  import opened TimelineLaws
  import opened RemovalLaws
  import opened RestoreLaws
  import opened MergeTimelines
  import opened RestoreTimelines
  import opened WriteLaws

  const PERSON := Entity("Person", "Ada", [], 0, None, None, None, [])
  const ONE_CITY := Ontology(map["Person" := ["Person"]], {}, {},
                             map["Person" := map["city" := Constraint(Some(1), None)]],
                             map["city" := Property(Attribute, "Person", "string", false)])

  function City(name: string, recordedAt: Time, validFrom: Option<Time>, validTo: Option<Time>, supersedes: Option<Id>)
    : Statement
  {
    Statement(1, "city", None, Some(name), recordedAt, validFrom, validTo, None, Confirmed, supersedes, None, 1, None)
  }

  function Ada(ss: Statements): State {
    State(map[1 := PERSON], ss, map[])
  }

  lemma OneCity()
    ensures ONE_CITY.SingleValued(PERSON, "city")
  {
    assert ONE_CITY.Ancestors("Person") == ["Person"];
    assert ONE_CITY.ConstraintFor(PERSON, "city") == Some(Constraint(Some(1), None));
  }

  function ThreeCities(): State {
    Ada(map[1 := City("Rome", 1, None, Some(5), None),
            2 := City("Oslo", 5, None, Some(8), Some(1)),
            3 := City("Bern", 8, None, None, Some(2))])
  }

  lemma ThreeCitiesAreSafe()
    ensures TimelineSafe(ONE_CITY, ThreeCities())
  {
    hide Canon, Ontology.SingleValued;
  }

  lemma BernLastsPastRome()
    ensures !ReopensSafely(ONE_CITY, ThreeCities(), 2)
  {
    var st := ThreeCities();
    OneCity();
    hide Ontology.SingleValued;
    assert Slot(ONE_CITY, st, 1, 3);
    assert Third(ONE_CITY, st, 1, 2, 3);
    hide Slot, Third;
    assert LastsPast(st.statements[3], Max(5, 1));
    assert Reopens(st.statements, st.statements[2]);
  }

  /** Retracting a value that was itself superseded reopens its predecessor under its successor. */
  lemma RetractingAMiddleValue()
    ensures var st := ThreeCities();
            TimelineSafe(ONE_CITY, st) && !TimelineSafe(ONE_CITY, Retract(st, 2, None, 9).state)
  {
    hide TimelineSafe, ReopensSafely, Retract;
    ThreeCitiesAreSafe();
    BernLastsPastRome();
    RetractKeepsTimelineIff(ONE_CITY, ThreeCities(), 2, None, 9);
  }

  function RomeUntil(end: Time): State {
    Ada(map[1 := City("Rome", 1, None, Some(end), None)])
  }

  const OSLO := Claim(1, "city", None, Some("Oslo"))

  lemma OsloDisplacesRome()
    ensures var st := RomeUntil(90);
            Displaced(ONE_CITY, st, 2, NewStatement(OSLO, Confirmed, None, 5), PERSON, 5) == {1}
  {
    OneCity();
    assert 1 in Group(RomeUntil(90).entities, 1);
    hide Group;
  }

  lemma OsloIsNew()
    ensures var st := RomeUntil(90);
            Found(st, OSLO, 5).None? && ClaimProblem(ONE_CITY, st.entities, PERSON, OSLO).None?
  {
    assert ONE_CITY.IsSubclass("Person", "Person");
    assert Alike(RomeUntil(90), OSLO, 5) == {};
  }

  /** A value that was to end later loses that end to an assertion and its retraction. */
  lemma RetractingForgetsAnEnd()
    ensures var said := Assert(ONE_CITY, RomeUntil(90), 2, OSLO, Confirmed, None, 5).state;
            2 in said.statements && Retract(said, 2, None, 6).state.statements[1].validTo.None?
  {
    var st, new_ := RomeUntil(90), NewStatement(OSLO, Confirmed, None, 5);
    hide Assert, Place, Displaced, ClaimProblem, Found, Retract, Last;
    OsloDisplacesRome();
    OsloIsNew();
    AssertRefusedAfterSaving(ONE_CITY, st, 2, OSLO, None, 5);
    AssertPlaces(ONE_CITY, st, 2, OSLO, None, 5);
    PlaceFrame(ONE_CITY, st, 2, new_, PERSON, 5);
    var said := Place(ONE_CITY, st, 2, new_, PERSON, 5);
    assert said.statements[2] == new_.(supersedes := Some(1));
    RetractFrame(said, 2, None, 6);
  }

  lemma OsloToComeEndsRome()
    ensures var st := RomeUntil(8);
            IsEnded(ONE_CITY, st, 2, 1, "city", 20, 5, 1)
  {
    OneCity();
    assert 1 in Group(RomeUntil(8).entities, 1);
    hide Group, Ontology.SingleValued;
    assert IsEnded(ONE_CITY, RomeUntil(8), 2, 1, "city", 20, 5, 1);
  }

  lemma OsloToComeIsPlaced()
    ensures var st, new_ := RomeUntil(8), NewStatement(OSLO, Confirmed, Some(20), 5);
            Assert(ONE_CITY, st, 2, OSLO, Confirmed, Some(20), 5).state == Place(ONE_CITY, st, 2, new_, PERSON, 5)
  {
    assert ONE_CITY.IsSubclass("Person", "Person");
    assert Alike(RomeUntil(8), OSLO, 5) == {};
    assert ClaimProblem(ONE_CITY, RomeUntil(8).entities, PERSON, OSLO).None?;
    hide Place, ClaimProblem, Alike;
  }

  /** A value that was to end at 8 is, since another was asserted to start at 20, told of until then. */
  lemma LengtheningAnEnd()
    ensures var st := RomeUntil(8);
            var said := Assert(ONE_CITY, st, 2, OSLO, Confirmed, Some(20), 5).state;
            !ToldIn(st, 1, 10, 5, false) && ToldIn(said, 1, 10, 5, false)
  {
    var st, new_ := RomeUntil(8), NewStatement(OSLO, Confirmed, Some(20), 5);
    OsloToComeEndsRome();
    OsloToComeIsPlaced();
    hide Assert, Place, IsEnded;
    PlacedAsSeen(ONE_CITY, st, 2, new_, 5, 1, 10, 5, false);
  }

  function OsloProposed(): State {
    Ada(map[1 := City("Oslo", 1, None, None, None).(status := Proposed)])
  }

  /** A proposal nobody asked for is told of, as known at 3, once it was withdrawn at 5. */
  lemma WithdrawingAProposal()
    ensures var st := OsloProposed();
            !ToldIn(st, 1, 3, 3, false) && ToldIn(Retract(st, 1, None, 5).state, 1, 3, 3, false)
  {
    WithdrawnProposalsAreTold(OsloProposed(), 1, None, 5, 3, 3);
  }

  /** Oslo was proposed at 1 and confirmed at 10, over Rome, recorded at 5. */
  function ProposedEarlier(): State {
    Ada(map[1 := City("Rome", 5, None, Some(10), None), 2 := City("Oslo", 1, Some(10), None, Some(1))])
  }

  /** A proposal recorded before the value it was confirmed over, retracted and reinstated,
      does not come back as it was. */
  lemma ReinstatingAnOldProposal()
    ensures var st := ProposedEarlier();
            Reinstate(ONE_CITY, Retract(st, 2, None, 20).state, 2, Confirmed, None, 21) != Outcome(st, Ok(2))
  {
    var st := ProposedEarlier();
    OneCity();
    assert 1 in Group(st.entities, 1);
    assert Current(st, 1, "city", 21, false) == {2};
    RetractThenReinstateIff(ONE_CITY, st, 2, None, 20, 21);
  }

  /** A proposal was filed under a name merged into Ada's since. */
  function FiledUnderAnother(): State {
    State(map[1 := PERSON.(aliases := ["Ada L."]), 2 := Entity("Person", "Ada L.", [], 0, Some(1), None, None, [])],
          map[1 := City("Oslo", 1, None, None, None).(subject := 2, status := Proposed)],
          map[1 := Decision(1, 2, Same, 3, [], ["Ada L."])])
  }

  lemma OsloIsFiled()
    ensures var st := FiledUnderAnother();
            && 2 in Group(st.entities, 1) && 1 in Group(st.entities, 1)
            && Found(st, OSLO, 5) == Some(1) && ClaimProblem(ONE_CITY, st.entities, st.entities[1], OSLO).None?
  {
    var st := FiledUnderAnother();
    assert Climbs(st.entities, 2, 1, 1) by {
      assert Climbs(st.entities, 1, 1, 0);
    }
    assert Under(st.entities, 2, 1) && 2 in Group(st.entities, 1) && 1 in Group(st.entities, 1);
    hide Group;
    assert ONE_CITY.IsSubclass("Person", "Person");
    assert Alike(st, OSLO, 5) == {1};
  }

  /** Saying it of Ada, confirmed, is refused; that it was said again is kept all the same. */
  lemma RefusedButSaved()
    ensures var out := Assert(ONE_CITY, FiledUnderAnother(), 2, OSLO, Confirmed, None, 5);
            out.result.Refused? && out.state.statements[1].reinforced == 2
  {
    hide Assert, Group, Found, ClaimProblem;
    OsloIsFiled();
    AssertRefusedAfterSaving(ONE_CITY, FiledUnderAnother(), 2, OSLO, None, 5);
  }

  // ---------------------------------------------------------------- a value that carries an end

  const ONE_JOB := Ontology(map["Person" := ["Person"], "Org" := ["Org"]], {}, {},
                            map["Person" := map["employer" := Constraint(Some(1), None)]],
                            map["employer" := Property(Relation, "Person", "Org", false)])

  function Org(name: string): Entity {
    Entity("Org", name, [], 0, None, None, None, [])
  }

  function Works(at: Id, recordedAt: Time, validTo: Option<Time>): Statement {
    Statement(1, "employer", Some(at), None, recordedAt, None, validTo, None, Confirmed, None, None, 1, None)
  }

  /** The bank was removed at 10, with the job there that was to end at 90; since 20 there is another job. */
  function BankRemoved(): State {
    State(map[1 := PERSON,
              2 := Org("Bank").(removedAt := Some(10), removedReason := Some("gone"),
                                removedStatements := [(1, Confirmed, None)]),
              3 := Org("Other")],
          map[1 := Withdrawn(Works(2, 5, Some(90)), Some("gone"), 10), 2 := Works(3, 20, None)],
          map[])
  }

  lemma JobsOfAda()
    ensures ONE_JOB.SingleValued(PERSON, "employer")
    ensures 1 in Group(BankRemoved().entities, 1)
    ensures Current(BankRemoved(), 1, "employer", 30, false) == {2}
  {
    assert ONE_JOB.Ancestors("Person") == ["Person"];
    assert ONE_JOB.ConstraintFor(PERSON, "employer") == Some(Constraint(Some(1), None));
    assert 1 in Group(BankRemoved().entities, 1);
    hide Group;
  }

  lemma BankIsPending()
    ensures var st := BankRemoved();
      && Pending(st, 2) == [(1, Confirmed, None)]
      && Taken(st.statements, Pending(st, 2), 30) && Settled(st.statements, 30)
  {
    BankNote();
    BankIsSettled([(1, Confirmed, None)]);
    hide *;
  }

  lemma BankNote()
    ensures Pending(BankRemoved(), 2) == [(1, Confirmed, None)]
  {
    var notes: seq<Note> := [(1, Confirmed, None)];
    assert Pending(BankRemoved(), 2) == notes;
  }

  lemma BankIsSettled(notes: seq<Note>)
    requires notes == [(1, Confirmed, None)]
    ensures Taken(BankRemoved().statements, notes, 30) && Settled(BankRemoved().statements, 30)
  {
  }

  lemma BankComesBack(notes: seq<Note>)
    requires notes == [(1, Confirmed, None)]
    ensures ComesBack(ONE_JOB, BankRemoved(), notes, 30, 1, "employer", 1)
  {
    JobsOfAda();
    hide Group, Ontology.SingleValued;
    assert Returns(ONE_JOB, BankRemoved(), notes, 30, 1, "employer", 0, 1);
  }

  /** Restored at 30, the earlier job comes back beside the one that replaced it. */
  lemma RestoringBesideAReplacement()
    ensures var out := Restore(ONE_JOB, BankRemoved(), 2, 30).state;
            {1, 2} <= Current(out, 1, "employer", 30, false)
  {
    var st := BankRemoved();
    BankIsPending();
    JobsOfAda();
    BankComesBack(Pending(st, 2));
    NotClosed(st, Pending(st, 2));
    hide Group, Current, Ontology.SingleValued, Restore, Pending, Taken, ComesBack, ClosedBySome, Settled;
    RestoreCurrent(ONE_JOB, st, 2, 30, 1, "employer", 1);
    RestoreCurrent(ONE_JOB, st, 2, 30, 1, "employer", 2);
  }

  lemma NotClosed(st: State, notes: seq<Note>)
    requires st == BankRemoved() && notes == [(1, Confirmed, None)]
    ensures !ClosedBySome(st.statements, notes, 2)
  {
  }

  // ---------------------------------------------------------------- a replacement that has ended

  /** Rome was taken back at 3; it was Oslo from 5 to 8, and has been Bern since. */
  function RomeTakenBack(): State {
    Ada(map[1 := Withdrawn(City("Rome", 1, None, None, None), None, 3),
            2 := City("Oslo", 5, None, Some(8), None),
            3 := City("Bern", 8, None, None, Some(2))])
  }

  lemma BernReplacedRome()
    ensures 1 in Group(RomeTakenBack().entities, 1)
    ensures Newer(ONE_CITY, RomeTakenBack(), 1, City("Rome", 1, None, None, None), 20) == {3}
  {
    assert 1 in Group(RomeTakenBack().entities, 1);
    hide Group;
    OneCity();
    hide Ontology.SingleValued;
  }

  lemma RomeMeetsOslo()
    ensures TimelineSafe(ONE_CITY, RomeTakenBack())
    ensures !ReturnsSafely(ONE_CITY, RomeTakenBack(), 1, City("Rome", 1, None, None, None), 20)
  {
    BernReplacedRome();
    OneCity();
    hide Group, Newer, Ontology.SingleValued;
    assert Overlooked(ONE_CITY, RomeTakenBack(), 1, City("Rome", 1, None, None, None), 20, 2);
  }

  /** Reinstated at 20, Rome is ended where Bern starts, over the three years of Oslo. */
  lemma ReinstatingUnderAnEndedReplacement()
    ensures var st := RomeTakenBack();
            TimelineSafe(ONE_CITY, st) && !TimelineSafe(ONE_CITY, Reinstate(ONE_CITY, st, 1, Confirmed, None, 20).state)
  {
    RomeMeetsOslo();
    hide Newer, ReturnsSafely, TimelineSafe;
    PutBackKeepsTimelineIff(ONE_CITY, RomeTakenBack(), 1, City("Rome", 1, None, None, None), 20);
  }

  // ---------------------------------------------------------------- two values merged under one limit

  /** Two records of one person: one lives in Rome, the other in Oslo. */
  function TwoAdas(): State {
    State(map[1 := PERSON, 2 := Entity("Person", "Ada L.", [], 0, None, None, None, [])],
          map[1 := City("Rome", 1, None, None, None), 2 := City("Oslo", 1, None, None, None).(subject := 2)],
          map[])
  }

  lemma TwoAdasAreRoots()
    ensures Forest(TwoAdas().entities) && Canon(TwoAdas().entities, 1) == 1 && Canon(TwoAdas().entities, 2) == 2
  {
    var es := TwoAdas().entities;
    assert Ranked(es, x => 0);
    CanonIsTheRoot(es, 1);
    CanonIsTheRoot(es, 2);
  }

  lemma TwoAdasAreApart()
    ensures Placed(TwoAdas()) && TimelineSafe(ONE_CITY, TwoAdas())
    ensures MergeRefusal(ONE_CITY, TwoAdas(), 1, 2).None?
    ensures ONE_CITY.SingleValued(TwoAdas().entities[1], "city")
  {
    TwoAdasAreRoots();
    OneCity();
    hide Canon, Forest, Ontology.SingleValued;
    assert ONE_CITY.IsSubclass("Person", "Person");
  }

  /** A merge does not look at what it brings together. */
  lemma MergingTwoCities()
    ensures var st := TwoAdas();
            var out := Merge(ONE_CITY, st, 1, 2, [], 1, 5);
            TimelineSafe(ONE_CITY, st) && out.result.Ok? && !TimelineSafe(ONE_CITY, out.state)
  {
    var st := TwoAdas();
    TwoAdasAreRoots();
    TwoAdasAreApart();
    hide Canon, Forest, Ontology.SingleValued, MergeRefusal, TimelineSafe, DecisionBetween, FreshNames;
    assert ValueOf(ONE_CITY, st, 2, 1, 2) && ValueOf(ONE_CITY, st, 1, 1, 1);
    assert st.statements[1].ValidAt(5) && st.statements[2].ValidAt(5);
    assert !FoldsApart(ONE_CITY, st, 1, 2);
    MergeKeepsTimelineIff(ONE_CITY, st, 1, 2, [], 1, 5);
  }

  // ---------------------------------------------------------------- two values under one limit once a merge is undone

  /** Only staff are limited to one city. */
  const STAFF_CITY := Ontology(map["Person" := ["Person"], "Staff" := ["Staff", "Person"]], {}, {},
                               map["Staff" := map["city" := Constraint(Some(1), None)]],
                               map["city" := Property(Attribute, "Person", "string", false)])

  const CLERK := Entity("Staff", "Ada L.", [], 0, Some(1), None, None, [])

  /** A clerk who lived in Rome, then Oslo, then Bern, merged at 10 into a person. */
  function ClerkMerged(): State {
    State(map[1 := PERSON.(aliases := ["Ada L."]), 2 := CLERK],
          map[1 := City("Rome", 1, None, Some(5), None).(subject := 2),
              2 := City("Oslo", 5, None, Some(8), Some(1)).(subject := 2),
              3 := City("Bern", 8, None, None, Some(2)).(subject := 2)],
          map[1 := Decision(1, 2, Same, 10, [], ["Ada L."])])
  }

  /** While she is merged, Oslo is taken back, and Rome reopens: a person may live in two cities. */
  function OsloTakenBack(): State {
    Retract(ClerkMerged(), 2, None, 11).state
  }

  lemma OsloIsTakenBack()
    ensures OsloTakenBack() == ClerkMerged().(statements := map[
      1 := City("Rome", 1, None, None, None).(subject := 2),
      2 := Withdrawn(City("Oslo", 5, None, Some(8), Some(1)).(subject := 2), None, 11),
      3 := City("Bern", 8, None, None, Some(2)).(subject := 2)])
  {
  }

  lemma StaffHaveOneCity()
    ensures STAFF_CITY.SingleValued(CLERK, "city")
  {
    assert STAFF_CITY.Ancestors("Staff") == ["Staff", "Person"];
  }

  lemma PersonsHaveAnyNumber(p: Entity, property: string)
    requires p.class_ == "Person"
    ensures !STAFF_CITY.SingleValued(p, property)
  {
    assert STAFF_CITY.Ancestors("Person") == ["Person"] && ["Person"][1..] == [];
    assert STAFF_CITY.ConstraintIn(["Person"], property) == None;
  }

  lemma ClerkIsUnderAda(es: Entities)
    requires es == ClerkMerged().entities
    ensures Forest(es) && Canon(es, 2) == 1 && Under(es, 2, 2)
  {
    assert Ranked(es, x => -x);
    assert Climbs(es, 2, 1, 1) by {
      assert Climbs(es, 1, 1, 0);
    }
    assert Climbs(es, 2, 2, 0) && Under(es, 2, 1) && Root(es, 1);
    CanonIsTheRoot(es, 2);
  }

  lemma NothingCompetes(st: State)
    requires st.entities == ClerkMerged().entities && forall i :: i in st.statements ==> st.statements[i].subject == 2
    ensures TimelineSafe(STAFF_CITY, st)
  {
    ClerkIsUnderAda(st.entities);
    hide Canon, Forest, Under, Ontology.SingleValued, Apart;
    forall i, j | Slot(STAFF_CITY, st, i, j)
      ensures false
    {
      PersonsHaveAnyNumber(st.entities[1], st.statements[i].property);
    }
  }

  /** Two open values are safe under one who may have two. */
  lemma TwoCitiesOfAPerson()
    ensures TimelineSafe(STAFF_CITY, ClerkMerged()) && TimelineSafe(STAFF_CITY, OsloTakenBack())
    ensures Placed(OsloTakenBack())
  {
    OsloIsTakenBack();
    hide TimelineSafe, Retract, OsloTakenBack;
    NothingCompetes(ClerkMerged());
    NothingCompetes(OsloTakenBack());
  }

  lemma TwoCitiesOfTheClerk()
    ensures !LoserApart(STAFF_CITY, OsloTakenBack(), 2)
  {
    OsloIsTakenBack();
    ClerkIsUnderAda(ClerkMerged().entities);
    StaffHaveOneCity();
    hide Retract, OsloTakenBack, Ontology.SingleValued, Under;
    var st := OsloTakenBack();
    assert ValueUnder(STAFF_CITY, st, 2, 1) && ValueUnder(STAFF_CITY, st, 2, 3);
    assert st.statements[1].ValidAt(9) && st.statements[3].ValidAt(9);
  }

  /** Undone, the merge leaves the clerk in both. */
  lemma UnmergingTwoCities()
    ensures var out := Unmerge(OsloTakenBack(), 1, 12);
            TimelineSafe(STAFF_CITY, OsloTakenBack()) && out.result.Ok? && !TimelineSafe(STAFF_CITY, out.state)
  {
    OsloIsTakenBack();
    TwoCitiesOfAPerson();
    TwoCitiesOfTheClerk();
    ClerkIsUnderAda(ClerkMerged().entities);
    hide Retract, OsloTakenBack, TimelineSafe, LoserApart, Canon, Under, Forest, Placed;
    UnmergeKeepsTimelineIff(STAFF_CITY, OsloTakenBack(), 1, 12);
  }

  // ---------------------------------------------------------------- the stores are as runs leave them

  /** With nothing merged and nothing decided, what is removed is all there is to see to. */
  lemma PlainIdentity(st: State)
    requires st.decisions == map[] && Named(st)
    requires forall e :: e in st.entities ==> st.entities[e].mergedInto.None?
    requires forall e :: e in st.entities && st.entities[e].removedAt.None? ==>
      st.entities[e].removedReason.None? && st.entities[e].removedStatements == []
    ensures Identity(st)
  {
    assert Ranked(st.entities, x => 0);
  }

  lemma MergedIdentity(st: State)
    requires st.entities.Keys == {1, 2} && st.decisions.Keys == {1} && Named(st)
    requires st.entities[1].mergedInto.None? && st.entities[2].mergedInto == Some(1)
    requires forall e | e in st.entities :: st.entities[e].removedAt.None? && st.entities[e].removedReason.None?
                                            && st.entities[e].removedStatements == []
    requires var d := st.decisions[1];
      d.a == 1 && d.b == 2 && d.verdict == Same && Set(d.addedAliases) <= Set(st.entities[1].aliases)
    ensures Identity(st)
  {
    assert Ranked(st.entities, x => -x);
    assert Merges(st.decisions, 1, 1, 2);
  }

  lemma AdaHasIdentity(st: State)
    requires st.entities == map[1 := PERSON] && st.decisions == map[]
    requires forall i :: i in st.statements ==> st.statements[i].subject == 1 && st.statements[i].target.None?
    ensures Identity(st)
  {
    hide Identity;
    PlainIdentity(st);
  }

  lemma PlainStores()
    ensures Identity(ThreeCities()) && Identity(RomeUntil(90)) && Identity(RomeTakenBack())
    ensures Identity(ProposedEarlier()) && Identity(RomeUntil(8)) && Identity(OsloProposed())
  {
    hide Identity;
    AdaHasIdentity(ThreeCities());
    AdaHasIdentity(RomeUntil(90));
    AdaHasIdentity(RomeTakenBack());
    AdaHasIdentity(RomeUntil(8));
    AdaHasIdentity(OsloProposed());
    AdaHasIdentity(ProposedEarlier());
  }

  lemma StoresOfSeveral()
    ensures Identity(TwoAdas()) && Identity(BankRemoved())
  {
    hide Identity;
    PlainIdentity(TwoAdas());
    PlainIdentity(BankRemoved());
  }

  lemma MergedStores()
    ensures Identity(FiledUnderAnother()) && Identity(ClerkMerged())
  {
    hide Identity;
    MergedIdentity(FiledUnderAnother());
    MergedIdentity(ClerkMerged());
  }

  /** None of the stores here breaks what every run keeps. */
  lemma StoresHaveIdentity()
    ensures Identity(ThreeCities()) && Identity(RomeUntil(90)) && Identity(ProposedEarlier())
    ensures Identity(FiledUnderAnother()) && Identity(BankRemoved()) && Identity(RomeTakenBack())
    ensures Identity(TwoAdas()) && Identity(ClerkMerged())
    ensures Identity(RomeUntil(8)) && Identity(OsloProposed())
  {
    hide *;
    PlainStores();
    StoresOfSeveral();
    MergedStores();
  }
}
