/** Which entity a name finds, said of the names themselves; that a merge loses no name; and when evidence is enough. */
module ResolverLaws {
  import opened Records
  import opened MergeForest
  import opened GraphSpec
  import opened Labels
  import opened WriteLaws
  import opened NameLaws
  import opened Resolver

  // ---------------------------------------------------------------- what a name finds

  predicate IsKey(n: Naming, name: string, key: string) {
    |key| > 0 && (key == n.fold(name) || (n.normalise.Some? && key == n.fold((n.normalise.value)(name))))
  }

  /** Two names are read as one: folded, plainly or normalised, they have a form in common that is not empty. */
  ghost predicate ReadAlike(n: Naming, a: string, b: string) {
    exists key :: IsKey(n, a, key) && IsKey(n, b, key)
  }

  /** The class asked for is the entity's or above it, or below it. */
  predicate SortOf(onto: Ontology, class_: string, asked: string) {
    asked in ChainOf(onto, class_) || class_ in ChainOf(onto, asked)
  }

  /** It stands, is of the sort asked for, and its label or another name of it is read as the name. */
  ghost predicate Answers(onto: Ontology, n: Naming, es: Entities, i: Id, name: string, class_: string) {
    && Upright(es, i) && SortOf(onto, es[i].class_, class_)
    && (ReadAlike(n, es[i].name, name) || exists a :: a in es[i].aliases && ReadAlike(n, a, name))
  }

  predicate Elder(es: Entities, i: Id, j: Id)
    requires i in es && j in es
  {
    es[i].createdAt < es[j].createdAt || (es[i].createdAt == es[j].createdAt && i < j)
  }

  lemma AlikeIff(n: Naming, a: string, b: string)
    ensures Keys(n, a) * Keys(n, b) != {} <==> ReadAlike(n, a, b)
  {
    forall key
      ensures (key in Keys(n, a) <==> IsKey(n, a, key)) && (key in Keys(n, b) <==> IsKey(n, b, key))
    {
    }
    if key :| key in Keys(n, a) * Keys(n, b) { assert IsKey(n, a, key) && IsKey(n, b, key); }
    if key :| IsKey(n, a, key) && IsKey(n, b, key) { assert key in Keys(n, a) * Keys(n, b); }
  }

  lemma HitIff(onto: Ontology, n: Naming, es: Entities, i: Id, name: string, class_: string)
    ensures i in Hits(onto, n, es, name, class_) <==> Answers(onto, n, es, i, name, class_)
  {
    if i in es {
      AlikeIff(n, es[i].name, name);
      forall a
        ensures Keys(n, a) * Keys(n, name) != {} <==> ReadAlike(n, a, name)
      {
        AlikeIff(n, a, name);
      }
    }
    hide Keys, ReadAlike;
  }

  /** The scan finds the eldest entity that answers to the name; by its label, or else by another name. */
  lemma ScanIff(onto: Ontology, n: Naming, es: Entities, name: string, class_: string)
    ensures var r := Scan(onto, n, es, name, class_);
      match r
      case None => forall i :: !Answers(onto, n, es, i, name, class_)
      case Some((i, how)) =>
        && Answers(onto, n, es, i, name, class_)
        && (forall j :: Answers(onto, n, es, j, name, class_) && j != i ==> Elder(es, i, j))
        && how == (if ReadAlike(n, es[i].name, name) then Exact else Alias)
  {
    forall i
      ensures i in Hits(onto, n, es, name, class_) <==> Answers(onto, n, es, i, name, class_)
    {
      HitIff(onto, n, es, i, name, class_);
    }
    var hits := Hits(onto, n, es, name, class_);
    if hits != {} {
      var i := Eldest(es, hits);
      AlikeIff(n, es[i].name, name);
    }
    hide Hits, Answers, Keys, ReadAlike;
  }

  // ---------------------------------------------------------------- a merge loses no name

  /** After a merge the loser answers no more, and the keeper to all that either answered to, by its own class. */
  lemma AnswersAfterMerge(onto: Ontology, n: Naming, st: State, keep: Id, fold: Id, evidence: seq<string>, newId: Id,
                          now: Time, i: Id, name: string, class_: string)
    requires Merge(onto, st, keep, fold, evidence, newId, now).result.Ok?
    ensures keep in st.entities && fold in st.entities
    ensures var es, es' := st.entities, Merge(onto, st, keep, fold, evidence, newId, now).state.entities;
      Answers(onto, n, es', i, name, class_)
      <==> if i == fold then false
           else if i == keep then
             && SortOf(onto, es[keep].class_, class_)
             && (CalledLike(n, es[keep], name) || CalledLike(n, es[fold], name))
           else Answers(onto, n, es, i, name, class_)
  {
    MergesIff(onto, st, keep, fold, evidence, newId, now);
    NamesMerged(onto, st, keep, fold, evidence, newId, now);
    hide Merge, ReadAlike, AsTheyComeUp, NoTwice, LastlyIs;
  }

  /** Its label or another name of it is read as the name. */
  ghost predicate CalledLike(n: Naming, e: Entity, name: string) {
    ReadAlike(n, e.name, name) || exists a :: a in e.aliases && ReadAlike(n, a, name)
  }

  /** A name that found the loser finds the keeper after the merge, or an elder entity of that name, exactly when the
    * keeper is of the sort asked for; when it is not, the name finds another entity or none. */
  lemma FoundAfterMerge(onto: Ontology, n: Naming, st: State, keep: Id, fold: Id, evidence: seq<string>, newId: Id,
                        now: Time, name: string, class_: string)
    requires Merge(onto, st, keep, fold, evidence, newId, now).result.Ok?
    requires Scan(onto, n, st.entities, name, class_).Some? && Scan(onto, n, st.entities, name, class_).value.0 == fold
    ensures keep in st.entities && fold in st.entities
    ensures var r := Scan(onto, n, Merge(onto, st, keep, fold, evidence, newId, now).state.entities, name, class_);
      if SortOf(onto, st.entities[keep].class_, class_) then
        && r.Some? && (r.value.0 == keep || (&& Answers(onto, n, st.entities, r.value.0, name, class_)
                                             && Elder(st.entities, r.value.0, keep)))
      else r.Some? ==> r.value.0 != keep && r.value.0 != fold && Answers(onto, n, st.entities, r.value.0, name, class_)
  {
    var es' := Merge(onto, st, keep, fold, evidence, newId, now).state.entities;
    ScanIff(onto, n, st.entities, name, class_);
    ScanIff(onto, n, es', name, class_);
    NamesMerged(onto, st, keep, fold, evidence, newId, now);
    forall i
      ensures Answers(onto, n, es', i, name, class_)
              <==> if i == fold then false
                   else if i == keep then
                     && SortOf(onto, st.entities[keep].class_, class_)
                     && (CalledLike(n, st.entities[keep], name) || CalledLike(n, st.entities[fold], name))
                   else Answers(onto, n, st.entities, i, name, class_)
    {
      AnswersAfterMerge(onto, n, st, keep, fold, evidence, newId, now, i, name, class_);
    }
    assert CalledLike(n, st.entities[fold], name);
    if SortOf(onto, st.entities[keep].class_, class_) {
      assert Answers(onto, n, es', keep, name, class_);
    }
    hide Merge, ReadAlike, Scan, SortOf, AsTheyComeUp, NoTwice, Answers, CalledLike;
  }

  // ---------------------------------------------------------------- a name not found

  function Said(n: Naming, name: string): string {
    match n.normalise
    case Some(f) => f(name)
    case None => name
  }

  /** It stands, is of the sort asked for, is not the one just made, and its label or another name of it sounds like
    * the name. */
  ghost predicate SoundsLike(onto: Ontology, n: Naming, es: Entities, name: string, class_: string, e: Id, i: Id) {
    && Upright(es, i) && SortOf(onto, es[i].class_, class_) && i != e
    && (n.alike(Said(n, name), Said(n, es[i].name)) || exists a :: a in es[i].aliases && n.alike(Said(n, name), Said(n, a)))
  }

  lemma LookAlikesIff(onto: Ontology, n: Naming, es: Entities, name: string, class_: string, e: Id, i: Id)
    ensures i in LookAlikes(onto, n, es, name, class_, e) <==> SoundsLike(onto, n, es, name, class_, e, i)
  {
  }

  /** A candidate that the pair is one, put on record with the episode as its evidence. */
  predicate NowCandidate(ds: map<Id, Decision>, ds': map<Id, Decision>, d: Id, i: Id, e: Id, episode: Option<string>) {
    && d in ds' && d !in ds && ds'[d].a == i && ds'[d].b == e && ds'[d].verdict == Candidate
    && ds'[d].evidence == match episode case Some(x) => [x] case None => []
  }

  /** A name that nothing carries makes a new entity of its label and class, and one candidate for each entity that
    * sounds like it; nothing else is put on record or changed. */
  lemma NewName(onto: Ontology, n: Naming, enough: nat, st: State, q: Request, now: Time, st': State,
                r: Result<Resolution>, order: seq<Id>)
    requires Resolves(onto, n, enough, st, q, now, st', r, order) && q.newEntity !in st.entities
    requires (forall i :: !Answers(onto, n, st.entities, i, q.name, q.class_)) && AddRefusal(onto, q.class_, q.name).None?
    ensures r == Ok(Resolution(q.newEntity, New, true)) && st'.statements == st.statements
    ensures st'.entities.Keys == st.entities.Keys + {q.newEntity}
    ensures forall x :: x in st.entities ==> st'.entities[x] == st.entities[x]
    ensures var x := st'.entities[q.newEntity];
      x.class_ == q.class_ && x.name == Label(q.name) && x.aliases == [] && Upright(st'.entities, q.newEntity)
    ensures forall d :: d in st.decisions ==> d in st'.decisions && st'.decisions[d] == st.decisions[d]
    ensures forall i :: (exists d :: NowCandidate(st.decisions, st'.decisions, d, i, q.newEntity, q.episode))
                        <==> SoundsLike(onto, n, st'.entities, q.name, q.class_, q.newEntity, i)
    ensures forall c, d, i :: NowCandidate(st.decisions, st'.decisions, c, i, q.newEntity, q.episode)
                              && NowCandidate(st.decisions, st'.decisions, d, i, q.newEntity, q.episode) ==>
                                c == d
    ensures forall d :: d in st'.decisions && d !in st.decisions ==>
              NowCandidate(st.decisions, st'.decisions, d, st'.decisions[d].a, q.newEntity, q.episode)
  {
    ScanIff(onto, n, st.entities, q.name, q.class_);
    var ds, ds' := st.decisions, st'.decisions;
    forall i
      ensures i in LookAlikes(onto, n, st'.entities, q.name, q.class_, q.newEntity)
              <==> SoundsLike(onto, n, st'.entities, q.name, q.class_, q.newEntity, i)
    {
      LookAlikesIff(onto, n, st'.entities, q.name, q.class_, q.newEntity, i);
    }
    hide Scan, Answers, LookAlikes, SoundsLike, Label, AddRefusal;
    forall i
      ensures (exists d :: NowCandidate(ds, ds', d, i, q.newEntity, q.episode))
              <==> i in LookAlikes(onto, n, st'.entities, q.name, q.class_, q.newEntity)
    {
      if i in LookAlikes(onto, n, st'.entities, q.name, q.class_, q.newEntity) {
        assert IsNoted(ds, ds', i, q.newEntity, q.episode);
        var d :| d in ds' && d !in ds && NotedWith(ds'[d], i, q.newEntity, q.episode);
        assert NowCandidate(ds, ds', d, i, q.newEntity, q.episode);
      }
    }
  }

  /** A name that is found is nothing new: it means what the eldest entity that answers to it is merged into by then. */
  lemma OldName(onto: Ontology, n: Naming, enough: nat, st: State, q: Request, now: Time, st': State,
                r: Result<Resolution>, order: seq<Id>, i: Id)
    requires Resolves(onto, n, enough, st, q, now, st', r, order) && r.Ok?
    requires Answers(onto, n, st.entities, i, q.name, q.class_)
    requires forall j :: Answers(onto, n, st.entities, j, q.name, q.class_) && j != i ==> Elder(st.entities, i, j)
    ensures !r.value.created && r.value.target == Canon(st'.entities, i)
    ensures r.value.how == if ReadAlike(n, st.entities[i].name, q.name) then Exact else Alias
  {
    ScanIff(onto, n, st.entities, q.name, q.class_);
    hide Scan, Answers, ReadAlike, Canon, Gathered, WithEntity, LookAlikes, AddRefusal;
  }

  // ---------------------------------------------------------------- evidence enough

  function WithEpisode(seen: seq<string>, episode: Option<string>): seq<string> {
    match episode
    case Some(x) => if x in seen then seen else seen + [x]
    case None => seen
  }

  /** With this episode there are as many as it takes to the last word about the pair. */
  ghost predicate Suffices(ds: map<Id, Decision>, a: Id, b: Id, episode: Option<string>, enough: nat) {
    || (Undecided(ds, a, b) && |WithEpisode([], episode)| >= enough)
    || exists d :: LastWord(ds, a, b, d) && |WithEpisode(ds[d].evidence, episode)| >= enough
  }

  /** A decision gathered merges its pair exactly when it was a candidate, the last word is not that they are one or
    * two, the episodes with this one are as many as it takes, and both still stand; then the younger is merged into
    * the elder. Otherwise no entity is touched. */
  lemma GatheredIff(onto: Ontology, st: State, d: Decision, episode: Option<string>, enough: nat, newId: Id, now: Time)
    requires IdentityLaws.Identity(st) && Recorded(onto, st) && Below(st.decisions, newId)
    requires d.verdict == Candidate ==> Pair(onto, st.entities, d.a, d.b)
    ensures var out := GatherOne(onto, st, d, episode, enough, newId, now);
      && out.result.Ok?
      && (out.result.value <==> && d.verdict == Candidate
                                && !LastlyIs(st.decisions, d.a, d.b, Same) && !LastlyIs(st.decisions, d.a, d.b, Distinct)
                                && Suffices(st.decisions, d.a, d.b, episode, enough)
                                && Upright(st.entities, d.a) && Upright(st.entities, d.b))
      && (if out.result.value then
            var (keep, fold) := if Elder(st.entities, d.b, d.a) then (d.b, d.a) else (d.a, d.b);
            fold in out.state.entities && out.state.entities[fold].mergedInto == Some(keep)
          else out.state.entities == st.entities)
  {
    hide IdentityLaws.Identity, Recorded, Below, LastlyIs, Suffices, NoteCandidate, Merge, LastWord;
    GatherOneKeeps(onto, st, d, episode, enough, newId, now, d.a);
    if d.verdict == Candidate {
      EvidenceNoted(st, d.a, d.b, episode, newId, now);
      var (noted, id) := NoteCandidate(st, d.a, d.b, episode, newId, now);
      SufficesIff(st, d.a, d.b, episode, enough, newId, now);
      if id.Some? && |noted.decisions[id.value].evidence| >= enough && BothStand(noted.entities, d.a, d.b) {
        var (keep, fold) := ByAge(noted.entities, d.a, d.b);
        var evidence := noted.decisions[id.value].evidence;
        if Merge(onto, noted, keep, fold, evidence, newId + 1, now).result.Ok? {
          NamesMerged(onto, noted, keep, fold, evidence, newId + 1, now);
        }
      }
    }
  }

  lemma SufficesIff(st: State, a: Id, b: Id, episode: Option<string>, enough: nat, newId: Id, now: Time)
    ensures var (st', d) := NoteCandidate(st, a, b, episode, newId, now);
      d.Some? ==> d.value in st'.decisions
                  && (|st'.decisions[d.value].evidence| >= enough <==> Suffices(st.decisions, a, b, episode, enough))
  {
    EvidenceNoted(st, a, b, episode, newId, now);
    hide LastlyIs, NoteCandidate;
    var (st', d) := NoteCandidate(st, a, b, episode, newId, now);
    if d.Some? && !Undecided(st.decisions, a, b) {
      assert LastWord(st.decisions, a, b, d.value);
    }
  }
}
