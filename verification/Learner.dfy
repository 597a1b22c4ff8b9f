/** Vocabulary learned from use: terms sighted, counted, activated, aliased, rejected, forgotten. */
module Learner {
  import opened Records

  datatype TermStatus = Counting | AliasTerm | Active | Rejected

  datatype DecidedBy = Nobody | Similarity | Evidence | Owner

  datatype Term = Term(status: TermStatus, firstSeen: Time, lastSeen: Time, aliasOf: Option<string>,
    observations: nat, episodes: seq<string>, examples: seq<string>, activatedAt: Option<Time>, decidedBy: DecidedBy)

  datatype Limits = Limits(prefix: string, minObservations: nat, minEpisodes: nat, maxExamples: nat, expireAfter: Time)

  /** One sighting; `alias` is the declared term a caller's similarity finds near enough, asked only of a new name. */
  datatype Sighting = Sighting(local: string, alias: Option<string>, example: Option<string>, episode: Option<string>)

  type Terms = map<string, Term>

  datatype Outcome = IsAlias | IsActive | Activated | Counted | IsRejected

  predicate Given(s: Option<string>) {
    s.Some? && s.value != ""
  }

  function AddOnce(s: seq<string>, x: Option<string>): seq<string> {
    if Given(x) && x.value !in s then s + [x.value] else s
  }

  function LastOf(s: seq<string>, n: nat): seq<string> {
    if |s| <= n then s else s[|s| - n..]
  }

  function NameFor(l: Limits, local: string): string {
    l.prefix + ":" + local
  }

  function Fresh(now: Time): Term {
    Term(Counting, now, now, None, 0, [], [], None, Nobody)
  }

  function AliasOf(l: Limits, s: Sighting, now: Time): Term {
    Term(AliasTerm, now, now, s.alias, 1, AddOnce([], s.episode),
         if l.maxExamples > 0 then AddOnce([], s.example) else [], None, Similarity)
  }

  function Seen(l: Limits, t: Term, s: Sighting, now: Time): Term {
    t.(observations := t.observations + 1, lastSeen := now, episodes := AddOnce(t.episodes, s.episode),
       examples := if l.maxExamples > 0 then LastOf(AddOnce(t.examples, s.example), l.maxExamples) else t.examples)
  }

  predicate Enough(l: Limits, t: Term) {
    t.observations >= l.minObservations && |t.episodes| >= l.minEpisodes
  }

  /** The term after one more sighting of its name. */
  function Sighted(l: Limits, ts: Terms, s: Sighting, now: Time): Term {
    var name := NameFor(l, s.local);
    if name !in ts && s.alias.Some? then AliasOf(l, s, now)
    else
      var seen := Seen(l, if name in ts then ts[name] else Fresh(now), s, now);
      if seen.status == Counting && Enough(l, seen)
      then seen.(status := Active, activatedAt := Some(now), decidedBy := Evidence) else seen
  }

  datatype Op = Observe(s: Sighting) | Reject(name: string) | Activate(name: string) | Expire

  predicate Stale(l: Limits, t: Term, now: Time) {
    t.status == Counting && t.lastSeen < now - l.expireAfter
  }

  function Step(l: Limits, ts: Terms, op: Op, now: Time): Terms {
    match op
    case Observe(s) => if s.local == "" then ts else ts[NameFor(l, s.local) := Sighted(l, ts, s, now)]
    case Reject(n) => if n !in ts then ts else ts[n := ts[n].(status := Rejected, decidedBy := Owner)]
    case Activate(n) =>
      if n !in ts || ts[n].status == AliasTerm then ts
      else ts[n := ts[n].(status := Active, decidedBy := Owner,
                          activatedAt := if ts[n].activatedAt.Some? then ts[n].activatedAt else Some(now))]
    case Expire => map n | n in ts && !Stale(l, ts[n], now) :: ts[n]
  }

  /** The learned terms that read like declared ones: active now, or active once. */
  function Readable(ts: Terms): set<string> {
    set n | n in ts && (ts[n].status == Active || ts[n].activatedAt.Some?)
  }

  // ---- The learner --------------------------------------------------------------------------------------------

  class Learner {
    const limits: Limits
    var terms: Terms
    var inUse: set<string>

    /** The vocabulary in use is never behind the store. */
    ghost predicate Valid()
      reads this
    {
      inUse == Readable(terms) && forall n :: n in terms && terms[n].status == Counting ==> terms[n].activatedAt.None?
    }

    constructor (limits: Limits)
      ensures this.limits == limits && terms == map[] && Valid()
    {
      this.limits := limits;
      terms, inUse := map[], {};
    }

    method RefreshVocabulary()
      modifies this`inUse
      ensures inUse == Readable(terms)
    {
      inUse := Readable(terms);
    }

    method Observe(s: Sighting, now: Time) returns (outcome: Option<Outcome>)
      requires Valid()
      modifies this
      ensures Valid() && terms == Step(limits, old(terms), Op.Observe(s), now)
      ensures s.local == "" ==> outcome == None
      ensures s.local != "" ==>
                var name := limits.prefix + ":" + s.local;
                && name in terms
                && outcome == Some(if name !in old(terms) && s.alias.Some? then IsAlias
                                   else if name in old(terms) && old(terms)[name].status == AliasTerm then IsAlias
                                   else if name in old(terms) && old(terms)[name].status == Rejected then IsRejected
                                   else if name in old(terms) && old(terms)[name].status == Active then IsActive
                                   else if terms[name].status == Active then Activated
                                   else Counted)
    {
      if s.local == "" {
        return None;
      }
      var name := NameFor(limits, s.local);
      var term := Fresh(now);
      if name in terms {
        term := terms[name];
      } else if s.alias.Some? {
        terms := terms[name := AliasOf(limits, s, now)];
        return Some(IsAlias);
      }
      var seen := Seen(limits, term, s, now);
      if term.status != Counting {
        terms := terms[name := seen];
        return Some(match term.status case Rejected => IsRejected case AliasTerm => IsAlias case _ => IsActive);
      }
      if seen.observations >= limits.minObservations && |seen.episodes| >= limits.minEpisodes {
        seen := seen.(status := Active, activatedAt := Some(now), decidedBy := Evidence);
        terms := terms[name := seen];
        RefreshVocabulary();
        return Some(Activated);
      }
      terms := terms[name := seen];
      return Some(Counted);
    }

    method Reject(name: string)
      requires Valid()
      modifies this
      ensures Valid() && forall now :: terms == Step(limits, old(terms), Op.Reject(name), now)
    {
      if name in terms {
        terms := terms[name := terms[name].(status := Rejected, decidedBy := Owner)];
        RefreshVocabulary();
      }
    }

    method Activate(name: string, now: Time)
      requires Valid()
      modifies this
      ensures Valid() && terms == Step(limits, old(terms), Op.Activate(name), now)
    {
      if name !in terms || terms[name].status == AliasTerm {
        return;
      }
      var since := if terms[name].activatedAt.Some? then terms[name].activatedAt else Some(now);
      terms := terms[name := terms[name].(status := Active, decidedBy := Owner, activatedAt := since)];
      RefreshVocabulary();
    }

    method Expire(now: Time) returns (gone: set<string>)
      requires Valid()
      modifies this`terms
      ensures Valid() && terms == Step(limits, old(terms), Op.Expire, now)
      ensures gone == old(terms).Keys - terms.Keys
    {
      gone := set n | n in terms && Stale(limits, terms[n], now);
      ghost var before := terms;
      var rest := gone;
      while rest != {}
        invariant rest <= gone && terms == before - (gone - rest)
        decreases |rest|
      {
        var n :| n in rest;
        terms := terms - {n};
        rest := rest - {n};
      }
      assert terms == before - gone;
    }
  }

  // ---- What every run keeps -----------------------------------------------------------------------------------

  function Run(l: Limits, ops: seq<(Op, Time)>): Terms {
    if ops == [] then map[] else Step(l, Run(l, ops[..|ops| - 1]), ops[|ops| - 1].0, ops[|ops| - 1].1)
  }

  /** The episodes under which a name was sighted since it was last unknown, one per sighting. */
  function Sightings(l: Limits, ops: seq<(Op, Time)>, name: string): seq<Option<string>> {
    if ops == [] then []
    else
      var (op, _) := ops[|ops| - 1];
      var before := Sightings(l, ops[..|ops| - 1], name);
      if name !in Run(l, ops) then []
      else if op.Observe? && op.s.local != "" && NameFor(l, op.s.local) == name then before + [op.s.episode]
      else before
  }

  /** The episodes named, each once, as they first came up. */
  function Episodes(sightings: seq<Option<string>>): seq<string> {
    if sightings == [] then []
    else AddOnce(Episodes(sightings[..|sightings| - 1]), sightings[|sightings| - 1])
  }

  predicate Distinct(s: seq<string>) {
    forall j, k :: 0 <= j < k < |s| ==> s[j] != s[k]
  }

  lemma {:induction false} EpisodesAreDistinct(sightings: seq<Option<string>>)
    ensures Distinct(Episodes(sightings))
    ensures forall e :: e in Episodes(sightings) <==> e != "" && Some(e) in sightings
  {
    if sightings != [] {
      var front := sightings[..|sightings| - 1];
      EpisodesAreDistinct(front);
      assert sightings == front + [sightings[|sightings| - 1]];
    }
  }

  /** What holds of every stored term: what it counted is what happened, a candidate is short of a threshold, and one
    * activated by evidence met both. */
  predicate Lives(l: Limits, t: Term, sightings: seq<Option<string>>) {
    && t.observations == |sightings|
    && t.episodes == Episodes(sightings)
    && Distinct(t.examples) && |t.examples| <= l.maxExamples
    && (t.status == Counting ==> !Enough(l, t) && t.activatedAt.None? && t.decidedBy == Nobody)
    && (t.status == Active ==> t.activatedAt.Some?)
    && (t.decidedBy == Evidence ==> t.status == Active && Enough(l, t))
    && (t.status == AliasTerm ==> t.aliasOf.Some? && t.activatedAt.None?)
  }

  lemma SeenLives(l: Limits, t: Term, s: Sighting, now: Time, sightings: seq<Option<string>>)
    requires t.observations == |sightings| && t.episodes == Episodes(sightings)
    requires Distinct(t.examples) && |t.examples| <= l.maxExamples
    ensures var seen, more := Seen(l, t, s, now), sightings + [s.episode];
      && seen.observations == |more| && seen.episodes == Episodes(more)
      && Distinct(seen.examples) && |seen.examples| <= l.maxExamples
      && |seen.episodes| >= |t.episodes|
  {
    var more := sightings + [s.episode];
    assert more[..|more| - 1] == sightings;
  }

  lemma SightedLives(l: Limits, ts: Terms, s: Sighting, now: Time, sightings: seq<Option<string>>)
    requires var name := NameFor(l, s.local); if name in ts then Lives(l, ts[name], sightings) else sightings == []
    ensures Lives(l, Sighted(l, ts, s, now), sightings + [s.episode])
  {
    var name := NameFor(l, s.local);
    if name !in ts && s.alias.Some? {
      assert [s.episode][..0] == [];
      assert [] + [s.episode] == [s.episode];
      assert Episodes([s.episode]) == AddOnce(Episodes([]), s.episode);
    } else {
      SeenLives(l, if name in ts then ts[name] else Fresh(now), s, now, sightings);
    }
  }

  /** Over any run of sightings, rejections, activations and expiries. */
  lemma {:induction false} EveryTermLives(l: Limits, ops: seq<(Op, Time)>, name: string)
    ensures name in Run(l, ops) ==> Lives(l, Run(l, ops)[name], Sightings(l, ops, name))
    ensures name !in Run(l, ops) ==> Sightings(l, ops, name) == []
  {
    if ops != [] {
      var front := ops[..|ops| - 1];
      var (op, now) := ops[|ops| - 1];
      EveryTermLives(l, front, name);
      if op.Observe? && op.s.local != "" && NameFor(l, op.s.local) == name {
        SightedLives(l, Run(l, front), op.s, now, Sightings(l, front, name));
      }
    }
  }

  /** The moves a name can make: only the owner overrules a rejection, and only the owner ends an alias, by rejecting
    * it; a name is forgotten only as a candidate gone stale. */
  lemma StatusMoves(l: Limits, ts: Terms, op: Op, now: Time, name: string)
    requires name in ts
    ensures var ts' := Step(l, ts, op, now);
      match ts[name].status
      case Counting => name in ts' || (op.Expire? && ts[name].lastSeen < now - l.expireAfter)
      case AliasTerm => name in ts' && ((ts'[name].status == AliasTerm && ts'[name].aliasOf == ts[name].aliasOf)
                                        || (op == Reject(name) && ts'[name].status == Rejected))
      case Active => name in ts' && (ts'[name].status == Active || (op == Reject(name) && ts'[name].status == Rejected))
      case Rejected =>
        name in ts' && (ts'[name].status == Rejected || (op == Activate(name) && ts'[name].status == Active))
  {
  }

  function RunFrom(l: Limits, ts: Terms, ops: seq<(Op, Time)>): Terms {
    if ops == [] then ts else Step(l, RunFrom(l, ts, ops[..|ops| - 1]), ops[|ops| - 1].0, ops[|ops| - 1].1)
  }

  /** Sightings and expiries, however many, leave a rejected term rejected and an alias the same alias. */
  lemma {:induction false} NoIsNo(l: Limits, ts: Terms, ops: seq<(Op, Time)>, name: string)
    requires name in ts && ts[name].status in {Rejected, AliasTerm}
    requires forall o <- ops :: o.0.Observe? || o.0.Expire?
    ensures var ts' := RunFrom(l, ts, ops);
      name in ts' && ts'[name].status == ts[name].status && ts'[name].aliasOf == ts[name].aliasOf
  {
    if ops != [] {
      NoIsNo(l, ts, ops[..|ops| - 1], name);
      assert ops[|ops| - 1] in ops;
    }
  }

  predicate Dated(ts: Terms) {
    forall n :: n in ts ==>
      (ts[n].status == Counting ==> ts[n].activatedAt.None?) && (ts[n].status == Active ==> ts[n].activatedAt.Some?)
  }

  lemma EveryRunIsDated(l: Limits, ops: seq<(Op, Time)>)
    ensures Dated(Run(l, ops))
  {
    forall n | n in Run(l, ops)
      ensures Lives(l, Run(l, ops)[n], Sightings(l, ops, n))
    {
      EveryTermLives(l, ops, n);
    }
  }

  /** What was said with a term can be read for ever: once readable, a term stays so. */
  lemma {:induction false} ReadableStays(l: Limits, ts: Terms, ops: seq<(Op, Time)>)
    requires Dated(ts)
    ensures Readable(ts) <= Readable(RunFrom(l, ts, ops))
    ensures Dated(RunFrom(l, ts, ops))
  {
    if ops != [] {
      ReadableStays(l, ts, ops[..|ops| - 1]);
    }
  }
}
