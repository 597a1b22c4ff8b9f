/** What one event does to the learned terms, said of their fields, and what that makes of whole runs. */
module LearnerLaws {
  import opened Records
  import opened Learner

  predicate Added(earlier: seq<string>, x: Option<string>, later: seq<string>) {
    if x.None? || x.value == "" || x.value in earlier then later == earlier
    else |later| == |earlier| + 1 && later[..|earlier|] == earlier && later[|earlier|] == x.value
  }

  /** The examples after one more: the newest, as many as are kept. */
  predicate NewestKept(earlier: seq<string>, x: Option<string>, most: nat, later: seq<string>) {
    var all := if x.None? || x.value == "" || x.value in earlier then earlier else earlier + [x.value];
    if most == 0 then later == earlier else later == if |all| <= most then all else all[|all| - most..]
  }

  /** One sighting of a name: an alias if it is new and reads like a declared term, and what was decided of it before
    * stands; else it counts, and becomes active at once when both thresholds are met. */
  lemma SightingAsSeen(l: Limits, ts: Terms, s: Sighting, now: Time)
    requires s.local != ""
    ensures var name := l.prefix + ":" + s.local;
            var ts' := Step(l, ts, Observe(s), now);
      && ts'.Keys == ts.Keys + {name}
      && (forall n :: n in ts && n != name ==> ts'[n] == ts[n])
      && ts'[name].lastSeen == now
      && ts'[name].firstSeen == (if name in ts then ts[name].firstSeen else now)
      && ts'[name].observations == (if name in ts then ts[name].observations else 0) + 1
      && Added(if name in ts then ts[name].episodes else [], s.episode, ts'[name].episodes)
      && (if name !in ts && s.alias.Some? then
            ts'[name].status == AliasTerm && ts'[name].aliasOf == s.alias && ts'[name].decidedBy == Similarity
            && ts'[name].activatedAt == None
          else if name in ts && ts[name].status != Counting then
            ts'[name].status == ts[name].status && ts'[name].aliasOf == ts[name].aliasOf
            && ts'[name].decidedBy == ts[name].decidedBy && ts'[name].activatedAt == ts[name].activatedAt
          else if ts'[name].observations >= l.minObservations && |ts'[name].episodes| >= l.minEpisodes then
            ts'[name].status == Active && ts'[name].activatedAt == Some(now) && ts'[name].decidedBy == Evidence
          else ts'[name].status == Counting && ts'[name].aliasOf == (if name in ts then ts[name].aliasOf else None)
               && (name in ts ==> ts'[name].decidedBy == ts[name].decidedBy))
  {
  }

  lemma ExamplesAsSeen(l: Limits, ts: Terms, s: Sighting, now: Time)
    requires s.local != ""
    ensures var name, ts' := l.prefix + ":" + s.local, Step(l, ts, Observe(s), now);
      name in ts'
      && NewestKept(if name in ts then ts[name].examples else [], s.example, l.maxExamples, ts'[name].examples)
  {
  }

  /** Nothing but a sighting of the name, the owner's word on it or its going stale touches a term. */
  lemma DecisionAsSeen(l: Limits, ts: Terms, op: Op, now: Time, name: string)
    requires !op.Observe? && name in ts
    ensures var ts' := Step(l, ts, op, now);
      && (name in ts' ==>
            && ts'[name].firstSeen == ts[name].firstSeen && ts'[name].lastSeen == ts[name].lastSeen
            && ts'[name].observations == ts[name].observations && ts'[name].episodes == ts[name].episodes
            && ts'[name].examples == ts[name].examples && ts'[name].aliasOf == ts[name].aliasOf)
      && match op
         case Reject(n) =>
           ts'.Keys == ts.Keys && (if n == name then ts'[name].status == Rejected && ts'[name].decidedBy == Owner
                                                     && ts'[name].activatedAt == ts[name].activatedAt
                                   else ts'[name] == ts[name])
         case Activate(n) =>
           ts'.Keys == ts.Keys && (if n == name && ts[n].status != AliasTerm then
                                     ts'[name].status == Active && ts'[name].decidedBy == Owner
                                     && ts'[name].activatedAt
                                        == Some(if ts[name].activatedAt.Some? then ts[name].activatedAt.value else now)
                                   else ts'[name] == ts[name])
         case _ =>
           && (name !in ts' <==> ts[name].status == Counting && ts[name].lastSeen + l.expireAfter < now)
           && (name in ts' ==> ts'[name] == ts[name])
  {
  }

  /** When a name was sighted since it was last unknown. */
  function SeenAt(l: Limits, ops: seq<(Op, Time)>, name: string): seq<Time> {
    if ops == [] then []
    else
      var (op, now) := ops[|ops| - 1];
      var before := SeenAt(l, ops[..|ops| - 1], name);
      if name !in Run(l, ops) then []
      else if op.Observe? && op.s.local != "" && l.prefix + ":" + op.s.local == name then before + [now]
      else before
  }

  /** Over any run a term's dates are those of its first and its last sighting, and it counts them all. */
  lemma {:induction false} DatesAreOfSightings(l: Limits, ops: seq<(Op, Time)>, name: string)
    requires name in Run(l, ops)
    ensures var (seen, t) := (SeenAt(l, ops, name), Run(l, ops)[name]);
      |seen| > 0 && t.firstSeen == seen[0] && t.lastSeen == seen[|seen| - 1] && t.observations == |seen|
  {
    var front := ops[..|ops| - 1];
    var (op, now) := ops[|ops| - 1];
    if name in Run(l, front) {
      DatesAreOfSightings(l, front, name);
    } else {
      UnknownIsUnseen(l, front, name);
    }
    if op.Observe? && op.s.local != "" {
      SightingAsSeen(l, Run(l, front), op.s, now);
    } else if name in Run(l, front) && !op.Observe? {
      DecisionAsSeen(l, Run(l, front), op, now, name);
    }
  }

  lemma UnknownIsUnseen(l: Limits, ops: seq<(Op, Time)>, name: string)
    requires name !in Run(l, ops)
    ensures SeenAt(l, ops, name) == []
  {
  }

  /** Anywhere in a run an expiry forgets a name exactly when it still only counts and was last sighted too long ago. */
  lemma ForgottenIff(l: Limits, ops: seq<(Op, Time)>, now: Time, name: string)
    requires name in Run(l, ops)
    ensures var seen := SeenAt(l, ops, name);
      |seen| > 0
      && (name !in Step(l, Run(l, ops), Expire, now)
          <==> Run(l, ops)[name].status == Counting && seen[|seen| - 1] + l.expireAfter < now)
  {
    DatesAreOfSightings(l, ops, name);
    DecisionAsSeen(l, Run(l, ops), Expire, now, name);
  }

  lemma ReadableStep(l: Limits, ts: Terms, op: Op, now: Time, name: string)
    requires Dated(ts)
    ensures var ts' := Step(l, ts, op, now);
      name in Readable(ts') <==> name in Readable(ts) || (name in ts' && ts'[name].status == Active)
  {
  }

  /** Anywhere in a run exactly the names that are active, or were at some moment before, can be read. */
  lemma {:induction false} ReadableIff(l: Limits, ops: seq<(Op, Time)>, name: string)
    ensures name in Readable(Run(l, ops))
            <==> exists j :: 0 <= j <= |ops| && name in Run(l, ops[..j]) && Run(l, ops[..j])[name].status == Active
  {
    hide Step, Dated;
    assert ops[..|ops|] == ops;
    if ops != [] {
      var front := ops[..|ops| - 1];
      var (op, now) := ops[|ops| - 1];
      ReadableIff(l, front, name);
      assert forall j :: 0 <= j <= |front| ==> front[..j] == ops[..j];
      EveryRunIsDated(l, front);
      ReadableStep(l, Run(l, front), op, now, name);
    }
  }
}
