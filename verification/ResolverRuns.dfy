/** Names resolved in the course of any run of the graph: exactly which requests fail. */
module ResolverRuns {
  import opened Records
  import opened GraphSpec
  import opened Runs
  import opened IdentityLaws
  import opened Resolver

  /** What callers do: operate on the graph, or ask which entity a name means. */
  datatype Act = Graph(op: Op) | Ask(q: Request)

  /** One of them taken, with ids for new records that are in use nowhere. Look-alikes are noted about two entities that
      could be one, as a request notes them. */
  ghost predicate Moves(onto: Ontology, n: Naming, enough: nat, st: State, act: Act, now: Time, st': State) {
    match act
    case Graph(op) => NotesPairs(onto, st, op) && st' == Step(onto, st, op, now)
    case Ask(q) =>
      && Below(st.decisions, q.newId) && Unused(st, q.newEntity)
      && exists r, order :: Resolves(onto, n, enough, st, q, now, st', r, order)
  }

  /** The states of a run from an empty graph. */
  ghost predicate Trail(onto: Ontology, n: Naming, enough: nat, states: seq<State>, acts: seq<(Act, Time)>) {
    && |states| == |acts| + 1 && states[0] == NOTHING
    && forall k :: 0 <= k < |acts| ==> Moves(onto, n, enough, states[k], acts[k].0, acts[k].1, states[k + 1])
  }

  lemma MoveKeeps(onto: Ontology, n: Naming, enough: nat, st: State, act: Act, now: Time, st': State)
    requires Identity(st) && Recorded(onto, st) && Moves(onto, n, enough, st, act, now, st')
    ensures Identity(st') && Recorded(onto, st')
  {
    hide Identity, Recorded, Resolves, Step;
    match act
    case Graph(op) => StepKeepsRecorded(onto, st, op, now);
    case Ask(q) =>
      var r, order :| Resolves(onto, n, enough, st, q, now, st', r, order);
      ResolvingKeeps(onto, n, enough, st, q, now, st', r, order);
  }

  /** Identity, and open pairs of two entities that could be one, in every state of every run. */
  lemma {:induction false} EveryTrailIsRecorded(onto: Ontology, n: Naming, enough: nat, states: seq<State>,
                                                acts: seq<(Act, Time)>, k: nat)
    requires Trail(onto, n, enough, states, acts) && k < |states|
    ensures Identity(states[k]) && Recorded(onto, states[k])
  {
    if k == 0 {
      EveryRunHasIdentity(onto, []);
      assert Run(onto, NOTHING, []) == NOTHING;
    } else {
      EveryTrailIsRecorded(onto, n, enough, states, acts, k - 1);
      hide Identity, Recorded, Moves;
      MoveKeeps(onto, n, enough, states[k - 1], acts[k - 1].0, acts[k - 1].1, states[k]);
    }
  }

  /** Asked anywhere in any run, a name is refused exactly when nothing carries it and it is blank or its class is not one
      to make an entity of; and then nothing has changed. Otherwise it resolves, to an entity that stands unmerged and not
      removed. */
  lemma ResolvingFailsIff(onto: Ontology, n: Naming, enough: nat, states: seq<State>, acts: seq<(Act, Time)>, k: nat,
                          r: Result<Resolution>, order: seq<Id>)
    requires Trail(onto, n, enough, states, acts) && k < |acts| && acts[k].0.Ask?
    requires Resolves(onto, n, enough, states[k], acts[k].0.q, acts[k].1, states[k + 1], r, order)
    ensures var q := acts[k].0.q;
      && (r.Refused? <==> Scan(onto, n, states[k].entities, q.name, q.class_).None? && Unaddable(onto, q.class_, q.name))
      && (r.Refused? ==> states[k + 1] == states[k])
      && (r.Ok? ==> r.value.target in states[k + 1].entities && states[k + 1].entities[r.value.target].Standing())
  {
    EveryTrailIsRecorded(onto, n, enough, states, acts, k);
    assert Moves(onto, n, enough, states[k], acts[k].0, acts[k].1, states[k + 1]);
    hide Identity, Recorded, Resolves, Trail, Scan, Unaddable;
    ResolvingKeeps(onto, n, enough, states[k], acts[k].0.q, acts[k].1, states[k + 1], r, order);
  }
}
