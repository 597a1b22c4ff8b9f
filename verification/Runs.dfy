/** Any run of memory graph operations: each one read off the clock, refused ones included. */
module Runs {
  import opened Records
  import opened GraphSpec

  datatype Op =
    | AddOp(e: Id, class_: string, name: string, aliases: seq<string>)
    | AssertOp(id: Id, claim: Claim, status: Status, validFrom: Option<Time>)
    | ConfirmOp(id: Id)
    | UnconfirmOp(id: Id)
    | EndOp(id: Id, at: Option<Time>)
    | RetractOp(id: Id, reason: Option<string>)
    | ReinstateOp(id: Id, status: Status, reason: Option<string>)
    | PurgeOp(ids: set<Id>)
    | RemoveOp(e: Id, why: string)
    | RestoreOp(e: Id)
    | DeleteOp(e: Id)
    | MergeOp(keep: Id, fold: Id, evidence: seq<string>, newId: Id)
    | UnmergeOp(decision: Id)
    | DistinctOp(a: Id, b: Id, newId: Id)
    | NoteOp(a: Id, b: Id, episode: Option<string>, newId: Id)

  /** A new record never gets an id in use; such a step is no step. */
  predicate FreshIds(st: State, op: Op) {
    match op
    case AddOp(e, _, _, _) => e !in st.entities
    case AssertOp(id, _, _, _) => id !in st.statements
    case MergeOp(_, _, _, d) => d !in st.decisions
    case DistinctOp(_, _, d) => d !in st.decisions
    case NoteOp(_, _, _, d) => d !in st.decisions
    case _ => true
  }

  ghost function Step(onto: Ontology, st: State, op: Op, now: Time): State {
    if !FreshIds(st, op) then st
    else match op
      case AddOp(e, c, n, al) => AddEntity(onto, st, e, c, n, al, now).state
      case AssertOp(id, c, s, vf) => Assert(onto, st, id, c, s, vf, now).state
      case ConfirmOp(id) => Confirm(onto, st, id, now).state
      case UnconfirmOp(id) => Unconfirm(st, id).state
      case EndOp(id, at) => End(st, id, at, now).state
      case RetractOp(id, why) => Retract(st, id, why, now).state
      case ReinstateOp(id, s, why) => Reinstate(onto, st, id, s, why, now).state
      case PurgeOp(ids) => Purge(st, ids, now).state
      case RemoveOp(e, why) => Remove(st, e, why, now).state
      case RestoreOp(e) => Restore(onto, st, e, now).state
      case DeleteOp(e) => Delete(st, e, now).state
      case MergeOp(k, f, ev, d) => Merge(onto, st, k, f, ev, d, now).state
      case UnmergeOp(d) => Unmerge(st, d, now).state
      case DistinctOp(a, b, d) => MarkDistinct(st, a, b, d, now).state
      case NoteOp(a, b, ep, d) => NoteCandidate(st, a, b, ep, d, now).0
  }

  ghost function Run(onto: Ontology, st: State, ops: seq<(Op, Time)>): State
    decreases |ops|
  {
    if ops == [] then st else Run(onto, Step(onto, st, ops[0].0, ops[0].1), ops[1..])
  }

  const NOTHING := State(map[], map[], map[])
}
