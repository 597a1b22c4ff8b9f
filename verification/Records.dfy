/** The records memris keeps. Ids are numbers: the graph only compares them and sorts by
    them. Moments are integers on one clock. A record does not repeat its own id; it is the
    key of the map that holds it. */
module Records {

  type Id = nat
  type Time = int

  /** The one entity every install has; it can never be removed. */
  const OWNER_ID: Id := 0

  datatype Option<+T> = None | Some(value: T)

  datatype Refusal =
    | Missing | WasMerged | WasRemoved | OwnerStays | NotRemoved | HasMembers | StillHolds
    | BadStatus | NotRetracted | AlreadyRetracted | AlreadyEnded | EndsBeforeStart
    | WithItself | MarkedDistinct | UnrelatedClasses | NotAMerge | AreMerged
    | UnknownProperty | DeprecatedProperty | OutsideDomain | OutsideRange | WrongShape
    | EmptyLabel | UndeclaredClass | AbstractClass | DeprecatedClass

  datatype Result<+T> = Ok(value: T) | Refused(why: Refusal)

  datatype Status = Proposed | Confirmed | Retracted

  datatype Statement = Statement(
    subject: Id,
    property: string,
    target: Option<Id>,
    literal: Option<string>,
    recordedAt: Time,
    validFrom: Option<Time>,
    validTo: Option<Time>,
    retractedAt: Option<Time>,
    status: Status,
    supersedes: Option<Id>,
    reason: Option<string>,
    reinforced: int,
    lastReinforcedAt: Option<Time>)
  {
    /** An unknown start is read as "since memris learned it". */
    function Start(): Time {
      if validFrom.Some? then validFrom.value else recordedAt
    }

    /** Valid time is half open. */
    predicate ValidAt(t: Time) {
      Start() <= t && (validTo.Some? ==> t < validTo.value)
    }

    /** So is record time. */
    predicate KnownAt(t: Time) {
      recordedAt <= t && (retractedAt.Some? ==> t < retractedAt.value)
    }

    /** Whether the statement still stands for its subject: purging and removal ask this. */
    predicate Holds(now: Time) {
      status == Proposed || (status == Confirmed && ValidAt(now))
    }
  }

  datatype Entity = Entity(
    class_: string,
    name: string,
    aliases: seq<string>,
    createdAt: Time,
    mergedInto: Option<Id>,
    removedAt: Option<Time>,
    removedReason: Option<string>,
    removedStatements: seq<(Id, Status, Option<string>)>)
  {
    predicate Standing() {
      mergedInto.None? && removedAt.None?
    }
  }

  datatype Verdict = Candidate | Same | Distinct | Undone

  datatype Decision = Decision(
    a: Id,
    b: Id,
    verdict: Verdict,
    decidedAt: Time,
    evidence: seq<string>,
    addedAliases: seq<string>)
  {
    predicate Between(x: Id, y: Id) {
      {a, b} == {x, y}
    }

    predicate Names(x: Id) {
      a == x || b == x
    }
  }
}
