/** The governance around one tool call: PRE_TOOL_USE, the tool's own code, POST_TOOL_USE.
  * The kernel and the tools are arbitrary functions of everything that happened before. */
module ToolRunner {
  import opened Records

  datatype Label = Open | Internal | Personal | Secret

  datatype Effect = Read | Write | Destructive
  datatype Gate = Never | Once | Approval

  type Args = string

  datatype Tool = Tool(name: string, effect: Effect, confirm: Gate)

  datatype Call = Call(level: Option<Label>, approvedBy: Option<Id>, deferred: bool, tainted: bool)

  datatype Verdict = Allow | Transform | Deny(reason: string) | RequireApproval(reason: string)

  /** What the kernel leaves of PRE_TOOL_USE: the final decision, the payload's arguments, and the ledger row
    * named by the decision and by the final context. */
  datatype PreReply = PreReply(verdict: Verdict, args: Option<Args>, decisionRow: Option<string>,
    contextRow: Option<string>)

  /** What the kernel leaves of POST_TOOL_USE; `result` is absent when the final result is not text. */
  datatype PostReply = PostReply(verdict: Verdict, level: Option<Label>, result: Option<string>)

  datatype Body = Returned(text: string) | Reported(text: string) | Failed(message: string, cause: string)
    | Raised(message: string, cause: string)

  datatype Event =
    | Asked(id: Id, tool: Tool, args: Args, call: Call, before: PreReply)
    | Ran(id: Id, tool: Tool, args: Args, call: Call)
    | Judged(id: Id, tool: Tool, observation: string, error: Option<string>, after: PostReply)

  type Log = seq<Event>

  /** Everything the runner does not decide itself. */
  datatype World = World(
    key: Log -> bool,
    gated: set<string>,
    problem: (Log, Tool, Args) -> Option<string>,
    pre: (Log, Id, Tool, Args, Call) -> PreReply,
    post: (Log, Id, Tool, string, Option<string>, Call) -> PostReply,
    body: (Log, Tool, Args) -> Body)

  /** `governed`: a kernel is bound; `resumable`: the run can pause and be resumed by an answer. */
  datatype Setting = Setting(governed: bool, resumable: bool, world: World)

  datatype PostOutcome = PostOutcome(level: Option<Label>, text: string, withheld: bool)

  datatype CallStatus = HasRun | Held | TurnedBack

  datatype ToolOutcome = ToolOutcome(status: CallStatus, text: string, ok: bool, verdict: Option<Verdict>,
    level: Option<Label>, post: Option<PostOutcome>, id: Option<Id>)

  const NO_KEY := "the audit key is unavailable"
  const NOT_RUN := "NotRun"
  const NO_PRE_RECORD := "no durable pre-execution record was made for this irreversible call"
  const NOT_TEXT := "POST_TOOL_USE left a result that is not text, so it is withheld"
  const TOOL_REPORTED_ERROR := "ToolReportedError"

  // ---- Labels -------------------------------------------------------------------------------------------------

  function Rank(l: Option<Label>): nat {
    match l
    case None => 0
    case Some(Open) => 1
    case Some(Internal) => 2
    case Some(Personal) => 3
    case Some(Secret) => 4
  }

  /** The stricter of two labels, as `more_restrictive` reads its severity table; absent means nothing was said. */
  function MoreRestrictive(left: Option<Label>, right: Option<Label>): Option<Label> {
    if left.None? then right
    else if right.None? then left
    else if Rank(left) >= Rank(right) then left else right
  }

  // ---- What a call needs --------------------------------------------------------------------------------------

  predicate HighRisk(tool: Tool) {
    tool.effect == Destructive || tool.confirm == Approval
  }

  predicate PerCall(w: World, tool: Tool, call: Call) {
    HighRisk(tool) || (call.deferred && tool.confirm == Once) || (call.tainted && tool.name in w.gated)
  }

  predicate Refuses(v: Verdict) {
    v.Deny? || v.RequireApproval?
  }

  function Row(reply: PreReply): Option<string> {
    if reply.decisionRow.Some? then reply.decisionRow else reply.contextRow
  }

  function BlockMessage(v: Verdict): string
    requires Refuses(v)
  {
    "Request " + (if v.Deny? then "blocked" else "needs approval") + " by governance: " + v.reason
  }

  function RefusedText(tool: Tool): string {
    if tool.effect == Destructive
    then "Refused: " + tool.name + " deletes or overwrites the user's data"
    else "Refused: each " + tool.name + " call needs the owner's approval"
  }

  /** Whether the call just asked about goes on to run the tool's own code. */
  predicate GoesOn(w: World, tool: Tool, call: Call, before: PreReply) {
    && !Refuses(before.verdict)
    && (PerCall(w, tool, call) ==> call.approvedBy.Some?)
    && (HighRisk(tool) ==> Row(before).Some?)
  }

  function GivenArgs(args: Args, before: PreReply): Args {
    if before.args.Some? then before.args.value else args
  }

  // ---- The runner, specified ----------------------------------------------------------------------------------

  function Handed(after: PostReply, level: Option<Label>): PostOutcome {
    if Refuses(after.verdict) then PostOutcome(level, BlockMessage(after.verdict), true)
    else if after.result.None? then PostOutcome(level, BlockMessage(Deny(NOT_TEXT)), true)
    else PostOutcome(level, after.result.value, false)
  }

  function Judging(s: Setting, log: Log, id: Id, tool: Tool, observation: string, error: Option<string>, call: Call)
    : (Log, PostOutcome)
  {
    if !s.governed then ([], PostOutcome(call.level, observation, false))
    else
      var after := s.world.post(log, id, tool, observation, error, call);
      ([Judged(id, tool, observation, error, after)], Handed(after, MoreRestrictive(call.level, after.level)))
  }

  /** The events of PRE_TOOL_USE, its verdict (absent without a kernel) and the arguments to run with. */
  function Asking(s: Setting, log: Log, id: Id, tool: Tool, args: Args, call: Call): (Log, Option<Verdict>, Args) {
    if !s.governed then ([], None, args)
    else
      var before := s.world.pre(log, id, tool, args, call);
      var asked := [Asked(id, tool, args, call, before)];
      if HighRisk(tool) && call.approvedBy.Some? && !Refuses(before.verdict) && Row(before).None?
      then (asked, Some(Deny(NO_PRE_RECORD)), args)
      else
        var unrun := if Refuses(before.verdict) && before.contextRow.Some?
                     then Judging(s, log + asked, id, tool, "", Some(NOT_RUN), call).0 else [];
        (asked + unrun, Some(before.verdict), GivenArgs(args, before))
  }

  function BodyError(b: Body): Option<string> {
    match b
    case Returned(_) => None
    case Reported(_) => Some(TOOL_REPORTED_ERROR)
    case Failed(_, cause) => Some(cause)
    case Raised(_, cause) => Some(cause)
  }

  function BodyText(b: Body): string {
    match b
    case Returned(text) => text
    case Reported(text) => text
    case Failed(message, _) => message
    case Raised(message, _) => "Tool error: " + message
  }

  datatype Attempt = Attempt(events: Log, outcome: ToolOutcome, effects: seq<Effect>)

  function TurnBack(text: string, call: Call, id: Option<Id>, events: Log): Attempt {
    Attempt(events, ToolOutcome(TurnedBack, text, false, None, call.level, None, id), [])
  }

  /** Why the runner turns a call back before anything is asked. */
  function Unasked(s: Setting, log: Log, tool: Tool, args: Args, call: Call): Option<string> {
    if s.governed && !s.world.key(log) then Some(NO_KEY)
    else if PerCall(s.world, tool, call) && !s.governed then Some(RefusedText(tool))
    else if PerCall(s.world, tool, call) && call.approvedBy.None? && (s.resumable || call.deferred)
    then s.world.problem(log, tool, args)
    else None
  }

  function Execution(s: Setting, log: Log, id: Id, tool: Tool, args: Args, call: Call): Attempt {
    var unasked := Unasked(s, log, tool, args, call);
    if unasked.Some? then TurnBack(unasked.value, call, None, [])
    else
      var (asked, verdict, given) := Asking(s, log, id, tool, args, call);
      if verdict.Some? && Refuses(verdict.value)
      then Attempt(asked, ToolOutcome(Held, "", false, verdict, call.level, None, Some(id)), [])
      else if PerCall(s.world, tool, call) && call.approvedBy.None?
      then TurnBack(RefusedText(tool), call, Some(id), asked)
      else
        var ran := asked + [Ran(id, tool, given, call)];
        var body := s.world.body(log + ran, tool, given);
        var (judged, post) := Judging(s, log + ran, id, tool, BodyText(body), BodyError(body), call);
        Attempt(ran + judged,
                ToolOutcome(HasRun, post.text, BodyError(body).None? && !post.withheld, None, post.level, Some(post),
                            Some(id)),
                if tool.effect != Read then [tool.effect] else [])
  }

  // ---- The runner ---------------------------------------------------------------------------------------------

  class GovernedToolRunner {
    const setting: Setting
    var log: Log
    var nextId: Id

    constructor (setting: Setting)
      ensures this.setting == setting && log == [] && nextId == 0
    {
      this.setting := setting;
      log, nextId := [], 0;
    }

    method Post(tool: Tool, observation: string, call: Call, id: Id, error: Option<string>) returns (post: PostOutcome)
      modifies this`log
      ensures log == old(log) + Judging(setting, old(log), id, tool, observation, error, call).0
      ensures post == Judging(setting, old(log), id, tool, observation, error, call).1
    {
      if !setting.governed {
        return PostOutcome(call.level, observation, false);
      }
      var after := setting.world.post(log, id, tool, observation, error, call);
      log := log + [Judged(id, tool, observation, error, after)];
      var level := MoreRestrictive(call.level, after.level);
      if after.verdict.Deny? || after.verdict.RequireApproval? {
        return PostOutcome(level, BlockMessage(after.verdict), true);
      }
      if after.result.None? {
        return PostOutcome(level, BlockMessage(Deny(NOT_TEXT)), true);
      }
      return PostOutcome(level, after.result.value, false);
    }

    /** Settles as an error the row of a call that was recorded and then not run. */
    method SettleUnrunTool(tool: Tool, call: Call, id: Id, contextRow: Option<string>)
      modifies this`log
      ensures log == old(log) + (if contextRow.None? || !setting.governed then []
                                 else Judging(setting, old(log), id, tool, "", Some(NOT_RUN), call).0)
    {
      if contextRow.None? || !setting.governed {
        return;
      }
      var _ := Post(tool, "", call, id, Some(NOT_RUN));
    }

    method Pre(tool: Tool, args: Args, call: Call, id: Id) returns (verdict: Option<Verdict>, given: Args)
      modifies this`log
      ensures log == old(log) + Asking(setting, old(log), id, tool, args, call).0
      ensures verdict == Asking(setting, old(log), id, tool, args, call).1
      ensures given == Asking(setting, old(log), id, tool, args, call).2
    {
      if !setting.governed {
        return None, args;
      }
      var before := setting.world.pre(log, id, tool, args, call);
      log := log + [Asked(id, tool, args, call, before)];
      if HighRisk(tool) && call.approvedBy.Some? && !Refuses(before.verdict) && Row(before).None? {
        return Some(Deny(NO_PRE_RECORD)), args;
      }
      if Refuses(before.verdict) {
        SettleUnrunTool(tool, call, id, before.contextRow);
      }
      return Some(before.verdict), GivenArgs(args, before);
    }

    /** Governs and runs `tool`; `done` grows by the effect of a call whose own code was started. */
    method Execute(tool: Tool, args: Args, call: Call, done: seq<Effect>)
      returns (outcome: ToolOutcome, effects: seq<Effect>)
      modifies this
      ensures log == old(log) + Execution(setting, old(log), old(nextId), tool, args, call).events
      ensures outcome == Execution(setting, old(log), old(nextId), tool, args, call).outcome
      ensures effects == done + Execution(setting, old(log), old(nextId), tool, args, call).effects
      ensures nextId == old(nextId) + 1
    {
      effects := done;
      var id := nextId;
      nextId := nextId + 1;
      if setting.governed && !setting.world.key(log) {
        return ToolOutcome(TurnedBack, NO_KEY, false, None, call.level, None, None), effects;
      }
      var perCall := PerCall(setting.world, tool, call);
      if perCall && !setting.governed {
        return ToolOutcome(TurnedBack, RefusedText(tool), false, None, call.level, None, None), effects;
      }
      if perCall && call.approvedBy.None? && (setting.resumable || call.deferred) {
        var problem := setting.world.problem(log, tool, args);
        if problem.Some? {
          return ToolOutcome(TurnedBack, problem.value, false, None, call.level, None, None), effects;
        }
      }
      var verdict, given := Pre(tool, args, call, id);
      if verdict.Some? && Refuses(verdict.value) {
        return ToolOutcome(Held, "", false, verdict, call.level, None, Some(id)), effects;
      }
      if perCall && call.approvedBy.None? {
        return ToolOutcome(TurnedBack, RefusedText(tool), false, None, call.level, None, Some(id)), effects;
      }
      if tool.effect != Read {
        effects := effects + [tool.effect];
      }
      ghost var asked := Asking(setting, old(log), id, tool, args, call).0;
      log := log + [Ran(id, tool, given, call)];
      assert log == old(log) + (asked + [Ran(id, tool, given, call)]);
      var body := setting.world.body(log, tool, given);
      var post := Post(tool, BodyText(body), call, id, BodyError(body));
      assert log == old(log) + Execution(setting, old(log), id, tool, args, call).events;
      return ToolOutcome(HasRun, post.text, BodyError(body).None? && !post.withheld, None, post.level, Some(post),
                         Some(id)), effects;
    }
  }
}
