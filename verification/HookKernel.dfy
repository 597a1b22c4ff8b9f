/** The kernel's chain of hooks at PRE_TOOL_USE, and what it makes sure of about the rows its hooks record. */
module HookKernel {
  import opened Records
  import opened ToolRunner
  import opened ToolLaws

  /** `row` is the ledger key a decision names, `payload` the arguments of a transform. */
  datatype HookDecision = HookDecision(verdict: ToolRunner.Verdict, row: Option<string>, payload: Option<Args>)

  /** `kept`: the audit row of the firing was written, to the ledger or the spool. */
  datatype HookReply = Threw | Decided(decision: HookDecision, kept: bool)

  datatype Context = Context(log: Log, id: Id, tool: Tool, call: Call, args: Option<Args>, row: Option<string>)

  type Hook = Context -> HookReply

  const NO_HOOKS := HookDecision(Allow, None, None)
  const HOOK_RAISED := HookDecision(Deny("hook raised"), None, None)
  const ROW_LOST := HookDecision(Deny("the ledger write for this call failed, so it does not run"), None, None)

  /** The context the next hook sees: a row once named stays until another is. */
  function Noting(ctx: Context, d: HookDecision): Context {
    var named := if d.row.Some? then ctx.(row := d.row) else ctx;
    if d.verdict.Transform? && d.payload.Some? then named.(args := d.payload) else named
  }

  /** The chain from here on, after `last` was decided. */
  function Fired(hooks: seq<Hook>, ctx: Context, last: HookDecision, audited: bool): (HookDecision, Context) {
    if hooks == [] then
      (if !audited && !Refuses(last.verdict) && ctx.tool.effect != Read then ROW_LOST else last, ctx)
    else
      match hooks[0](ctx)
      case Threw => (HOOK_RAISED, ctx)
      case Decided(d, kept) =>
        if Refuses(d.verdict) then (d, Noting(ctx, d)) else Fired(hooks[1..], Noting(ctx, d), d, audited && kept)
  }

  class GovernanceKernel {
    const hooks: seq<Hook>

    constructor (hooks: seq<Hook>)
      ensures this.hooks == hooks
    {
      this.hooks := hooks;
    }

    method Fire(ctx: Context) returns (decision: HookDecision, final: Context)
      ensures (decision, final) == Fired(hooks, ctx, NO_HOOKS, true)
    {
      decision, final := NO_HOOKS, ctx;
      var audited := true;
      for k := 0 to |hooks|
        invariant Fired(hooks, ctx, NO_HOOKS, true) == Fired(hooks[k..], final, decision, audited)
      {
        assert hooks[k..][0] == hooks[k] && hooks[k..][1..] == hooks[k + 1..];
        var reply := hooks[k](final);
        if reply.Threw? {
          return HOOK_RAISED, final;
        }
        decision := reply.decision;
        audited := audited && reply.kept;
        final := Noting(final, decision);
        if Refuses(decision.verdict) {
          return;
        }
      }
      if !audited && !Refuses(decision.verdict) && final.tool.effect != Read {
        decision := ROW_LOST;
      }
    }
  }

  function ReplyOf(fired: (HookDecision, Context)): PreReply {
    PreReply(fired.0.verdict, fired.1.args, fired.0.row, fired.1.row)
  }

  // ---- What the chain comes to --------------------------------------------------------------------------------

  predicate SaysNo(d: HookDecision) {
    d.verdict.Deny? || d.verdict.RequireApproval?
  }

  /** What a hook decided, and what the next one sees of it. */
  predicate SeenNext(reply: HookReply, c: Context, c': Context) {
    && reply.Decided?
    && c'.row == (if reply.decision.row.Some? then reply.decision.row else c.row)
    && c'.args == (if reply.decision.verdict.Transform? && reply.decision.payload.Some? then reply.decision.payload
                   else c.args)
    && c'.log == c.log && c'.id == c.id && c'.tool == c.tool && c'.call == c.call
  }

  ghost predicate AllDecided(hooks: seq<Hook>, seen: seq<Context>) {
    1 <= |seen| <= |hooks| + 1 && forall k :: 0 <= k < |seen| - 1 ==> hooks[k](seen[k]).Decided?
  }

  /** The contexts the hooks saw in turn, and the one they left; none but the last of them said no. */
  ghost predicate Saw(hooks: seq<Hook>, ctx: Context, seen: seq<Context>) {
    && AllDecided(hooks, seen) && seen[0] == ctx
    && forall k :: 0 <= k < |seen| - 1 ==>
         && SeenNext(hooks[k](seen[k]), seen[k], seen[k + 1])
         && (k < |seen| - 2 ==> !SaysNo(hooks[k](seen[k]).decision))
  }

  /** The first hook that says no has the last word; one that throws, or an audit row lost of a call that is no read,
    * ends in a refusal of the kernel's own; else the last hook's word stands, and no hook at all allows. */
  ghost predicate EndsAs(hooks: seq<Hook>, seen: seq<Context>, d: HookDecision)
    requires AllDecided(hooks, seen)
  {
    var n := |seen| - 1;
    var lost := exists k :: 0 <= k < n && !hooks[k](seen[k]).kept;
    if n > 0 && SaysNo(hooks[n - 1](seen[n - 1]).decision) then d == hooks[n - 1](seen[n - 1]).decision
    else if n < |hooks| then hooks[n](seen[n]).Threw? && d == HookDecision(Deny("hook raised"), None, None)
    else if lost && seen[n].tool.effect != Read then
      d == HookDecision(Deny("the ledger write for this call failed, so it does not run"), None, None)
    else d == if n > 0 then hooks[n - 1](seen[n - 1]).decision else HookDecision(Allow, None, None)
  }

  lemma SawMore(hooks: seq<Hook>, ctx: Context, seen: seq<Context>)
    requires Saw(hooks, ctx, seen) && |seen| <= |hooks| && hooks[|seen| - 1](seen[|seen| - 1]).Decided?
    requires |seen| > 1 ==> !SaysNo(hooks[|seen| - 2](seen[|seen| - 2]).decision)
    ensures var c := seen[|seen| - 1];
            Saw(hooks, ctx, seen + [Noting(c, hooks[|seen| - 1](c).decision)])
  {
    var c := seen[|seen| - 1];
    var next := seen + [Noting(c, hooks[|seen| - 1](c).decision)];
    assert SeenNext(hooks[|seen| - 1](c), c, next[|seen|]);
    hide SeenNext, Noting, SaysNo;
    forall k | 0 <= k < |next| - 1
      ensures SeenNext(hooks[k](next[k]), next[k], next[k + 1])
      ensures k < |next| - 2 ==> !SaysNo(hooks[k](next[k]).decision)
    {
      if k < |seen| - 1 {
        assert SeenNext(hooks[k](seen[k]), seen[k], seen[k + 1]);
      }
    }
  }

  lemma {:induction false} FiredFrom(hooks: seq<Hook>, ctx: Context, seen: seq<Context>, last: HookDecision,
      audited: bool) returns (all: seq<Context>)
    requires Saw(hooks, ctx, seen) && !SaysNo(last)
    requires var n := |seen| - 1; last == if n > 0 then hooks[n - 1](seen[n - 1]).decision else NO_HOOKS
    requires audited <==> forall k :: 0 <= k < |seen| - 1 ==> hooks[k](seen[k]).kept
    ensures Saw(hooks, ctx, all)
    ensures var (d, final) := Fired(hooks[|seen| - 1..], seen[|seen| - 1], last, audited);
      EndsAs(hooks, all, d) && final == all[|all| - 1]
    decreases |hooks| - |seen|
  {
    var n := |seen| - 1;
    var rest, c := hooks[n..], seen[n];
    if n < |hooks| && hooks[n](c).Decided? {
      assert rest[0] == hooks[n] && rest[1..] == hooks[n + 1..];
      var reply := hooks[n](c);
      var next := seen + [Noting(c, reply.decision)];
      SawMore(hooks, ctx, seen);
      hide SeenNext, Noting;
      if SaysNo(reply.decision) {
        all := next;
      } else {
        all := FiredFrom(hooks, ctx, next, reply.decision, audited && reply.kept);
      }
    } else {
      all := seen;
    }
  }

  /** What the runner hears of PRE_TOOL_USE: what the chain of hooks ends with, and the row and the arguments it left.
    * */
  lemma FiredIs(hooks: seq<Hook>, ctx: Context)
    ensures exists seen: seq<Context>, d: HookDecision ::
              && Saw(hooks, ctx, seen) && EndsAs(hooks, seen, d)
              && var reply, left := ReplyOf(Fired(hooks, ctx, NO_HOOKS, true)), seen[|seen| - 1];
                 reply.verdict == d.verdict && reply.decisionRow == d.row
                 && reply.contextRow == left.row && reply.args == left.args
  {
    var seen := FiredFrom(hooks, ctx, [ctx], NO_HOOKS, true);
    assert hooks[0..] == hooks;
    var d := Fired(hooks, ctx, NO_HOOKS, true).0;
    assert Saw(hooks, ctx, seen) && EndsAs(hooks, seen, d);
  }

  /** A row the final decision names is the one the final context carries. */
  lemma {:induction false} RowsAreSticky(hooks: seq<Hook>, ctx: Context, last: HookDecision, audited: bool)
    requires last.row.Some? ==> ctx.row == last.row
    ensures var (d, final) := Fired(hooks, ctx, last, audited);
      d.row.Some? ==> final.row == d.row
  {
    if hooks != [] && hooks[0](ctx).Decided? {
      var reply := hooks[0](ctx);
      RowsAreSticky(hooks[1..], Noting(ctx, reply.decision), reply.decision, audited && reply.kept);
    }
  }

  /** No hook names a row of a call that nobody approved. */
  ghost predicate RecordsApproved(hooks: seq<Hook>) {
    forall k, ctx: Context :: 0 <= k < |hooks| && hooks[k](ctx).Decided? && hooks[k](ctx).decision.row.Some? ==>
      ctx.call.approvedBy.Some?
  }

  lemma {:induction false} RowsAreOfApproved(hooks: seq<Hook>, ctx: Context, last: HookDecision, audited: bool)
    requires RecordsApproved(hooks) && (ctx.row.Some? ==> ctx.call.approvedBy.Some?)
    ensures Fired(hooks, ctx, last, audited).1.row.Some? ==> ctx.call.approvedBy.Some?
  {
    if hooks != [] && hooks[0](ctx).Decided? {
      var reply := hooks[0](ctx);
      assert RecordsApproved(hooks[1..]) by {
        assert forall k :: 0 <= k < |hooks[1..]| ==> hooks[1..][k] == hooks[k + 1];
      }
      RowsAreOfApproved(hooks[1..], Noting(ctx, reply.decision), reply.decision, audited && reply.kept);
    }
  }

  /** The runner's kernel is this chain. */
  ghost predicate IsChain(w: World, hooks: seq<Hook>) {
    forall log, id, tool, args, call ::
      w.pre(log, id, tool, args, call)
      == ReplyOf(Fired(hooks, Context(log, id, tool, call, Some(args), None), NO_HOOKS, true))
  }

  /** Whatever else the hooks and the tools do: in any run every row recorded before a call is settled, by exactly one
    * POST_TOOL_USE of that call. */
  lemma EveryRowIsSettledOnce(s: Setting, hooks: seq<Hook>, level: Option<Label>, rs: seq<Request>, i: nat)
    requires s.governed && IsChain(s.world, hooks) && RecordsApproved(hooks)
    requires i < |Calls(s, Begun(level), rs).log|
    requires var a := Calls(s, Begun(level), rs).log[i]; a.Asked? && Row(a.before).Some?
    ensures var log := Calls(s, Begun(level), rs).log;
      Settlements(Of(log, log[i].id)) == 1
  {
    var log := Calls(s, Begun(level), rs).log;
    var a := log[i];
    RunIsAnswered(s, Begun(level), rs);
    var ctx := Context(log[..i], a.id, a.tool, a.call, Some(a.args), None);
    assert a.before == ReplyOf(Fired(hooks, ctx, NO_HOOKS, true));
    RowsAreSticky(hooks, ctx, NO_HOOKS, true);
    RowsAreOfApproved(hooks, ctx, NO_HOOKS, true);
    RowIsSettledOnceIff(s, level, rs, i);
  }
}
