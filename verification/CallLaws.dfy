/** One governed call and what becomes of it, said of the call, the kernel's answers and what the tool gave; and over
  * runs, that every result is judged as the tool gave it. */
module CallLaws {
  import opened Records
  import opened ToolRunner
  import opened ToolLaws

  // ---- When a call runs ---------------------------------------------------------------------------------------

  predicate Irreversible(tool: Tool) {
    tool.effect == Destructive || tool.confirm == Approval
  }

  /** Each such call needs an approval of its own: irreversible ones, once-confirmed ones of a deferred run, and gated
    * ones after outside content was read. */
  predicate NeedsApproval(w: World, tool: Tool, call: Call) {
    Irreversible(tool) || (tool.confirm == Once && call.deferred) || (tool.name in w.gated && call.tainted)
  }

  predicate SaysNo(v: ToolRunner.Verdict) {
    match v
    case Allow => false
    case Transform => false
    case Deny(_) => true
    case RequireApproval(_) => true
  }

  predicate Recorded(r: PreReply) {
    r.decisionRow.Some? || r.contextRow.Some?
  }

  /** The tool's own code runs exactly when, under a kernel, the audit key is there and PRE_TOOL_USE does not say no,
    * and has a record of what cannot be undone; and when it needs an approval there is a kernel, and the call carries
    * one. */
  lemma RunsIff(s: Setting, log: Log, id: Id, tool: Tool, args: Args, call: Call)
    ensures var pre := s.world.pre(log, id, tool, args, call);
      Execution(s, log, id, tool, args, call).outcome.status == HasRun
      <==> && (s.governed ==> s.world.key(log) && !SaysNo(pre.verdict) && (Irreversible(tool) ==> Recorded(pre)))
           && (NeedsApproval(s.world, tool, call) ==> s.governed && call.approvedBy.Some?)
  {
  }

  /** A call that needs an approval and has none is turned back at once when nothing could be proposed of it. */
  predicate NotProposable(s: Setting, log: Log, tool: Tool, args: Args, call: Call) {
    && NeedsApproval(s.world, tool, call) && call.approvedBy.None? && (s.resumable || call.deferred)
    && s.world.problem(log, tool, args).Some?
  }

  /** It is held exactly when PRE_TOOL_USE was asked and said no, or made no record of what cannot be undone; and then
    * under its verdict, or for the missing record. */
  lemma HeldIff(s: Setting, log: Log, id: Id, tool: Tool, args: Args, call: Call)
    ensures var pre := s.world.pre(log, id, tool, args, call);
      var o := Execution(s, log, id, tool, args, call).outcome;
      && (o.status == Held
          <==> && s.governed && s.world.key(log) && !NotProposable(s, log, tool, args, call)
               && (SaysNo(pre.verdict) || (Irreversible(tool) && call.approvedBy.Some? && !Recorded(pre))))
      && (o.status == Held ==> o.verdict == Some(if SaysNo(pre.verdict) then pre.verdict else Deny(NO_PRE_RECORD)))
      && (o.status != Held ==> o.verdict.None?)
  {
  }

  function RefusalOf(tool: Tool): string {
    "Refused: " + match tool.effect
                  case Destructive => tool.name + " deletes or overwrites the user's data"
                  case _ => "each " + tool.name + " call needs the owner's approval"
  }

  /** Whatever was not run is not ok, has no effect and leaves the label as it was; and nothing at all is logged of it
    * when there is no kernel, no key, or nothing to propose. */
  lemma NotRun(s: Setting, log: Log, id: Id, tool: Tool, args: Args, call: Call)
    requires Execution(s, log, id, tool, args, call).outcome.status != HasRun
    ensures var a := Execution(s, log, id, tool, args, call);
      && !a.outcome.ok && a.outcome.level == call.level && a.outcome.post.None? && a.effects == []
      && (a.events == [] <==> !s.governed || !s.world.key(log) || NotProposable(s, log, tool, args, call))
      && (a.events == [] <==> a.outcome.id.None?)
      && (a.events != [] ==> a.outcome.id == Some(id))
      && (a.events == [] ==> a.outcome.text == if s.governed && !s.world.key(log) then NO_KEY
                                               else if s.governed then s.world.problem(log, tool, args).value
                                               else RefusalOf(tool))
      && (a.outcome.status == Held ==> a.outcome.text == "")
      && (a.events != [] && a.outcome.status == TurnedBack ==> a.outcome.text == RefusalOf(tool))
  {
    hide RefusedText, RefusalOf;
    RefusalIsSaid(tool);
  }

  lemma RefusalIsSaid(tool: Tool)
    ensures RefusedText(tool) == RefusalOf(tool)
  {
    if tool.effect != Destructive {
      assert RefusalOf(tool) == "Refused: " + ("each " + tool.name + " call needs the owner's approval");
    }
  }

  /** A call that was asked about and not run is judged as not run exactly when PRE_TOOL_USE said no to it and left its
    * row on the context. */
  lemma UnrunIsSettled(s: Setting, log: Log, id: Id, tool: Tool, args: Args, call: Call)
    requires Execution(s, log, id, tool, args, call).outcome.status != HasRun
    requires Execution(s, log, id, tool, args, call).events != []
    ensures var pre := s.world.pre(log, id, tool, args, call);
      var asked := [Asked(id, tool, args, call, pre)];
      var unrun := Judged(id, tool, "", Some("NotRun"), s.world.post(log + asked, id, tool, "", Some("NotRun"), call));
      Execution(s, log, id, tool, args, call).events
      == if SaysNo(pre.verdict) && pre.contextRow.Some? then asked + [unrun] else asked
  {
  }

  // ---- What the tool gave is what is judged -------------------------------------------------------------------

  /** What a tool gave, as text, and as an error if it was one. */
  function Observation(b: Body): (string, Option<string>) {
    match b
    case Returned(text) => (text, None)
    case Reported(text) => (text, Some("ToolReportedError"))
    case Failed(message, cause) => (message, Some(cause))
    case Raised(message, cause) => ("Tool error: " + message, Some(cause))
  }

  /** A result is withheld when POST_TOOL_USE says no to it, or leaves no text. */
  predicate Withheld(r: PostReply) {
    SaysNo(r.verdict) || r.result.None?
  }

  /** The arguments PRE_TOOL_USE left, or those of the call. */
  function ArgsLeft(args: Args, pre: PreReply): Args {
    match pre.args
    case Some(left) => left
    case None => args
  }

  /** Under a kernel a call that runs is asked about, runs on the arguments left, and what it gave is judged, text and
    * error, as it gave it; the outcome is what the judgement leaves of it, and is ok exactly when the tool gave it
    * without error and it is not withheld. */
  lemma ResultIsJudged(s: Setting, log: Log, id: Id, tool: Tool, args: Args, call: Call)
    requires s.governed && Execution(s, log, id, tool, args, call).outcome.status == HasRun
    ensures var pre := s.world.pre(log, id, tool, args, call);
      var left := ArgsLeft(args, pre);
      var ran := [Asked(id, tool, args, call, pre), Ran(id, tool, left, call)];
      var (text, error) := Observation(s.world.body(log + ran, tool, left));
      var after := s.world.post(log + ran, id, tool, text, error, call);
      var a := Execution(s, log, id, tool, args, call);
      && a.events == ran + [Judged(id, tool, text, error, after)]
      && a.outcome.ok == (error.None? && !Withheld(after)) && a.outcome.id == Some(id)
      && (!Withheld(after) ==> a.outcome.text == after.result.value)
      && a.outcome.post == Some(PostOutcome(a.outcome.level, a.outcome.text, Withheld(after)))
      && a.effects == (if tool.effect == Read then [] else [tool.effect])
  {
    var pre := s.world.pre(log, id, tool, args, call);
    var left := ArgsLeft(args, pre);
    assert [Asked(id, tool, args, call, pre)] + [] == [Asked(id, tool, args, call, pre)];
    assert [Asked(id, tool, args, call, pre)] + [Ran(id, tool, left, call)]
        == [Asked(id, tool, args, call, pre), Ran(id, tool, left, call)];
  }

  /** Without one it runs unasked, and is handed on as it is. */
  lemma ResultUnjudged(s: Setting, log: Log, id: Id, tool: Tool, args: Args, call: Call)
    requires !s.governed && Execution(s, log, id, tool, args, call).outcome.status == HasRun
    ensures var ran := [Ran(id, tool, args, call)];
      var (text, error) := Observation(s.world.body(log + ran, tool, args));
      var a := Execution(s, log, id, tool, args, call);
      && a.events == ran && a.outcome.text == text && a.outcome.ok == error.None? && a.outcome.level == call.level
      && a.effects == (if tool.effect == Read then [] else [tool.effect])
  {
    assert [] + [Ran(id, tool, args, call)] == [Ran(id, tool, args, call)];
  }

  /** What a caller is told of a withheld result says whether it was blocked or needs approval, and why. */
  lemma WithheldText(s: Setting, log: Log, id: Id, tool: Tool, observation: string, error: Option<string>, call: Call)
    requires s.governed
    ensures var after := s.world.post(log, id, tool, observation, error, call);
      var post := Judging(s, log, id, tool, observation, error, call).1;
      && post.withheld == Withheld(after)
      && post.text == (match after.verdict
                       case Deny(why) => "Request " + "blocked" + " by governance: " + why
                       case RequireApproval(why) => "Request " + "needs approval" + " by governance: " + why
                       case _ => if after.result.Some? then after.result.value
                                 else "Request " + "blocked" + " by governance: " + NOT_TEXT)
  {
    hide MoreRestrictive;
  }

  // ---- Over runs ----------------------------------------------------------------------------------------------

  /** Where a tool's code ran, the next event is the judgement of what it gave there. */
  ghost predicate JudgedNext(w: World, log: Log, i: nat)
    requires i < |log| && log[i].Ran?
  {
    var e := log[i];
    var (text, error) := Observation(w.body(log[..i + 1], e.tool, e.args));
    && i + 1 < |log|
    && log[i + 1] == Judged(e.id, e.tool, text, error, w.post(log[..i + 1], e.id, e.tool, text, error, e.call))
  }

  ghost predicate AllJudged(w: World, log: Log) {
    forall i | 0 <= i < |log| && log[i].Ran? :: JudgedNext(w, log, i)
  }

  lemma CallIsJudged(s: Setting, p: Progress, r: Request)
    requires s.governed && AllJudged(s.world, p.log)
    ensures AllJudged(s.world, After(s, p, r).log)
  {
    var call := r.call.(level := p.level);
    var a := Execution(s, p.log, p.nextId, r.tool, r.args, call);
    var log := p.log + a.events;
    if a.outcome.status == HasRun {
      ResultIsJudged(s, p.log, p.nextId, r.tool, r.args, call);
    } else {
      NothingRan(s, p.log, p.nextId, r.tool, r.args, call);
    }
    hide Execution, Observation;
    forall i | 0 <= i < |log| && log[i].Ran?
      ensures JudgedNext(s.world, log, i)
    {
      if i < |p.log| {
        assert log[..i + 1] == p.log[..i + 1];
        assert JudgedNext(s.world, p.log, i);
      } else {
        assert log[i] == a.events[i - |p.log|];
        assert log[..i + 1] == p.log + a.events[..2];
      }
    }
  }

  lemma NothingRan(s: Setting, log: Log, id: Id, tool: Tool, args: Args, call: Call)
    requires Execution(s, log, id, tool, args, call).outcome.status != HasRun
    ensures forall e <- Execution(s, log, id, tool, args, call).events :: !e.Ran?
  {
  }

  lemma {:induction false} RunIsJudgedFrom(s: Setting, p: Progress, rs: seq<Request>)
    requires s.governed && AllJudged(s.world, p.log)
    ensures AllJudged(s.world, Calls(s, p, rs).log)
    decreases |rs|
  {
    if rs != [] {
      CallIsJudged(s, p, rs[0]);
      hide AllJudged, Execution;
      RunIsJudgedFrom(s, After(s, p, rs[0]), rs[1..]);
    }
  }

  /** In any run under a kernel, whatever a tool gave, text and error, is what POST_TOOL_USE is asked about, at once. */
  lemma RunIsJudged(s: Setting, level: Option<Label>, rs: seq<Request>)
    requires s.governed
    ensures AllJudged(s.world, Calls(s, Begun(level), rs).log)
  {
    RunIsJudgedFrom(s, Begun(level), rs);
  }
}
