/** What the governed runner keeps over any sequence of calls, whatever the kernel and the tools do. */
module ToolLaws {
  import opened Records
  import opened ToolRunner

  datatype Request = Request(tool: Tool, args: Args, call: Call)

  /** A run between two calls; `level` is its label, which every call is made under. */
  datatype Progress = Progress(log: Log, nextId: Id, level: Option<Label>, effects: seq<Effect>)

  function Made(s: Setting, p: Progress, r: Request): Attempt {
    Execution(s, p.log, p.nextId, r.tool, r.args, r.call.(level := p.level))
  }

  function After(s: Setting, p: Progress, r: Request): Progress {
    var a := Made(s, p, r);
    Progress(p.log + a.events, p.nextId + 1, a.outcome.level, p.effects + a.effects)
  }

  function Calls(s: Setting, p: Progress, rs: seq<Request>): Progress
    decreases |rs|
  {
    if rs == [] then p else Calls(s, After(s, p, rs[0]), rs[1..])
  }

  /** The part of a log that belongs to one call. */
  function Of(log: Log, id: Id): Log {
    if log == [] then [] else Of(log[..|log| - 1], id) + (if log[|log| - 1].id == id then [log[|log| - 1]] else [])
  }

  lemma {:induction false} OfSum(a: Log, b: Log, id: Id)
    ensures Of(a + b, id) == Of(a, id) + Of(b, id)
  {
    if b == [] {
      assert a + b == a;
    } else {
      OfSum(a, b[..|b| - 1], id);
      assert (a + b)[..|a + b| - 1] == a + b[..|b| - 1];
    }
  }

  lemma {:induction false} OfOwn(es: Log, id: Id, other: Id)
    requires forall e <- es :: e.id == id
    ensures Of(es, other) == if other == id then es else []
  {
    if es != [] {
      assert es[|es| - 1] in es;
      OfOwn(es[..|es| - 1], id, other);
      assert es == es[..|es| - 1] + [es[|es| - 1]];
    }
  }

  // ---- The protocol of one call -------------------------------------------------------------------------------

  /** The whole life of a call that was asked about: either its code ran, once, on what PRE_TOOL_USE left, and was
    * judged once; or it did not run, and was judged as not run exactly when the final context carried its row. */
  predicate AskedLife(w: World, es: Log)
    requires |es| > 0 && es[0].Asked?
  {
    var a := es[0];
    if GoesOn(w, a.tool, a.call, a.before) then
      && |es| == 3
      && es[1] == Ran(a.id, a.tool, GivenArgs(a.args, a.before), a.call)
      && es[2].Judged? && es[2].tool == a.tool
    else if Refuses(a.before.verdict) && a.before.contextRow.Some? then
      && |es| == 2
      && es[1].Judged? && es[1].tool == a.tool && es[1].observation == "" && es[1].error == Some(NOT_RUN)
    else
      |es| == 1
  }

  /** What one call may leave in the log. Without a kernel only calls nobody has to approve run, unasked. */
  predicate Lawful(s: Setting, es: Log) {
    || es == []
    || (s.governed && es[0].Asked? && AskedLife(s.world, es))
    || (!s.governed && |es| == 1 && es[0].Ran? && !PerCall(s.world, es[0].tool, es[0].call))
  }

  ghost predicate Governed(s: Setting, p: Progress) {
    && (forall e <- p.log :: e.id < p.nextId)
    && (forall id: Id :: Lawful(s, Of(p.log, id)))
  }

  lemma ExecutionIsLawful(s: Setting, log: Log, id: Id, tool: Tool, args: Args, call: Call)
    ensures forall e <- Execution(s, log, id, tool, args, call).events :: e.id == id
    ensures Lawful(s, Execution(s, log, id, tool, args, call).events)
  {
  }

  lemma CallKeepsGoverned(s: Setting, p: Progress, r: Request)
    requires Governed(s, p)
    ensures Governed(s, After(s, p, r))
  {
    var es := Made(s, p, r).events;
    ExecutionIsLawful(s, p.log, p.nextId, r.tool, r.args, r.call.(level := p.level));
    hide Lawful, Execution;
    forall id: Id
      ensures Lawful(s, Of(p.log + es, id))
    {
      OfSum(p.log, es, id);
      OfOwn(es, p.nextId, id);
      if id == p.nextId {
        NeverSeen(p.log, id);
      }
      assert Of(p.log, id) + [] == Of(p.log, id);
      assert [] + es == es;
    }
  }

  lemma {:induction false} NeverSeen(log: Log, id: Id)
    requires forall e <- log :: e.id < id
    ensures Of(log, id) == []
  {
    if log != [] {
      assert log[|log| - 1] in log;
      NeverSeen(log[..|log| - 1], id);
    }
  }

  /** Over any run: every call left only what its protocol allows. */
  lemma {:induction false} RunIsGoverned(s: Setting, p: Progress, rs: seq<Request>)
    requires Governed(s, p)
    ensures Governed(s, Calls(s, p, rs))
    decreases |rs|
  {
    if rs != [] {
      CallKeepsGoverned(s, p, rs[0]);
      RunIsGoverned(s, After(s, p, rs[0]), rs[1..]);
    }
  }

  function Begun(level: Option<Label>): Progress {
    Progress([], 0, level, [])
  }

  lemma BegunIsGoverned(s: Setting, level: Option<Label>)
    ensures Governed(s, Begun(level))
  {
    assert forall id: Id :: Of([], id) == [];
  }

  // ---- Nothing runs unasked, unapproved or unrecorded ---------------------------------------------------------

  lemma {:induction false} OfSplit(log: Log, i: nat, id: Id)
    requires i < |log|
    ensures Of(log, id) == Of(log[..i], id) + Of([log[i]], id) + Of(log[i + 1..], id)
  {
    assert log == (log[..i] + [log[i]]) + log[i + 1..];
    OfSum(log[..i] + [log[i]], log[i + 1..], id);
    OfSum(log[..i], [log[i]], id);
  }

  lemma OfOne(e: Event)
    ensures Of([e], e.id) == [e]
  {
    assert [e][..0] == [];
  }

  lemma {:induction false} OfIsFrom(log: Log, e: Event, id: Id)
    requires e in Of(log, id)
    ensures exists j | 0 <= j < |log| :: log[j] == e
  {
    if log != [] {
      if e in Of(log[..|log| - 1], id) {
        OfIsFrom(log[..|log| - 1], e, id);
        var j :| 0 <= j < |log| - 1 && log[..|log| - 1][j] == e;
        assert log[j] == e;
      } else {
        assert log[|log| - 1] == e;
      }
    }
  }

  /** In any run under a kernel, whenever a tool's own code ran: PRE_TOOL_USE had been asked earlier about that very
    * call and did not refuse it, the code got the arguments PRE_TOOL_USE left, a call approved per call carried an
    * approval, and a high-risk one had its row. */
  lemma BodyWasAllowed(s: Setting, level: Option<Label>, rs: seq<Request>, i: nat) returns (j: nat)
    requires s.governed
    requires i < |Calls(s, Begun(level), rs).log| && Calls(s, Begun(level), rs).log[i].Ran?
    ensures j < i
    ensures var a, b := Calls(s, Begun(level), rs).log[j], Calls(s, Begun(level), rs).log[i];
      && a.Asked? && a.id == b.id && a.tool == b.tool && a.call == b.call
      && !Refuses(a.before.verdict)
      && b.args == GivenArgs(a.args, a.before)
      && (PerCall(s.world, b.tool, b.call) ==> b.call.approvedBy.Some?)
      && (HighRisk(b.tool) ==> Row(a.before).Some?)
  {
    BegunIsGoverned(s, level);
    RunIsGoverned(s, Begun(level), rs);
    var log := Calls(s, Begun(level), rs).log;
    var e := log[i];
    assert Lawful(s, Of(log, e.id));
    OfSplit(log, i, e.id);
    OfOne(e);
    var es, first := Of(log, e.id), Of(log[..i], e.id);
    assert es[|first|] == e;
    assert es[0].Asked? && |first| == 1;
    assert es[0] == first[0];
    OfIsFrom(log[..i], es[0], e.id);
    j :| 0 <= j < |log[..i]| && log[..i][j] == es[0];
  }

  /** What the log says PRE_TOOL_USE left of a call is what the kernel answered there and then. */
  ghost predicate Answered(w: World, log: Log) {
    forall i | 0 <= i < |log| && log[i].Asked? ::
      log[i].before == w.pre(log[..i], log[i].id, log[i].tool, log[i].args, log[i].call)
  }

  lemma CallIsAnswered(s: Setting, p: Progress, r: Request)
    requires Answered(s.world, p.log)
    ensures Answered(s.world, After(s, p, r).log)
  {
    var es := Made(s, p, r).events;
    var log := p.log + es;
    forall i | 0 <= i < |log| && log[i].Asked?
      ensures log[i].before == s.world.pre(log[..i], log[i].id, log[i].tool, log[i].args, log[i].call)
    {
      if i < |p.log| {
        assert log[..i] == p.log[..i] && log[i] == p.log[i];
      } else {
        assert es[0] == log[i] && i == |p.log| && log[..i] == p.log;
      }
    }
  }

  lemma {:induction false} RunIsAnswered(s: Setting, p: Progress, rs: seq<Request>)
    requires Answered(s.world, p.log)
    ensures Answered(s.world, Calls(s, p, rs).log)
    decreases |rs|
  {
    if rs != [] {
      CallIsAnswered(s, p, rs[0]);
      RunIsAnswered(s, After(s, p, rs[0]), rs[1..]);
    }
  }

  function Settlements(es: Log): nat {
    if es == [] then 0 else Settlements(es[..|es| - 1]) + (if es[|es| - 1].Judged? then 1 else 0)
  }

  lemma {:induction false} LifeSettlements(w: World, es: Log)
    requires |es| > 0 && es[0].Asked? && AskedLife(w, es)
    ensures var a := es[0];
      Settlements(es) == if || GoesOn(w, a.tool, a.call, a.before)
                            || (Refuses(a.before.verdict) && a.before.contextRow.Some?) then 1 else 0
  {
    if |es| == 3 {
      assert es[..2][..1][..0] == [];
      assert es[..2][1] == es[1] && es[..2][..1] == es[..1] && es[..1][0] == es[0];
      assert Settlements(es[..1]) == 0;
    } else if |es| == 2 {
      assert es[..1][..0] == [];
      assert es[..1][0] == es[0];
      assert Settlements(es[..1]) == 0;
    } else {
      assert es[..0] == [];
    }
  }

  /** Under any kernel at all a row written before a call is settled once or never, and it is never settled exactly when
    * PRE_TOOL_USE refused the call with the row named by its decision alone, or allowed a call that nobody had approved.
    * A chain of hooks does neither. */
  lemma RowIsSettledOnceIff(s: Setting, level: Option<Label>, rs: seq<Request>, i: nat)
    requires s.governed
    requires i < |Calls(s, Begun(level), rs).log|
    requires var a := Calls(s, Begun(level), rs).log[i]; a.Asked? && Row(a.before).Some?
    ensures var log := Calls(s, Begun(level), rs).log; var a := log[i];
      var forgotten := if Refuses(a.before.verdict) then a.before.contextRow.None?
                       else PerCall(s.world, a.tool, a.call) && a.call.approvedBy.None?;
      Settlements(Of(log, a.id)) == if forgotten then 0 else 1
  {
    BegunIsGoverned(s, level);
    RunIsGoverned(s, Begun(level), rs);
    var log := Calls(s, Begun(level), rs).log;
    var a := log[i];
    assert Lawful(s, Of(log, a.id));
    OfSplit(log, i, a.id);
    OfOne(a);
    var es, first := Of(log, a.id), Of(log[..i], a.id);
    assert es[|first|] == a;
    assert first == [];
    assert es[0] == a;
    LifeSettlements(s.world, es);
  }

  // ---- Nothing withheld is handed on --------------------------------------------------------------------------

  /** The same call, with the tool's own code answering anything else: as long as POST_TOOL_USE withholds both
    * results for the same reason, the caller is told the same thing. */
  lemma WithheldSaysNothing(s: Setting, log: Log, id: Id, tool: Tool, args: Args, call: Call,
                            other: (Log, Tool, Args) -> Body)
    requires var s' := s.(world := s.world.(body := other));
      var o, o' := Execution(s, log, id, tool, args, call).outcome, Execution(s', log, id, tool, args, call).outcome;
      o.post.Some? && o'.post.Some? && o.post.value.withheld && o'.post.value.withheld
    requires SameReply(s, s.(world := s.world.(body := other)), log, id, tool, args, call)
    ensures var s' := s.(world := s.world.(body := other));
      Execution(s, log, id, tool, args, call).outcome == Execution(s', log, id, tool, args, call).outcome
  {
    var s' := s.(world := s.world.(body := other));
    SameAsking(s, s', log, id, tool, args, call);
  }

  /** POST_TOOL_USE answered both attempts alike, but for the result it left. */
  predicate SameReply(s: Setting, s': Setting, log: Log, id: Id, tool: Tool, args: Args, call: Call) {
    var es, es' := Execution(s, log, id, tool, args, call).events, Execution(s', log, id, tool, args, call).events;
    && |es| > 0 && |es'| > 0 && es[|es| - 1].Judged? && es'[|es'| - 1].Judged?
    && var r, r' := es[|es| - 1].after, es'[|es'| - 1].after;
    && r.verdict == r'.verdict && r.level == r'.level
  }

  lemma SameAsking(s: Setting, s': Setting, log: Log, id: Id, tool: Tool, args: Args, call: Call)
    requires s' == s.(world := s.world.(body := s'.world.body))
    ensures Asking(s, log, id, tool, args, call) == Asking(s', log, id, tool, args, call)
    ensures Unasked(s, log, tool, args, call) == Unasked(s', log, tool, args, call)
  {
  }

  /** A result is handed on as it stands only when POST_TOOL_USE left it so: its verdict did not refuse, and the text
    * is the one it left. */
  lemma HandedOnIsJudged(s: Setting, log: Log, id: Id, tool: Tool, args: Args, call: Call)
    requires s.governed
    requires Execution(s, log, id, tool, args, call).outcome.ok
    ensures var a := Execution(s, log, id, tool, args, call);
      && a.outcome.status == HasRun && |a.events| == 3 && a.events[2].Judged?
      && a.events[2].error.None? && !Refuses(a.events[2].after.verdict)
      && a.events[2].after.result == Some(a.outcome.text)
  {
  }

  // ---- The label never falls ----------------------------------------------------------------------------------

  lemma MoreRestrictiveIsTheJoin(a: Option<Label>, b: Option<Label>, c: Option<Label>)
    ensures Rank(MoreRestrictive(a, b)) == if Rank(a) >= Rank(b) then Rank(a) else Rank(b)
    ensures MoreRestrictive(a, b) == MoreRestrictive(b, a)
    ensures MoreRestrictive(a, MoreRestrictive(b, c)) == MoreRestrictive(MoreRestrictive(a, b), c)
    ensures Rank(a) == Rank(b) ==> a == b
  {
  }

  /** A label that a result earned: the one POST_TOOL_USE left on a call whose code had run. */
  ghost predicate Earned(es: Log, l: Option<Label>) {
    exists i :: 0 < i < |es| && es[i - 1].Ran? && es[i].Judged? && es[i].after.level == l
  }

  /** After any run the label is the most restrictive of the label before it and of those its results earned: it is
    * no lower than any of these, and it is one of them. */
  lemma {:induction false} LabelNeverFalls(s: Setting, p: Progress, rs: seq<Request>)
    ensures var q := Calls(s, p, rs);
      && |q.log| >= |p.log| && q.log[..|p.log|] == p.log
      && Rank(p.level) <= Rank(q.level)
      && (forall l :: Earned(q.log[|p.log|..], l) ==> Rank(l) <= Rank(q.level))
      && (q.level == p.level || Earned(q.log[|p.log|..], q.level))
    decreases |rs|
  {
    hide Execution, Earned, Rank;
    if rs == [] {
      NothingEarned(p.log[|p.log|..]);
    } else {
      var m, q := After(s, p, rs[0]), Calls(s, p, rs);
      OneCallLabel(s, p, rs[0]);
      LabelNeverFalls(s, m, rs[1..]);
      hide Calls;
      LogGrows(p.log, Made(s, p, rs[0]).events, q.log);
      NextCallStartsAnew(s, m, rs[1..], q.log[|m.log|..]);
      LabelsJoin(Made(s, p, rs[0]).events, q.log[|m.log|..], p.level, m.level, q.level);
    }
  }

  lemma NothingEarned(es: Log)
    requires es == []
    ensures forall l :: !Earned(es, l)
  {
  }

  lemma LogGrows(log: Log, es: Log, all: Log)
    requires |all| >= |log + es| && all[..|log + es|] == log + es
    ensures |all| >= |log| && all[..|log|] == log
    ensures all[|log|..] == es + all[|log + es|..]
  {
    assert all[..|log|] == all[..|log + es|][..|log|];
  }

  /** The label over two stretches of a log, from the label over each. */
  lemma LabelsJoin(es: Log, rest: Log, a: Option<Label>, b: Option<Label>, c: Option<Label>)
    requires es == [] || !es[|es| - 1].Ran? || rest == [] || !rest[0].Judged?
    requires Rank(a) <= Rank(b) <= Rank(c)
    requires forall l :: Earned(es, l) ==> Rank(l) <= Rank(b)
    requires forall l :: Earned(rest, l) ==> Rank(l) <= Rank(c)
    requires b == a || Earned(es, b)
    requires c == b || Earned(rest, c)
    ensures forall l :: Earned(es + rest, l) ==> Rank(l) <= Rank(c)
    ensures c == a || Earned(es + rest, c)
  {
    hide Earned, Rank;
    forall l | Earned(es + rest, l)
      ensures Rank(l) <= Rank(c)
    {
      EarnedSplit(es, rest, l);
    }
    if c != a {
      EarnedJoins(es, rest, c);
    }
  }

  lemma EarnedSplit(es: Log, rest: Log, l: Option<Label>)
    requires Earned(es + rest, l)
    requires es == [] || !es[|es| - 1].Ran? || rest == [] || !rest[0].Judged?
    ensures Earned(es, l) || Earned(rest, l)
  {
    var i :| 0 < i < |es + rest| && (es + rest)[i - 1].Ran? && (es + rest)[i].Judged? && (es + rest)[i].after.level == l;
    if i < |es| {
      assert es[i - 1].Ran? && es[i].Judged?;
    } else if i > |es| {
      assert rest[i - |es| - 1].Ran? && rest[i - |es|].Judged?;
    }
  }

  lemma EarnedJoins(es: Log, rest: Log, l: Option<Label>)
    requires Earned(es, l) || Earned(rest, l)
    ensures Earned(es + rest, l)
  {
    if Earned(es, l) {
      var i :| 0 < i < |es| && es[i - 1].Ran? && es[i].Judged? && es[i].after.level == l;
      assert (es + rest)[i - 1].Ran? && (es + rest)[i].Judged? && (es + rest)[i].after.level == l;
    } else {
      var i :| 0 < i < |rest| && rest[i - 1].Ran? && rest[i].Judged? && rest[i].after.level == l;
      var k := i + |es|;
      assert (es + rest)[k - 1].Ran? && (es + rest)[k].Judged? && (es + rest)[k].after.level == l;
    }
  }

  lemma OneCallLabel(s: Setting, p: Progress, r: Request)
    ensures var q := After(s, p, r); var es := Made(s, p, r).events;
      && Rank(p.level) <= Rank(q.level)
      && (forall l :: Earned(es, l) ==> Rank(l) <= Rank(q.level))
      && (q.level == p.level || Earned(es, q.level))
      && (es != [] ==> !es[0].Judged?)
  {
    var es, q := Made(s, p, r).events, After(s, p, r);
    if |es| == 3 {
      assert es[1].Ran? && es[2].Judged?;
      assert q.level == MoreRestrictive(p.level, es[2].after.level);
    }
  }

  lemma {:induction false} NextCallStartsAnew(s: Setting, p: Progress, rs: seq<Request>, rest: Log)
    requires Calls(s, p, rs).log == p.log + rest
    ensures rest == [] || !rest[0].Judged?
    decreases |rs|
  {
    hide Execution, Earned, Rank;
    if rs == [] {
      SameTail(p.log, rest, []);
    } else {
      var m := After(s, p, rs[0]);
      var es := Made(s, p, rs[0]).events;
      OneCallLabel(s, p, rs[0]);
      LabelNeverFallsPrefix(s, m, rs[1..]);
      var all := Calls(s, p, rs).log;
      hide Calls;
      LogGrows(p.log, es, all);
      var more := all[|m.log|..];
      SameTail(p.log, rest, es + more);
      if es == [] {
        NextCallStartsAnew(s, m, rs[1..], more);
      }
    }
  }

  lemma SameTail(a: Log, b: Log, c: Log)
    requires a + b == a + c
    ensures b == c
  {
    assert (a + b)[|a|..] == b && (a + c)[|a|..] == c;
  }

  lemma {:induction false} LabelNeverFallsPrefix(s: Setting, p: Progress, rs: seq<Request>)
    ensures |Calls(s, p, rs).log| >= |p.log| && Calls(s, p, rs).log[..|p.log|] == p.log
    decreases |rs|
  {
    if rs != [] {
      LabelNeverFallsPrefix(s, After(s, p, rs[0]), rs[1..]);
      assert Calls(s, p, rs).log[..|p.log|] == After(s, p, rs[0]).log[..|p.log|];
    }
  }

  // ---- Effects are on record ----------------------------------------------------------------------------------

  /** The effects of the calls whose own code was started, reads left out, in the order they were started. */
  function Started(log: Log): seq<Effect> {
    if log == [] then []
    else Started(log[..|log| - 1]) +
         (if log[|log| - 1].Ran? && log[|log| - 1].tool.effect != Read then [log[|log| - 1].tool.effect] else [])
  }

  lemma {:induction false} StartedSum(a: Log, b: Log)
    ensures Started(a + b) == Started(a) + Started(b)
  {
    if b == [] {
      assert a + b == a;
    } else {
      StartedSum(a, b[..|b| - 1]);
      assert (a + b)[..|a + b| - 1] == a + b[..|b| - 1];
    }
  }

  lemma ExecutionEffects(s: Setting, log: Log, id: Id, tool: Tool, args: Args, call: Call)
    ensures Started(Execution(s, log, id, tool, args, call).events) == Execution(s, log, id, tool, args, call).effects
  {
    var es := Execution(s, log, id, tool, args, call).events;
    if |es| == 3 {
      assert es == [es[0]] + [es[1]] + [es[2]];
      StartedSum([es[0]] + [es[1]], [es[2]]);
      StartedSum([es[0]], [es[1]]);
    } else if |es| == 2 {
      assert es == [es[0]] + [es[1]];
      StartedSum([es[0]], [es[1]]);
    }
  }

  /** What a run reports as done is exactly what its tools were started for, even those that then failed or whose
    * results were withheld. */
  lemma {:induction false} EffectsAreOnRecord(s: Setting, p: Progress, rs: seq<Request>)
    requires p.effects == Started(p.log)
    ensures Calls(s, p, rs).effects == Started(Calls(s, p, rs).log)
    decreases |rs|
  {
    if rs != [] {
      ExecutionEffects(s, p.log, p.nextId, rs[0].tool, rs[0].args, rs[0].call.(level := p.level));
      StartedSum(p.log, Made(s, p, rs[0]).events);
      EffectsAreOnRecord(s, After(s, p, rs[0]), rs[1..]);
    }
  }
}
