/** A run that waited for the owner's approval of pinned calls, when it is taken up again. */
module Approvals {
  import opened Records
  import opened ToolRunner
  import opened ToolLaws

  datatype Item = Item(tool: string, args: Args)

  datatype Answer = Approved | Rejected | Settled(status: string)

  /** The approval row as read back; absent when there is no reader or no such row. */
  type Reading = Option<(Answer, seq<Item>)>

  /** The resumed run so far: `floor` is the label its results earned, `results` what became of each pinned call. */
  datatype Resumed = Resumed(log: Log, nextId: Id, level: Option<Label>, floor: Option<Label>, effects: seq<Effect>,
    results: seq<Option<ToolOutcome>>)

  function Claim(level: Option<Label>, approval: Id, tainted: bool): Call {
    Call(level, Some(approval), false, tainted)
  }

  function RunItem(s: Setting, tools: map<string, Tool>, approval: Id, tainted: bool, r: Resumed, item: Item): Resumed {
    if item.tool !in tools
    then r.(floor := MoreRestrictive(r.floor, r.level), results := r.results + [None])
    else
      var a := Execution(s, r.log, r.nextId, tools[item.tool], item.args, Claim(r.level, approval, tainted));
      Resumed(r.log + a.events, r.nextId + 1, if r.level.Some? then a.outcome.level else None,
              MoreRestrictive(r.floor, a.outcome.level), r.effects + a.effects, r.results + [Some(a.outcome)])
  }

  function RunItems(s: Setting, tools: map<string, Tool>, approval: Id, tainted: bool, r: Resumed, items: seq<Item>)
    : (r': Resumed)
    ensures items == [] ==> r' == r
  {
    if items == [] then r
    else RunItem(s, tools, approval, tainted, RunItems(s, tools, approval, tainted, r, items[..|items| - 1]),
                 items[|items| - 1])
  }

  class ResumedRun {
    const runner: GovernedToolRunner
    const tools: map<string, Tool>
    var level: Option<Label>
    var floor: Option<Label>
    var effects: seq<Effect>

    constructor (runner: GovernedToolRunner, tools: map<string, Tool>, level: Option<Label>)
      ensures this.runner == runner && this.tools == tools && this.level == level && floor == None && effects == []
    {
      this.runner, this.tools, this.level := runner, tools, level;
      floor, effects := None, [];
    }

    ghost function Now(results: seq<Option<ToolOutcome>>): Resumed
      reads this, runner
    {
      Resumed(runner.log, runner.nextId, level, floor, effects, results)
    }

    method ExecuteTool(item: Item, call: Call) returns (outcome: Option<ToolOutcome>)
      modifies this`effects, runner
      ensures if item.tool !in tools
              then outcome.None? && effects == old(effects) && runner.log == old(runner.log)
                   && runner.nextId == old(runner.nextId)
              else var a := Execution(runner.setting, old(runner.log), old(runner.nextId), tools[item.tool], item.args,
                                      call);
                   outcome == Some(a.outcome) && runner.log == old(runner.log) + a.events
                   && runner.nextId == old(runner.nextId) + 1 && effects == old(effects) + a.effects
    {
      if item.tool !in tools {
        return None;
      }
      var o;
      o, effects := runner.Execute(tools[item.tool], item.args, call, effects);
      return Some(o);
    }

    /** Runs exactly the pinned calls, in order, when the owner approved them; otherwise runs nothing. */
    method SettlePendingApproval(approval: Id, reading: Reading, tainted: bool)
      returns (results: seq<Option<ToolOutcome>>)
      modifies this, runner
      ensures Now(results)
           == if reading.Some? && reading.value.0.Approved?
              then RunItems(runner.setting, tools, approval, tainted, old(Now([])), reading.value.1)
              else old(Now([]))
    {
      results := [];
      if reading.None? {
        return;
      }
      var (answer, items) := reading.value;
      if answer.Approved? {
        for k := 0 to |items|
          invariant Now(results) == RunItems(runner.setting, tools, approval, tainted, old(Now([])), items[..k])
        {
          var outcome := ExecuteTool(items[k], Claim(level, approval, tainted));
          results := results + [outcome];
          var earned := if outcome.Some? then outcome.value.level else level;
          floor := MoreRestrictive(floor, earned);
          if level.Some? {
            level := earned;
          }
          assert items[..k + 1][..k] == items[..k];
        }
        assert items[..|items|] == items;
      }
    }
  }

  // ---- What reaches the runner --------------------------------------------------------------------------------

  /** The calls PRE_TOOL_USE was asked about, with the approval each claimed. */
  function AskedFor(log: Log): seq<(Tool, Args, Option<Id>)> {
    if log == [] then []
    else AskedFor(log[..|log| - 1]) +
         (var e := log[|log| - 1]; if e.Asked? then [(e.tool, e.args, e.call.approvedBy)] else [])
  }

  lemma {:induction false} AskedForSum(a: Log, b: Log)
    ensures AskedFor(a + b) == AskedFor(a) + AskedFor(b)
  {
    if b == [] {
      assert a + b == a;
    } else {
      AskedForSum(a, b[..|b| - 1]);
      assert (a + b)[..|a + b| - 1] == a + b[..|b| - 1];
    }
  }

  /** The pinned calls whose tool is known, each claiming the approval. */
  function Pinned(tools: map<string, Tool>, approval: Id, items: seq<Item>): seq<(Tool, Args, Option<Id>)> {
    if items == [] then []
    else Pinned(tools, approval, items[..|items| - 1]) +
         (var i := items[|items| - 1]; if i.tool in tools then [(tools[i.tool], i.args, Some(approval))] else [])
  }

  lemma OneAsked(s: Setting, log: Log, id: Id, tool: Tool, args: Args, call: Call)
    requires s.governed && s.world.key(log) && call.approvedBy.Some?
    ensures AskedFor(Execution(s, log, id, tool, args, call).events) == [(tool, args, call.approvedBy)]
  {
    var es := Execution(s, log, id, tool, args, call).events;
    ExecutionIsLawful(s, log, id, tool, args, call);
    assert es[0].Asked? && es[0].tool == tool && es[0].args == args && es[0].call == call;
    assert es == [es[0]] + es[1..];
    AskedForSum([es[0]], es[1..]);
    assert AskedFor([es[0]]) == [(tool, args, call.approvedBy)] by {
      assert [es[0]][..0] == [];
    }
    NoneAsked(es[1..]);
  }

  lemma {:induction false} NoneAsked(log: Log)
    requires forall e <- log :: !e.Asked?
    ensures AskedFor(log) == []
  {
    if log != [] {
      NoneAsked(log[..|log| - 1]);
    }
  }

  /** Under a kernel, with the audit key at hand, an approved resume asks PRE_TOOL_USE about exactly the pinned calls
    * whose tool is known: each once, in the order pinned, with the arguments pinned, claiming that approval. */
  lemma {:induction false} ApprovedCallsAreAskedInOrder(s: Setting, tools: map<string, Tool>, approval: Id,
                                                        tainted: bool, r: Resumed, items: seq<Item>)
    requires s.governed && (forall log :: s.world.key(log))
    ensures var r' := RunItems(s, tools, approval, tainted, r, items);
      && AskedFor(r'.log) == AskedFor(r.log) + Pinned(tools, approval, items)
      && |r'.results| == |r.results| + |items|
  {
    if items == [] {
      assert AskedFor(r.log) + [] == AskedFor(r.log);
    } else {
      var front, last := items[..|items| - 1], items[|items| - 1];
      ApprovedCallsAreAskedInOrder(s, tools, approval, tainted, r, front);
      var m := RunItems(s, tools, approval, tainted, r, front);
      if last.tool in tools {
        var call := Claim(m.level, approval, tainted);
        OneAsked(s, m.log, m.nextId, tools[last.tool], last.args, call);
        AskedForSum(m.log, Execution(s, m.log, m.nextId, tools[last.tool], last.args, call).events);
      }
    }
  }

  lemma LevelOnlyRises(s: Setting, log: Log, id: Id, tool: Tool, args: Args, call: Call)
    ensures Rank(Execution(s, log, id, tool, args, call).outcome.level) >= Rank(call.level)
  {
  }

  /** A resume lowers neither the run's label nor the floor its results earned, the floor ends no lower than any label
    * a result came back with, and a label nobody set stays unset. */
  lemma {:induction false} FloorCoversEveryResult(s: Setting, tools: map<string, Tool>, approval: Id, tainted: bool,
                                                  r: Resumed, items: seq<Item>)
    ensures var r' := RunItems(s, tools, approval, tainted, r, items);
      && Rank(r.level) <= Rank(r'.level) && Rank(r.floor) <= Rank(r'.floor)
      && (r.level.None? <==> r'.level.None?)
      && |r'.results| == |r.results| + |items|
      && (forall k :: |r.results| <= k < |r'.results| && r'.results[k].Some? ==>
            Rank(r'.results[k].value.level) <= Rank(r'.floor))
  {
    if items != [] {
      var front, last := items[..|items| - 1], items[|items| - 1];
      FloorCoversEveryResult(s, tools, approval, tainted, r, front);
      var m := RunItems(s, tools, approval, tainted, r, front);
      if last.tool in tools {
        LevelOnlyRises(s, m.log, m.nextId, tools[last.tool], last.args, Claim(m.level, approval, tainted));
      }
    }
  }

  // ---- What comes of the pinned calls -------------------------------------------------------------------------

  /** Known tools among the first items. */
  function Known(tools: map<string, Tool>, items: seq<Item>): nat {
    if items == [] then 0 else Known(tools, items[..|items| - 1]) + if items[|items| - 1].tool in tools then 1 else 0
  }

  /** Each pinned call has one result, none when its tool is unknown; the calls have ids of their own, in order. */
  ghost predicate ResultsOf(tools: map<string, Tool>, r: Resumed, items: seq<Item>, r': Resumed) {
    && r'.nextId == r.nextId + Known(tools, items)
    && |r'.results| == |r.results| + |items|
    && r'.results[..|r.results|] == r.results
    && forall k :: 0 <= k < |items| ==> IsResult(tools, r, items, k, r'.results)
  }

  predicate IsResult(tools: map<string, Tool>, r: Resumed, items: seq<Item>, k: nat,
                     results: seq<Option<ToolOutcome>>)
    requires k < |items| && |r.results| + k < |results|
  {
    var result := results[|r.results| + k];
    && (result.None? <==> items[k].tool !in tools)
    && (result.Some? && result.value.id.Some? ==> result.value.id.value == r.nextId + Known(tools, items[..k]))
  }

  lemma {:induction false} ResultsAreOfItems(s: Setting, tools: map<string, Tool>, approval: Id, tainted: bool,
                                             r: Resumed, items: seq<Item>)
    ensures ResultsOf(tools, r, items, RunItems(s, tools, approval, tainted, r, items))
  {
    hide Execution;
    if items != [] {
      var n := |items| - 1;
      var m := RunItems(s, tools, approval, tainted, r, items[..n]);
      ResultsAreOfItems(s, tools, approval, tainted, r, items[..n]);
      if items[n].tool in tools {
        CallsKeepTheirId(s, m.log, m.nextId, tools[items[n].tool], items[n].args, Claim(m.level, approval, tainted));
      }
      OneMoreResult(tools, r, items, m, RunItems(s, tools, approval, tainted, r, items));
    }
  }

  lemma OneMoreResult(tools: map<string, Tool>, r: Resumed, items: seq<Item>, m: Resumed, r': Resumed)
    requires items != [] && ResultsOf(tools, r, items[..|items| - 1], m)
    requires var last := items[|items| - 1];
      && r'.nextId == m.nextId + (if last.tool in tools then 1 else 0)
      && |r'.results| == |m.results| + 1 && r'.results[..|m.results|] == m.results
      && (r'.results[|m.results|].None? <==> last.tool !in tools)
      && (r'.results[|m.results|].Some? && r'.results[|m.results|].value.id.Some? ==>
            r'.results[|m.results|].value.id.value == m.nextId)
    ensures ResultsOf(tools, r, items, r')
  {
    var n := |items| - 1;
    forall k | 0 <= k < |items|
      ensures IsResult(tools, r, items, k, r'.results)
    {
      if k < n {
        assert items[..n][..k] == items[..k];
        assert IsResult(tools, r, items[..n], k, m.results);
        assert r'.results[|r.results| + k] == r'.results[..|m.results|][|r.results| + k];
      }
    }
    assert r'.results[..|r.results|] == r'.results[..|m.results|][..|r.results|];
  }

  lemma CallsKeepTheirId(s: Setting, log: Log, id: Id, tool: Tool, args: Args, call: Call)
    ensures var o := Execution(s, log, id, tool, args, call).outcome;
            o.id.Some? ==> o.id == Some(id)
    ensures forall e <- Execution(s, log, id, tool, args, call).events ::
              e.id == id && (e.Asked? || e.Ran? ==> e.call == call)
  {
  }

  /** Every call made since claims the approval and says whether outside content was read; none is made as a deferred
    * one, and each carries a label exactly when the run had one. */
  ghost predicate Claiming(approval: Id, tainted: bool, r: Resumed, log: Log) {
    forall i :: |r.log| <= i < |log| && (log[i].Asked? || log[i].Ran?) ==>
      && log[i].call.approvedBy == Some(approval) && !log[i].call.deferred && log[i].call.tainted == tainted
      && (log[i].call.level.None? <==> r.level.None?)
  }

  lemma {:induction false} CallsClaimTheApproval(s: Setting, tools: map<string, Tool>, approval: Id, tainted: bool,
                                                 r: Resumed, items: seq<Item>)
    ensures var r' := RunItems(s, tools, approval, tainted, r, items);
      r.log <= r'.log && Claiming(approval, tainted, r, r'.log)
  {
    hide Execution;
    if items != [] {
      var front, last := items[..|items| - 1], items[|items| - 1];
      CallsClaimTheApproval(s, tools, approval, tainted, r, front);
      FloorCoversEveryResult(s, tools, approval, tainted, r, front);
      var m := RunItems(s, tools, approval, tainted, r, front);
      if last.tool in tools {
        CallsKeepTheirId(s, m.log, m.nextId, tools[last.tool], last.args, Claim(m.level, approval, tainted));
      }
    }
  }

  /** The label a call was made under, or of what came back. */
  ghost predicate Earned(r: Resumed, r': Resumed, earned: Option<Label>) {
    || earned == r.level
    || exists k :: |r.results| <= k < |r'.results| && r'.results[k].Some? && r'.results[k].value.level == earned
  }

  /** The floor is no higher than it must be: it is what it was, or the run's label, or the label of a result; and a
    * label that was set is that of the last result, covering them all. */
  lemma {:induction false} FloorIsEarned(s: Setting, tools: map<string, Tool>, approval: Id, tainted: bool,
                                         r: Resumed, items: seq<Item>)
    ensures var r' := RunItems(s, tools, approval, tainted, r, items);
      && |r'.results| >= |r.results|
      && (r'.floor == r.floor || Earned(r, r', r'.floor))
      && (r.level.Some? ==> Earned(r, r', r'.level))
      && (r.level.Some? ==> forall k :: |r.results| <= k < |r'.results| && r'.results[k].Some? ==>
            Rank(r'.results[k].value.level) <= Rank(r'.level))
  {
    hide Execution;
    if items != [] {
      var front, last := items[..|items| - 1], items[|items| - 1];
      FloorIsEarned(s, tools, approval, tainted, r, front);
      FloorCoversEveryResult(s, tools, approval, tainted, r, front);
      var m := RunItems(s, tools, approval, tainted, r, front);
      var r' := RunItems(s, tools, approval, tainted, r, items);
      if last.tool in tools {
        LevelOnlyRises(s, m.log, m.nextId, tools[last.tool], last.args, Claim(m.level, approval, tainted));
        assert r'.results[|m.results|].Some?;
      }
      assert forall k :: 0 <= k < |m.results| ==> r'.results[k] == m.results[k];
    }
  }

  /** What a resume did is on record, in order: the effects of the tools whose code ran, reads left out. */
  lemma {:induction false} ResumeIsOnRecord(s: Setting, tools: map<string, Tool>, approval: Id, tainted: bool,
                                            r: Resumed, items: seq<Item>)
    requires r.effects == Started(r.log)
    ensures var r' := RunItems(s, tools, approval, tainted, r, items);
            r'.effects == Started(r'.log)
  {
    if items != [] {
      var front, last := items[..|items| - 1], items[|items| - 1];
      ResumeIsOnRecord(s, tools, approval, tainted, r, front);
      var m := RunItems(s, tools, approval, tainted, r, front);
      if last.tool in tools {
        var call := Claim(m.level, approval, tainted);
        ExecutionEffects(s, m.log, m.nextId, tools[last.tool], last.args, call);
        StartedSum(m.log, Execution(s, m.log, m.nextId, tools[last.tool], last.args, call).events);
      }
    }
  }
}
