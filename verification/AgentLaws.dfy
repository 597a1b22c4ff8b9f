/** The agent loop's judgements, said of the steps themselves, and what follows for whole runs of it. */
module AgentLaws {
  import opened Records
  import opened ToolRunner
  import opened AgentLoop

  predicate Begins(text: string, with: string) {
    |with| <= |text| && text[..|with|] == with
  }

  function Text(s: Step): string {
    match s.observation
    case Some(text) => text
    case None => ""
  }

  // ---- The ask guard ------------------------------------------------------------------------------------------

  /** The step calls a tool that deletes or overwrites. */
  predicate CallsDestructive(tools: seq<Tool>, s: Step) {
    exists t | t in tools :: t.effect == Destructive && s.action == Some(t.name)
  }

  predicate CallsOnceConfirmed(tools: seq<Tool>, s: Step) {
    exists t | t in tools :: t.effect == Write && t.confirm == Once && s.action == Some(t.name)
  }

  predicate ShowsACard(s: Step) {
    || Begins(Text(s), "Waiting for the owner's approval") || Begins(Text(s), "The owner approved.")
    || Begins(Text(s), "The owner rejected this:") || Begins(Text(s), "The approval is ")
    || Begins(Text(s), "Approval could not be read")
  }

  /** An ask, or an answer that asked, handed back. */
  predicate HandedBack(s: Step) {
    (s.action.None? || s.action == Some("ask_user")) && Begins(Text(s), "Not asked yet.")
  }

  function BackAt(steps: seq<Step>): set<nat> {
    set k: nat | k < |steps| && HandedBack(steps[k])
  }

  lemma {:induction false} TurnBacksAre(steps: seq<Step>)
    ensures TurnBacks(steps) == |BackAt(steps)|
  {
    if steps != [] {
      var n := |steps| - 1;
      TurnBacksAre(steps[..n]);
      HandedIsTurned(steps[n]);
      hide IsTurnedBack, HandedBack;
      assert n !in BackAt(steps[..n]);
      assert BackAt(steps) == BackAt(steps[..n]) + if HandedBack(steps[n]) then {n} else {};
    }
  }

  lemma HandedIsTurned(s: Step)
    ensures HandedBack(s) <==> IsTurnedBack(s)
  {
    PrefixBegins(Text(s), "Not asked yet.");
    hide Begins;
  }

  lemma PrefixBegins(text: string, with: string)
    ensures with <= text <==> Begins(text, with)
  {
  }

  lemma CardShows(s: Step)
    ensures StartsWithAny(Observed(s), CARD_SHOWN) <==> ShowsACard(s)
  {
    forall p
      ensures p <= Observed(s) <==> Begins(Text(s), p)
    {
      PrefixBegins(Text(s), p);
    }
    hide Begins;
  }

  lemma DestructiveActs(tools: seq<Tool>, s: Step)
    ensures Acts(s, Named(tools, Destructive, {Never, Once, Approval})) <==> CallsDestructive(tools, s)
  {
    if t :| t in tools && t.effect == Destructive && s.action == Some(t.name) {
      assert t.confirm.Never? || t.confirm.Once? || t.confirm.Approval?;
      assert t.name in Named(tools, Destructive, {Never, Once, Approval});
    }
  }

  lemma OnceConfirmedActs(tools: seq<Tool>, s: Step)
    ensures Acts(s, Named(tools, Write, {Once})) <==> CallsOnceConfirmed(tools, s)
  {
    if t :| t in tools && t.effect == Write && t.confirm == Once && s.action == Some(t.name) {
      assert t.name in Named(tools, Write, {Once});
    }
  }

  /** An earlier step called a destructive tool, none that did shows that the owner saw a card, and none called a write
    * that is confirmed once. */
  predicate CardOwed(earlier: seq<Step>, tools: seq<Tool>) {
    && (exists s :: s in earlier && CallsDestructive(tools, s))
    && (forall s :: s in earlier && CallsDestructive(tools, s) ==> !ShowsACard(s))
    && (forall s :: s in earlier ==> !CallsOnceConfirmed(tools, s))
  }

  /** An ask is held up exactly when a card is owed, and the third time it ends the turn. */
  lemma GuardIff(earlier: seq<Step>, tools: seq<Tool>)
    ensures GuardAsk(earlier, tools) ==
            if !CardOwed(earlier, tools) then Through else if |BackAt(earlier)| >= 2 then EndTurn else TurnBack
  {
    TurnBacksAre(earlier);
    forall s
      ensures Acts(s, Named(tools, Destructive, {Never, Once, Approval})) <==> CallsDestructive(tools, s)
      ensures Acts(s, Named(tools, Write, {Once})) <==> CallsOnceConfirmed(tools, s)
      ensures StartsWithAny(Observed(s), CARD_SHOWN) <==> ShowsACard(s)
    {
      DestructiveActs(tools, s);
      OnceConfirmedActs(tools, s);
      CardShows(s);
    }
    hide TurnBacks, Named, StartsWithAny, CallsDestructive, CallsOnceConfirmed, ShowsACard, BackAt;
  }

  // ---- The answer guard ---------------------------------------------------------------------------------------

  /** A tool was called and gave something of its own, no refusal and no waiting for approval. */
  predicate Gave(s: Step) {
    && s.action.Some? && s.observation.Some?
    && !Begins(s.observation.value, "Refused:") && !Begins(s.observation.value, "Request blocked by governance:")
    && !Begins(s.observation.value, "Request needs approval by governance:")
    && !Begins(s.observation.value, "Error: unknown tool")
    && !Begins(s.observation.value, "Waiting for the owner's approval")
  }

  predicate HasRead(steps: seq<Step>, tools: seq<Tool>) {
    exists s, t :: s in steps && t in tools && Gave(s) && s.action == Some(t.name) && t.name != "ask_user"
                   && t.effect == Read
  }

  predicate HasChanged(steps: seq<Step>, tools: seq<Tool>) {
    exists s, t :: s in steps && t in tools && Gave(s) && s.action == Some(t.name) && t.effect in {Write, Destructive}
  }

  predicate HasRun(steps: seq<Step>) {
    exists s :: s in steps && Gave(s)
  }

  /** The answer claims a change, and nothing was changed. */
  predicate Unbacked(w: AgentLoop.World, tools: seq<Tool>, answer: string, tr: Trace) {
    tr.effects == [] && !HasChanged(tr.before + tr.steps, tools) && w.claims(answer, !HasRun(tr.before + tr.steps))
  }

  lemma GaveIsReturned(s: Step)
    ensures Gave(s) <==> AgentLoop.Returned(s)
  {
    if s.observation.Some? {
      var text := s.observation.value;
      forall p
        ensures p <= text <==> Begins(text, p)
      {
        PrefixBegins(text, p);
      }
      hide Begins;
    }
  }

  lemma HasReadIff(steps: seq<Step>, tools: seq<Tool>)
    ensures HasRead(steps, tools) <==> ReadRan(steps, tools)
    ensures HasChanged(steps, tools) <==> WriteRan(steps, tools)
    ensures HasRun(steps) <==> AnyRan(steps)
  {
    forall s
      ensures Gave(s) <==> AgentLoop.Returned(s)
    {
      GaveIsReturned(s);
    }
    hide Gave, AgentLoop.Returned;
  }

  /** What becomes of an answer: without the reading it needs it is turned back, and refused the second time; with the
    * prompt's scaffolding it is turned back, and replaced the second time by the best result or by a sentence; claiming
    * a change nothing made it is turned back, and the second time replaced by a sentence unless it tells of an earlier
    * one; and any other is handed on. */
  lemma VetIff(w: AgentLoop.World, c: Config, tools: seq<Tool>, answer: string, tr: Trace, retries: nat)
    ensures var unread := c.readFirst && !HasRead(tr.before + tr.steps, tools);
            var claims := Unbacked(w, tools, answer, tr);
            var good := LastGood(w, tr.before + tr.steps);
      match VetAnswer(w, c, tools, answer, tr, retries)
      case Passes => !unread && !w.echoes(answer) && (!claims || (retries > 0 && w.earlier(answer)))
      case Retry => retries == 0 && (unread || w.echoes(answer) || claims)
      case Fail => retries > 0 && unread
      case Replace(text) =>
        && retries > 0 && !unread
        && if w.echoes(answer) then text == (if good != "" then good else "I could not complete that request.")
           else claims && !w.earlier(answer) && text == "Nothing was changed on this request."
  {
    HasReadIff(tr.before + tr.steps, tools);
    hide HasRead, HasChanged, HasRun, ReadRan, WriteRan, AnyRan, LastGood;
  }

  // ---- Results already there ----------------------------------------------------------------------------------

  /** The best result so far is that of the latest step, here `k`, with one that can be shown. */
  lemma {:induction false} LastGoodIs(w: AgentLoop.World, steps: seq<Step>, k: int)
    requires -1 <= k < |steps| && (k >= 0 ==> w.usable(Text(steps[k])) != "")
    requires forall j :: k < j < |steps| ==> w.usable(Text(steps[j])) == ""
    ensures LastGood(w, steps) == if k < 0 then "" else w.usable(Text(steps[k]))
  {
    var n := |steps| - 1;
    if k < n {
      assert w.usable(Text(steps[n])) == "";
      LastGoodIs(w, steps[..n], k);
    }
  }

  /** The latest step, here `k`, that called this tool with a result that can be shown. */
  predicate IsLatest(w: AgentLoop.World, steps: seq<Step>, name: string, k: int) {
    && -1 <= k < |steps|
    && (k >= 0 ==> steps[k].action == Some(name) && w.usable(Text(steps[k])) != "")
    && forall j :: k < j < |steps| && steps[j].action == Some(name) ==> w.usable(Text(steps[j])) == ""
  }

  /** A repeated call of a tool whose results answer directly is met with the latest of them that can be shown. */
  lemma {:induction false} InHandIs(w: AgentLoop.World, steps: seq<Step>, name: string, k: int)
    requires IsLatest(w, steps, name, k)
    ensures InHand(w, steps, name) == if !w.direct(name) || k < 0 then "" else w.usable(Text(steps[k]))
  {
    var n := |steps| - 1;
    if k < n {
      assert steps[n].action == Some(name) ==> w.usable(Text(steps[n])) == "";
      InHandIs(w, steps[..n], name, k);
    }
  }

  // ---- Whole runs ---------------------------------------------------------------------------------------------

  /** A run that is not late and is blocked at once never asks the model: it ends with what governance says. */
  lemma BlockedAtOnce(w: AgentLoop.World, c: Config, tools: seq<Tool>, replayed: seq<Step>, budget: nat, runs: seq<Run>,
      trace: Trace, answer: string, source: Source)
    requires Turns(w, c, tools, replayed, budget, runs) && Ends(w, budget, runs, trace, answer, source) && budget > 0
    requires var first := Trace(replayed, [], [], {}, 0);
      !w.late(first) && w.blocked(first).Some? && w.blocked(first).value != ""
    ensures |runs| == 1 && trace.calls == 0 && trace.steps == [] && trace.effects == []
    ensures answer == w.blocked(Trace(replayed, [], [], {}, 0)).value && source == Told
  {
    hide Replied;
  }

  predicate GrowsByOne(r: Run, r': Run) {
    && r'.trace.calls == r.trace.calls && |r'.trace.steps| == |r.trace.steps| + 1
    && r'.trace.steps[..|r.trace.steps|] == r.trace.steps && r'.trace.before == r.trace.before
  }

  lemma AnswerAddsAStep(w: AgentLoop.World, c: Config, tools: seq<Tool>, r: Run, text: string, r': Run)
    requires AnswerTaken(w, c, tools, r, text, r') && !r'.done
    ensures GrowsByOne(r, r')
  {
    hide GuardAsk, VetAnswer;
  }

  lemma ProseAddsAStep(w: AgentLoop.World, c: Config, tools: seq<Tool>, r: Run, said: string, thought: bool, r': Run)
    requires ProseTaken(w, c, tools, r, said, thought, r') && !r'.done
    ensures GrowsByOne(r, r')
  {
    hide GuardAsk, VetAnswer, LastGood;
  }

  lemma ActionAddsAStep(w: AgentLoop.World, c: Config, tools: seq<Tool>, r: Run, name: string, input: string, r': Run)
    requires ActionTaken(w, c, tools, r, name, input, r') && !r'.done
    ensures GrowsByOne(r, r')
  {
    hide GuardAsk, Synthesized, InHand, LastGood;
  }

  /** A turn that does not end the run asks the model once and adds one step. */
  lemma TurnAddsAStep(w: AgentLoop.World, c: Config, tools: seq<Tool>, r: Run, r': Run)
    requires Replied(w, c, tools, r, r') && !r.done && !r'.done
    ensures r'.trace.calls == r.trace.calls + 1 && |r'.trace.steps| == |r.trace.steps| + 1
    ensures r'.trace.steps[..|r.trace.steps|] == r.trace.steps && r'.trace.before == r.trace.before
  {
    hide AnswerTaken, ProseTaken, ActionTaken;
    var asked := r.(trace := r.trace.(calls := r.trace.calls + 1));
    match w.reply(r.trace) {
      case Failed(_) => assert false;
      case Answer(text) => AnswerAddsAStep(w, c, tools, asked, text, r');
      case Prose(said, thought) => ProseAddsAStep(w, c, tools, asked, said, thought, r');
      case Action(name, input) => ActionAddsAStep(w, c, tools, asked, name, input, r');
    }
  }

  /** The model is put the traces of the turns, in order, the k-th with k calls and k steps made. */
  lemma {:induction false} CallsAreTurns(w: AgentLoop.World, c: Config, tools: seq<Tool>, replayed: seq<Step>,
      budget: nat, runs: seq<Run>, k: nat)
    requires Turns(w, c, tools, replayed, budget, runs) && k < |runs| - 1
    ensures runs[k].trace.calls == |runs[k].trace.steps| == k && runs[k].trace.before == replayed
    ensures forall j :: 0 <= j < k ==> runs[j].trace.steps == runs[k].trace.steps[..j]
  {
    hide Replied;
    if k > 0 {
      CallsAreTurns(w, c, tools, replayed, budget, runs, k - 1);
      TurnAddsAStep(w, c, tools, runs[k - 1], runs[k]);
      assert forall j :: 0 <= j < k - 1 ==> runs[k].trace.steps[..k - 1][..j] == runs[k].trace.steps[..j];
    }
  }
}
