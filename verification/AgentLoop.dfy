/** The agent's loop between one question and one answer. The model, the tools, the clock, the evaluator and the
  * wording tests are arbitrary functions of everything that happened before. */
module AgentLoop {
  import opened Records
  import opened ToolRunner

  type Words = s: string | s != "" witness "?"

  datatype Step = Step(action: Option<string>, input: string, observation: Option<string>)

  /** What the model said, as parsed: a final answer, one tool call, or prose that is neither. */
  datatype Reply =
    | Failed(message: string)
    | Answer(text: Words)
    | Action(name: Words, input: string)
    | Prose(said: string, thought: bool)

  /** The steps a resume replayed, this run's own, the effects of its tools, the signatures of the calls it went on
    * with, and how often the model was asked. */
  datatype Trace = Trace(before: seq<Step>, steps: seq<Step>, effects: seq<Effect>, executed: set<(string, string)>,
    calls: nat)
  {
    function All(): seq<Step> {
      before + steps
    }
  }

  datatype Executed = Executed(observation: string, effects: seq<Effect>, halts: bool)

  datatype Synthesis = Blocked(message: string) | Broke | Said(words: string)

  datatype World = World(
    late: Trace -> bool,
    blocked: Trace -> Option<string>,
    reply: Trace -> Reply,
    execute: (Trace, string, string) -> Executed,
    halted: Trace -> Option<string>,
    synthesis: Trace -> Synthesis,
    question: Trace -> Words,
    waiting: Trace -> string,
    usable: string -> string,
    planning: string -> bool,
    asks: string -> bool,
    echoes: string -> bool,
    claims: (string, bool) -> bool,
    earlier: string -> bool,
    direct: string -> bool)

  datatype Config = Config(maxIterations: nat, stallLimit: int, allowAskUser: bool, readFirst: bool,
    needsRetrieval: bool, retrieval: set<string>)

  const ASK_USER := "ask_user"
  const TURNED_BACK := "Not asked yet."
  const ASK_ENDED := TURNED_BACK + " The turn ended without an approval card."
  const MAX_TURN_BACKS := 2
  const CARD_SHOWN: set<string> := {"Waiting for the owner's approval", "The owner approved.",
    "The owner rejected this:", "The approval is ", "Approval could not be read"}
  const NOT_RUN_PREFIXES: set<string> := {"Refused:", "Request blocked by governance:",
    "Request needs approval by governance:", "Error: unknown tool", "Waiting for the owner's approval"}
  const UNGROUNDED := "I could not look that up, so I will not answer from memory."
  const UNBACKED := "Nothing was changed on this request."
  const MALFORMED := "I could not complete that request."
  const NOTE := "Your answer was turned back."
  const FRESH_NOTE := "Error: call a retrieval tool first."
  const NO_CARD := "I couldn't prepare the request, so nothing was changed."

  // ---- The ask guard ------------------------------------------------------------------------------------------

  predicate StartsWithAny(s: string, prefixes: set<string>) {
    exists p | p in prefixes :: p <= s
  }

  function Observed(step: Step): string {
    if step.observation.Some? then step.observation.value else ""
  }

  predicate Acts(step: Step, names: set<string>) {
    step.action.Some? && step.action.value in names
  }

  predicate IsTurnedBack(step: Step) {
    (step.action.None? || step.action.value == ASK_USER) && TURNED_BACK <= Observed(step)
  }

  function TurnBacks(steps: seq<Step>): nat {
    if steps == [] then 0
    else TurnBacks(steps[..|steps| - 1]) + (if IsTurnedBack(steps[|steps| - 1]) then 1 else 0)
  }

  function Named(tools: seq<Tool>, effect: Effect, gates: set<Gate>): set<string> {
    set t | t in tools && t.effect == effect && t.confirm in gates :: t.name
  }

  datatype Guard = Through | TurnBack | EndTurn

  /** What becomes of an ask, given the steps before it. */
  function GuardAsk(earlier: seq<Step>, tools: seq<Tool>): Guard {
    var cards := Named(tools, Destructive, {Never, Once, Approval});
    var held := Named(tools, Write, {Once});
    if cards == {} then Through
    else if !(exists s | s in earlier :: Acts(s, cards)) then Through
    else if exists s | s in earlier :: Acts(s, cards) && StartsWithAny(Observed(s), CARD_SHOWN) then Through
    else if exists s | s in earlier :: Acts(s, held) then Through
    else if TurnBacks(earlier) >= MAX_TURN_BACKS then EndTurn
    else TurnBack
  }

  /** Confirm-once evidence: whether the run proposed `tool` and afterwards put a question to the user. */
  method RunAskedUser(steps: seq<Step>, tool: string) returns (asked: bool)
    requires tool != ASK_USER
    ensures asked <==> exists i, j :: 0 <= i < j < |steps| && ProposedThenAsked(steps, tool, i, j)
  {
    var proposed := false;
    for k := 0 to |steps|
      invariant proposed <==> exists i :: 0 <= i < k && steps[i].action == Some(tool)
      invariant !exists i, j :: 0 <= i < j < k && ProposedThenAsked(steps, tool, i, j)
    {
      if steps[k].action == Some(tool) {
        proposed := true;
      } else if proposed && steps[k].action == Some(ASK_USER) && !(TURNED_BACK <= Observed(steps[k])) {
        var i :| 0 <= i < k && steps[i].action == Some(tool);
        assert ProposedThenAsked(steps, tool, i, k);
        return true;
      }
    }
    return false;
  }

  predicate ProposedThenAsked(steps: seq<Step>, tool: string, i: nat, j: nat)
    requires i < j < |steps|
  {
    && steps[i].action == Some(tool)
    && steps[j].action == Some(ASK_USER)
    && !(TURNED_BACK <= Observed(steps[j]))
  }

  // ---- The answer guard ---------------------------------------------------------------------------------------

  datatype Verdict = Passes | Retry | Replace(text: string) | Fail

  predicate Calls(step: Step, tools: seq<Tool>, effects: set<Effect>) {
    exists t | t in tools :: Some(t.name) == step.action && t.effect in effects
  }

  /** A step whose tool call returned something, rather than being refused or held. */
  predicate Returned(step: Step) {
    step.action.Some? && step.observation.Some? && !StartsWithAny(step.observation.value, NOT_RUN_PREFIXES)
  }

  predicate ReadRan(steps: seq<Step>, tools: seq<Tool>) {
    exists s | s in steps :: Returned(s) && Calls(s, tools, {Read}) && s.action != Some(ASK_USER)
  }

  predicate AnyRan(steps: seq<Step>) {
    exists s | s in steps :: Returned(s)
  }

  predicate WriteRan(steps: seq<Step>, tools: seq<Tool>) {
    exists s | s in steps :: Returned(s) && Calls(s, tools, {Write, Destructive})
  }

  /** The most recent observation that can be shown to the user, or "". */
  function LastGood(w: World, steps: seq<Step>): string {
    if steps == [] then ""
    else
      var usable := w.usable(Observed(steps[|steps| - 1]));
      if usable != "" then usable else LastGood(w, steps[..|steps| - 1])
  }

  function VetAnswer(w: World, c: Config, tools: seq<Tool>, answer: string, tr: Trace, retries: nat): Verdict {
    if c.readFirst && !ReadRan(tr.All(), tools) then
      if retries >= 1 then Fail else Retry
    else if w.echoes(answer) then
      if retries < 1 then Retry
      else Replace(var good := LastGood(w, tr.All()); if good != "" then good else MALFORMED)
    else if tr.effects != [] || WriteRan(tr.All(), tools) || !w.claims(answer, !AnyRan(tr.All())) then Passes
    else if retries < 1 then Retry
    else if w.earlier(answer) then Passes
    else Replace(UNBACKED)
  }

  /** What a model's answer satisfies when it is handed on as it stands: it does not repeat the prompt's scaffolding;
    * a change it claims was made by a tool of this run, or placed before it; and a read-first run has read. */
  predicate Vouched(w: World, c: Config, tools: seq<Tool>, answer: string, tr: Trace) {
    && !w.echoes(answer)
    && (w.claims(answer, !AnyRan(tr.All())) ==> tr.effects != [] || WriteRan(tr.All(), tools) || w.earlier(answer))
    && (c.readFirst ==> ReadRan(tr.All(), tools))
  }

  lemma TurnedBackOnce(w: World, c: Config, tools: seq<Tool>, answer: string, tr: Trace, retries: nat)
    ensures retries > 0 ==> VetAnswer(w, c, tools, answer, tr, retries) != Retry
  {
  }

  lemma PassedIsVouched(w: World, c: Config, tools: seq<Tool>, answer: string, tr: Trace, retries: nat)
    requires VetAnswer(w, c, tools, answer, tr, retries) == Passes
    ensures Vouched(w, c, tools, answer, tr)
  {
  }

  // ---- The loop -----------------------------------------------------------------------------------------------

  const TURN_BACK_NOTE := TURNED_BACK + " Do not ask the owner to confirm."
  const ASKED_NOTE := "Asked the user: "
  const TIMED_OUT := "Request timed out."
  const LLM_ERROR := "LLM error: "
  const NO_RETRIEVAL := "Unable to provide fresh news reliably because no retrieval tool was used."
  const NO_PROGRESS := "Stopped: repeated action without progress."
  const NO_ANSWER := "Max iterations reached without a final answer."

  function Max(a: int, b: int): int {
    if a >= b then a else b
  }

  predicate IsAsk(c: Config, s: Step) {
    c.allowAskUser && s.action == Some(ASK_USER)
  }

  /** A step whose tool call was made. */
  predicate IsCall(c: Config, s: Step) {
    s.action.Some? && !IsAsk(c, s) && s.observation.Some?
  }

  function Signature(s: Step): (string, string)
    requires s.action.Some?
  {
    (s.action.value, s.input)
  }

  /** No tool call was made twice with the same input. */
  predicate NoRepeat(c: Config, steps: seq<Step>) {
    forall i, j :: 0 <= i < j < |steps| && IsCall(c, steps[i]) && IsCall(c, steps[j]) ==>
      Signature(steps[i]) != Signature(steps[j])
  }

  predicate NoCalls(c: Config, steps: seq<Step>) {
    forall s <- steps :: !IsCall(c, s)
  }

  predicate IsBack(c: Config, s: Step, note: string) {
    (s.action.None? || IsAsk(c, s)) && s.observation == Some(note)
  }

  /** How many asks, or answers, were handed back to the model with a note. */
  function Backs(c: Config, steps: seq<Step>, note: string): nat {
    if steps == [] then 0
    else Backs(c, steps[..|steps| - 1], note) + (if IsBack(c, steps[|steps| - 1], note) then 1 else 0)
  }

  const OWN_WORDS: set<string> := {TIMED_OUT, NO_RETRIEVAL, NO_PROGRESS, NO_ANSWER, NO_CARD, UNGROUNDED, UNBACKED,
    MALFORMED}

  predicate FromTools(w: World, steps: seq<Step>, a: string) {
    exists s | s in steps :: w.usable(Observed(s)) == a
  }

  lemma {:induction false} LastGoodIsFromTools(w: World, steps: seq<Step>)
    ensures LastGood(w, steps) != "" ==> FromTools(w, steps, LastGood(w, steps))
  {
    if steps != [] {
      var front, last := steps[..|steps| - 1], steps[|steps| - 1];
      if w.usable(Observed(last)) != "" {
        assert last in steps;
      } else {
        LastGoodIsFromTools(w, front);
        assert forall s :: s in front ==> s in steps;
      }
    }
  }

  /** A repeated direct tool's result already in hand, or "". */
  function InHand(w: World, steps: seq<Step>, name: string): string {
    if !w.direct(name) || steps == [] then ""
    else
      var last := steps[|steps| - 1];
      if last.action == Some(name) && w.usable(Observed(last)) != "" then w.usable(Observed(last))
      else InHand(w, steps[..|steps| - 1], name)
  }

  lemma {:induction false} InHandIsFromTools(w: World, steps: seq<Step>, name: string)
    ensures InHand(w, steps, name) != "" ==> FromTools(w, steps, InHand(w, steps, name))
  {
    if steps != [] {
      var front, last := steps[..|steps| - 1], steps[|steps| - 1];
      if last.action == Some(name) && w.usable(Observed(last)) != "" {
        assert last in steps;
      } else {
        InHandIsFromTools(w, front, name);
        assert forall s :: s in front ==> s in steps;
      }
    }
  }

  predicate FirstTool(steps: seq<Step>) {
    forall s | s in steps :: s.action.None? || s.action == Some(ASK_USER)
  }

  /** Where an answer comes from. */
  datatype Source = Nobody | Vetted | Question | Told | Tools | Own

  /** A run of the loop: what it has so far, and where its answer comes from. */
  datatype Run = Run(trace: Trace, answer: string, source: Source, done: bool, synthesized: bool, stalled: bool,
    retries: nat, last: Option<(string, string)>, stall: int, retrieved: bool, retrievalRetries: nat, malformed: nat)

  /** The trace the model was last asked on, before its reply made the last step. */
  function Asked(tr: Trace): Trace
    requires tr.calls > 0 && tr.steps != []
  {
    tr.(steps := tr.steps[..|tr.steps| - 1], calls := tr.calls - 1)
  }

  /** The model's last reply, as an answer. */
  predicate InReply(w: World, tr: Trace, a: string) {
    tr.calls > 0 && tr.steps != []
    && match w.reply(Asked(tr))
       case Answer(text) => text == a
       case Prose(said, thought) => said == a && !thought && !w.planning(said)
       case _ => false
  }

  /** What one synthesis gave, after a call that was not made again: the model's words, or the best result so far, or why
    * the model was not asked. */
  predicate InSynthesis(w: World, tr: Trace, a: string) {
    && tr.steps != [] && tr.steps[|tr.steps| - 1].action.Some? && tr.steps[|tr.steps| - 1].observation.None?
    && (|| (w.synthesis(tr).Blocked? && (a == w.synthesis(tr).message || a == LastGood(w, tr.All())))
        || (tr.calls > 0 && match w.synthesis(tr.(calls := tr.calls - 1))
                            case Said(words) => a == words
                            case Broke => a == LastGood(w, tr.All())
                            case Blocked(_) => false))
  }

  /** The model's own question, put to the user by the last step, which the ask guard let through. No one vets it. */
  predicate Put(w: World, c: Config, tools: seq<Tool>, tr: Trace, a: string) {
    tr.steps != []
    && var n := |tr.steps| - 1;
       && IsAsk(c, tr.steps[n]) && tr.steps[n].observation == Some(ASKED_NOTE + a)
       && a == w.question(tr.(steps := tr.steps[..n] + [tr.steps[n].(observation := None)]))
       && GuardAsk(tr.before + tr.steps[..n], tools) == Through
  }

  /** What governance, the evaluator or a pause for approval said of this very trace. */
  predicate IsTold(w: World, tr: Trace, a: string) {
    w.blocked(tr) == Some(a) || w.halted(tr) == Some(a) || w.waiting(tr) == a
  }

  predicate Broken(w: World, tr: Trace, a: string) {
    tr.calls > 0
    && var reply := w.reply(tr.(calls := tr.calls - 1));
       reply.Failed? && a == LLM_ERROR + reply.message
  }

  ghost predicate Sourced(w: World, c: Config, tools: seq<Tool>, tr: Trace, answer: string, source: Source) {
    match source
    case Nobody => answer == ""
    case Vetted => Vouched(w, c, tools, answer, tr) && (InReply(w, tr, answer) || InSynthesis(w, tr, answer))
    case Question => Put(w, c, tools, tr, answer)
    case Told => IsTold(w, tr, answer)
    case Tools => FromTools(w, tr.All(), answer)
    case Own => answer in OWN_WORDS || Broken(w, tr, answer)
  }

  /** A text that is one of the loop's own sentences, or else a tool's result. */
  function SourceOf(text: string): Source {
    if text in OWN_WORDS then Own else Tools
  }

  /** What every pass through the loop keeps; `passes` is how many were begun. */
  ghost predicate Kept(w: World, c: Config, tools: seq<Tool>, passes: nat, r: Run) {
    && |r.trace.steps| <= r.trace.calls <= passes + (if r.synthesized then 1 else 0)
    && (!r.done ==> r.answer == "" && r.source == Nobody && !r.synthesized && !r.stalled && r.stall == 0)
    && (r.last.Some? ==> r.last.value in r.trace.executed)
    && NoRepeat(c, r.trace.steps)
    && (forall s <- r.trace.steps :: IsCall(c, s) ==> Signature(s) in r.trace.executed)
    && Backs(c, r.trace.steps, TURN_BACK_NOTE) <= Max(MAX_TURN_BACKS - TurnBacks(r.trace.before), 0)
    && TurnBacks(r.trace.All()) >= TurnBacks(r.trace.before) + Backs(c, r.trace.steps, TURN_BACK_NOTE)
    && Backs(c, r.trace.steps, NOTE) == r.retries <= 1
    && (r.stalled ==> c.stallLimit <= 0)
    && (c.stallLimit <= 0 ==> NoCalls(c, r.trace.steps))
    && Sourced(w, c, tools, r.trace, r.answer, r.source)
  }

  function Finish(r: Run, answer: string, source: Source): Run {
    r.(answer := answer, source := source, done := true)
  }

  function Add(r: Run, step: Step): Run {
    r.(trace := r.trace.(steps := r.trace.steps + [step]))
  }

  function Observing(step: Step, observation: string): Step {
    step.(observation := Some(observation))
  }

  lemma NotesDiffer(question: string)
    ensures ASK_ENDED != TURN_BACK_NOTE && ASK_ENDED != NOTE && FRESH_NOTE != NOTE && FRESH_NOTE != TURN_BACK_NOTE
    ensures NOTE != TURN_BACK_NOTE && ASKED_NOTE + question !in {NOTE, TURN_BACK_NOTE}
  {
    var more, ended := " Do not ask the owner to confirm.", " The turn ended without an approval card.";
    assert TURN_BACK_NOTE[|TURNED_BACK| + 1] == more[1] == 'D' && ASK_ENDED[|TURNED_BACK| + 1] == ended[1] == 'T';
    assert TURN_BACK_NOTE[0] == TURNED_BACK[0] && ASK_ENDED[0] == TURNED_BACK[0];
    assert NOTE[0] == 'Y' && FRESH_NOTE[0] == 'E' && TURN_BACK_NOTE[0] == 'N' && ASK_ENDED[0] == 'N';
    assert (ASKED_NOTE + question)[0] == 'A';
  }

  lemma OneMoreStep(c: Config, tr: Trace, s: Step)
    ensures TurnBacks(tr.before + (tr.steps + [s])) == TurnBacks(tr.All()) + (if IsTurnedBack(s) then 1 else 0)
    ensures forall note :: Backs(c, tr.steps + [s], note) == Backs(c, tr.steps, note) + (if IsBack(c, s, note) then 1 else 0)
  {
    assert tr.before + (tr.steps + [s]) == tr.All() + [s];
    assert (tr.All() + [s])[..|tr.All()|] == tr.All();
    assert (tr.steps + [s])[..|tr.steps|] == tr.steps;
  }

  /** A step that neither calls a tool nor hands anything back. */
  lemma AddKeeps(w: World, c: Config, tools: seq<Tool>, passes: nat, r: Run, step: Step)
    requires Kept(w, c, tools, passes, r) && !r.done && |r.trace.steps| < r.trace.calls
    requires !IsCall(c, step) && !IsBack(c, step, TURN_BACK_NOTE) && !IsBack(c, step, NOTE)
    ensures Kept(w, c, tools, passes, Add(r, step))
  {
    hide TurnBacks, Backs, Vouched, FromTools, Put, IsTold, Broken, InReply, InSynthesis;
    OneMoreStep(c, r.trace, step);
  }

  lemma CallKeeps(w: World, c: Config, tools: seq<Tool>, passes: nat, r: Run, step: Step)
    requires Kept(w, c, tools, passes, r) && !r.done && |r.trace.steps| < r.trace.calls
    requires step.action.Some? && !IsAsk(c, step) && Signature(step) in r.trace.executed && c.stallLimit > 0
    requires forall s <- r.trace.steps :: IsCall(c, s) ==> Signature(s) != Signature(step)
    ensures Kept(w, c, tools, passes, Add(r, step))
  {
    hide TurnBacks, Backs, Vouched, FromTools, Put, IsTold, Broken, InReply, InSynthesis;
    OneMoreStep(c, r.trace, step);
  }

  lemma TurnBackKeeps(w: World, c: Config, tools: seq<Tool>, passes: nat, r: Run, step: Step)
    requires Kept(w, c, tools, passes, r) && !r.done && |r.trace.steps| < r.trace.calls
    requires step.action.None? || IsAsk(c, step)
    requires GuardAsk(r.trace.All(), tools) == TurnBack
    ensures Kept(w, c, tools, passes, Add(r, Observing(step, TURN_BACK_NOTE)))
  {
    hide TurnBacks, Backs, Vouched, FromTools, Put, IsTold, Broken, InReply, InSynthesis, StartsWithAny, Acts, Named;
    var held := Observing(step, TURN_BACK_NOTE);
    OneMoreStep(c, r.trace, held);
    NotesDiffer("");
    assert TURNED_BACK <= TURN_BACK_NOTE;
  }

  lemma RetryKeeps(w: World, c: Config, tools: seq<Tool>, passes: nat, r: Run, step: Step)
    requires Kept(w, c, tools, passes, r) && !r.done && |r.trace.steps| < r.trace.calls
    requires step.action.None? && r.retries == 0
    ensures Kept(w, c, tools, passes, Add(r, Observing(step, NOTE)).(retries := 1))
  {
    hide TurnBacks, Backs, Vouched, FromTools, Put, IsTold, Broken, InReply, InSynthesis;
    OneMoreStep(c, r.trace, Observing(step, NOTE));
    NotesDiffer("");
  }

  /** An ask while a card tool waits: turned back, or the end of the turn; otherwise it goes through. */
  method MeetAsk(w: World, c: Config, tools: seq<Tool>, ghost passes: nat, r: Run, step: Step)
    returns (r': Run, met: bool)
    requires Kept(w, c, tools, passes, r) && !r.done && |r.trace.steps| < r.trace.calls
    requires step.observation.None? && (step.action.None? || IsAsk(c, step))
    ensures r'.trace.before == r.trace.before
    ensures Kept(w, c, tools, passes, r')
    ensures match GuardAsk(r.trace.All(), tools)
      case Through => !met && r' == r
      case EndTurn => met && r' == Finish(Add(r, Observing(step, ASK_ENDED)), NO_CARD, Own)
      case TurnBack => met && r' == Add(r, Observing(step, TURN_BACK_NOTE))
  {
    hide Vouched, TurnBacks, Backs, NoRepeat, FromTools, IsTurnedBack;
    var guard := GuardAsk(r.trace.All(), tools);
    hide GuardAsk;
    match guard
    case Through =>
      return r, false;
    case EndTurn =>
      NotesDiffer("");
      AddKeeps(w, c, tools, passes, r, Observing(step, ASK_ENDED));
      return Finish(Add(r, Observing(step, ASK_ENDED)), NO_CARD, Own), true;
    case TurnBack =>
      TurnBackKeeps(w, c, tools, passes, r, step);
      return Add(r, Observing(step, TURN_BACK_NOTE)), true;
  }

  /** A final answer, or prose taken for one: turned back once at most, replaced, refused, or handed on. */
  method MeetAnswer(w: World, c: Config, tools: seq<Tool>, ghost passes: nat, r: Run, step: Step, text: string)
    returns (r': Run)
    requires Kept(w, c, tools, passes, r) && !r.done && |r.trace.steps| < r.trace.calls
    requires step.observation.None? && step.action.None? && InReply(w, Add(r, step).trace, text)
    ensures r'.trace.before == r.trace.before
    ensures Kept(w, c, tools, passes, r')
    ensures match VetAnswer(w, c, tools, text, Add(r, step).trace, r.retries)
      case Retry => r' == Add(r, Observing(step, NOTE)).(retries := 1)
      case Fail => r' == Finish(Add(r, step), UNGROUNDED, Own)
      case Replace(instead) => r' == Finish(Add(r, step), instead, SourceOf(instead))
      case Passes => r' == Finish(Add(r, step), text, Vetted)
  {
    hide VetAnswer, Vouched, TurnBacks, Backs, NoRepeat, FromTools;
    AddKeeps(w, c, tools, passes, r, step);
    r' := Add(r, step);
    var verdict := VetAnswer(w, c, tools, text, r'.trace, r.retries);
    match verdict
    case Retry =>
      TurnedBackOnce(w, c, tools, text, r'.trace, r.retries);
      RetryKeeps(w, c, tools, passes, r, step);
      r' := Add(r, Observing(step, NOTE)).(retries := 1);
    case Fail =>
      r' := Finish(r', UNGROUNDED, Own);
    case Replace(instead) =>
      ReplacedBy(w, c, tools, text, r'.trace, r.retries);
      r' := Finish(r', instead, SourceOf(instead));
    case Passes =>
      PassedIsVouched(w, c, tools, text, r'.trace, r.retries);
      r' := Finish(r', text, Vetted);
  }

  lemma ReplacedBy(w: World, c: Config, tools: seq<Tool>, answer: string, tr: Trace, retries: nat)
    ensures var v := VetAnswer(w, c, tools, answer, tr, retries);
      v.Replace? ==> v.text in OWN_WORDS || FromTools(w, tr.All(), v.text)
  {
    LastGoodIsFromTools(w, tr.All());
  }

  /** One synthesis on a trace: the model's words, or the best result so far, or why it was not asked; vetted as an answer
    * that cannot be turned back any more. */
  predicate Synthesized(w: World, c: Config, tools: seq<Tool>, tr: Trace, r': Run) {
    var good := LastGood(w, tr.All());
    var words := match w.synthesis(tr)
      case Blocked(message) => if good != "" then good else message
      case Broke => good
      case Said(words) => words;
    && r'.trace == (if w.synthesis(tr).Blocked? then tr else tr.(calls := tr.calls + 1))
    && match VetAnswer(w, c, tools, words, r'.trace, 1)
       case Fail => r'.answer == UNGROUNDED && r'.source == Own
       case Replace(instead) => r'.answer == instead && r'.source == SourceOf(instead)
       case _ => r'.answer == words && r'.source == Vetted
  }

  /** One synthesis from what there is, vetted like an answer with no turn-back left. */
  method ForceSynthesis(w: World, c: Config, tools: seq<Tool>, ghost passes: nat, r: Run) returns (r': Run)
    requires Kept(w, c, tools, passes, r) && !r.done
    requires var n := |r.trace.steps|;
      n > 0 && r.trace.steps[n - 1].action.Some? && r.trace.steps[n - 1].observation.None?
    ensures Kept(w, c, tools, passes, r') && r'.done
    ensures Synthesized(w, c, tools, r.trace, r')
  {
    hide VetAnswer, Vouched, TurnBacks, Backs, NoRepeat, LastGood, FromTools, InReply, Put, IsTold, Broken;
    var synthesis, good := w.synthesis(r.trace), LastGood(w, r.trace.All());
    var words := match synthesis
      case Blocked(message) => if good != "" then good else message
      case Broke => good
      case Said(words) => words;
    r' := r;
    if !synthesis.Blocked? {
      r' := r.(trace := r.trace.(calls := r.trace.calls + 1), synthesized := true);
    }
    assert InSynthesis(w, r'.trace, words);
    hide InSynthesis;
    var verdict := VetAnswer(w, c, tools, words, r'.trace, 1);
    match verdict
    case Fail =>
      r' := Finish(r', UNGROUNDED, Own);
    case Replace(instead) =>
      ReplacedBy(w, c, tools, words, r'.trace, 1);
      r' := Finish(r', instead, SourceOf(instead));
    case Passes =>
      PassedIsVouched(w, c, tools, words, r'.trace, 1);
      r' := Finish(r', words, Vetted);
    case Retry =>
      TurnedBackOnce(w, c, tools, words, r'.trace, 1);
      assert false;
  }

  /** A repeated call ends the run, its step unobserved: with its result in hand, or else with one synthesis. */
  predicate RepeatMet(w: World, c: Config, tools: seq<Tool>, r: Run, step: Step, name: string, r': Run) {
    var met := r.trace.(steps := r.trace.steps + [step]);
    var hand := InHand(w, r.trace.All(), name);
    && r'.done && r'.stall == 1
    && if hand != "" then r'.trace == met && r'.answer == hand && r'.source == Tools
       else Synthesized(w, c, tools, met, r')
  }

  /** A repeated call is not made again: its result in hand, or one synthesis from what there is. */
  method MeetRepeat(w: World, c: Config, tools: seq<Tool>, ghost passes: nat, r: Run, step: Step, name: string)
    returns (r': Run)
    requires Kept(w, c, tools, passes, r) && !r.done && |r.trace.steps| < r.trace.calls
    requires step.action == Some(name) && step.observation.None?
    ensures r'.trace.before == r.trace.before
    ensures Kept(w, c, tools, passes, r') && r'.done
    ensures RepeatMet(w, c, tools, r, step, name, r')
  {
    hide VetAnswer, Vouched, TurnBacks, Backs, NoRepeat, InHand, LastGood;
    AddKeeps(w, c, tools, passes, r, step);
    r' := Add(r, step);
    var hand := InHand(w, r.trace.All(), name);
    if hand != "" {
      InHandIsFromTools(w, r.trace.All(), name);
      assert forall s :: s in r.trace.All() ==> s in r'.trace.All();
      return Finish(r', hand, Tools).(stall := 1);
    }
    r' := ForceSynthesis(w, c, tools, passes, r');
    r' := r'.(stall := 1);
  }

  /** What a run that cannot go on ends with: the best result so far, or else a sentence of the loop's own. */
  predicate Recovered(w: World, tr: Trace, otherwise: string, r': Run) {
    var good := LastGood(w, tr.All());
    r'.done && r'.trace == tr && (if good != "" then r'.answer == good && r'.source == Tools
                                  else r'.answer == otherwise && r'.source == Own)
  }

  /** The best result so far, or else the loop's own words. */
  method Recover(w: World, c: Config, tools: seq<Tool>, ghost passes: nat, r: Run, otherwise: string)
    returns (r': Run)
    requires Kept(w, c, tools, passes, r.(stalled := false)) && !r.done
    requires otherwise in {MALFORMED, NO_PROGRESS} && (r.stalled ==> c.stallLimit <= 0)
    ensures r'.trace == r.trace
    ensures Kept(w, c, tools, passes, r') && r'.done
    ensures Recovered(w, r.trace, otherwise, r')
  {
    hide Vouched, TurnBacks, Backs, NoRepeat, LastGood;
    LastGoodIsFromTools(w, r.trace.All());
    hide FromTools;
    var good := LastGood(w, r.trace.All());
    return if good != "" then Finish(r, good, Tools) else Finish(r, otherwise, Own);
  }

  /** A call is made once: what it returned and did is kept; a pause ends the run, then the evaluator may, then a result
    * that answers directly, of the first tool the run called; and else the run goes on. */
  predicate CallMade(w: World, c: Config, r: Run, step: Step, name: string, r': Run) {
    var result := w.execute(r.trace.(steps := r.trace.steps + [step]), name, step.input);
    var made := r.trace.(steps := r.trace.steps + [step.(observation := Some(result.observation))],
                         effects := r.trace.effects + result.effects);
    && r'.trace == made
    && if result.halts then r'.done && r'.answer == w.waiting(made) && r'.source == Told
       else if w.halted(made).Some? then r'.done && r'.answer == w.halted(made).value && r'.source == Told
       else if w.direct(name) && w.usable(result.observation) != ""
               && forall s | s in r.trace.All() :: s.action.None? || s.action == Some(ASK_USER)
       then r'.done && r'.answer == w.usable(result.observation) && r'.source == Tools
       else r' == r.(trace := made, retrieved := r.retrieved || name in c.retrieval)
  }

  /** One tool call: what it returned and did is kept; a pause, the evaluator, or a direct answer ends the run. */
  method MakeCall(w: World, c: Config, tools: seq<Tool>, ghost passes: nat, r: Run, step: Step, name: string)
    returns (r': Run)
    requires Kept(w, c, tools, passes, r) && !r.done && |r.trace.steps| < r.trace.calls && c.stallLimit > 0
    requires step.action == Some(name) && step.observation.None? && !IsAsk(c, step)
    requires Signature(step) in r.trace.executed
    requires forall s <- r.trace.steps :: IsCall(c, s) ==> Signature(s) != Signature(step)
    ensures Kept(w, c, tools, passes, r')
    ensures CallMade(w, c, r, step, name, r')
  {
    hide Vouched, TurnBacks, Backs, NoRepeat, FromTools, InReply, InSynthesis, Broken, Put;
    var result := w.execute(Add(r, step).trace, name, step.input);
    var done := Observing(step, result.observation);
    CallKeeps(w, c, tools, passes, r, done);
    r' := Add(r, done);
    r' := r'.(trace := r'.trace.(effects := r'.trace.effects + result.effects));
    assert Kept(w, c, tools, passes, r');
    if result.halts {
      return Finish(r', w.waiting(r'.trace), Told);
    }
    if name in c.retrieval {
      r' := r'.(retrieved := true);
    }
    var halted := w.halted(r'.trace);
    if halted.Some? {
      return Finish(r', halted.value, Told);
    }
    if w.direct(name) && FirstTool(r.trace.All()) && w.usable(result.observation) != "" {
      CalledLast(w, r'.trace, done);
      return Finish(r', w.usable(result.observation), Tools);
    }
  }

  /** What is made of a call not made before. */
  predicate ActionMet(w: World, c: Config, r: Run, step: Step, name: string, r': Run) {
    var trace := r.trace.(executed := r.trace.executed + {(name, step.input)});
    var during := trace.(steps := r.trace.steps + [step]);
    if c.stallLimit <= 0 then Recovered(w, during, NO_PROGRESS, r')
    else if c.allowAskUser && name == ASK_USER then
      && r'.done && r'.answer == w.question(during) && r'.source == Question
      && r'.trace == trace.(steps := r.trace.steps + [step.(observation := Some(ASKED_NOTE + w.question(during)))])
    else CallMade(w, c, r.(trace := trace, last := Some((name, step.input)), stall := 0), step, name, r')
  }

  /** A call not made before: under no positive stall limit it is not made; a question is put to the user and ends the
    * run; any other is made once, its observation and effects kept, and the run ends when the tool pauses it, the
    * evaluator halts it, or a direct tool that is the first to run has answered. */
  method MeetAction(w: World, c: Config, tools: seq<Tool>, ghost passes: nat, r: Run, step: Step, name: string)
    returns (r': Run)
    requires Kept(w, c, tools, passes, r) && !r.done && |r.trace.steps| < r.trace.calls
    requires step.action == Some(name) && step.observation.None?
    requires Signature(step) !in r.trace.executed
    requires IsAsk(c, step) ==> GuardAsk(r.trace.All(), tools) == Through
    ensures r'.trace.before == r.trace.before
    ensures Kept(w, c, tools, passes, r')
    ensures ActionMet(w, c, r, step, name, r')
  {
    hide Vouched, TurnBacks, Backs, NoRepeat, LastGood, FirstTool, FromTools, InReply, InSynthesis, Broken, GuardAsk;
    var signature := Signature(step);
    r' := r.(trace := r.trace.(executed := r.trace.executed + {signature}));
    r' := if r.last == Some(signature) then r'.(stall := r.stall + 1) else r'.(stall := 0, last := Some(signature));
    assert Kept(w, c, tools, passes, r');
    if r'.stall >= c.stallLimit {
      AddKeeps(w, c, tools, passes, r', step);
      r' := Recover(w, c, tools, passes, Add(r', step).(stalled := true), NO_PROGRESS);
      return;
    }
    if IsAsk(c, step) {
      var question := w.question(Add(r', step).trace);
      NotesDiffer(question);
      AddKeeps(w, c, tools, passes, r', Observing(step, ASKED_NOTE + question));
      QuestionIsPut(w, c, tools, Add(r', step).trace, question);
      return Finish(Add(r', Observing(step, ASKED_NOTE + question)), question, Question);
    }
    r' := MakeCall(w, c, tools, passes, r', step, name);
  }

  lemma QuestionIsPut(w: World, c: Config, tools: seq<Tool>, tr: Trace, question: string)
    requires tr.steps != [] && IsAsk(c, tr.steps[|tr.steps| - 1]) && tr.steps[|tr.steps| - 1].observation.None?
    requires question == w.question(tr)
    requires GuardAsk(tr.before + tr.steps[..|tr.steps| - 1], tools) == Through
    ensures var n := |tr.steps| - 1;
      Put(w, c, tools, tr.(steps := tr.steps[..n] + [Observing(tr.steps[n], ASKED_NOTE + question)]), question)
  {
    var n := |tr.steps| - 1;
    var put := tr.steps[..n] + [Observing(tr.steps[n], ASKED_NOTE + question)];
    assert put[..n] == tr.steps[..n] && put[n].(observation := None) == tr.steps[n];
    assert tr.steps[..n] + [tr.steps[n]] == tr.steps;
    assert tr.(steps := tr.steps[..n] + [tr.steps[n]]) == tr;
  }

  lemma CalledLast(w: World, tr: Trace, s: Step)
    requires tr.steps != [] && tr.steps[|tr.steps| - 1] == s
    ensures FromTools(w, tr.All(), w.usable(Observed(s)))
  {
    assert tr.All()[|tr.All()| - 1] == s;
  }

  /** A step that asks, where the ask guard does not let it through: it is turned back, or ends the turn. */
  predicate AskHeld(r: Run, step: Step, guard: Guard, r': Run) {
    if guard == EndTurn then
      r' == r.(trace := r.trace.(steps := r.trace.steps + [step.(observation := Some(ASK_ENDED))]),
               answer := NO_CARD, source := Own, done := true)
    else r' == r.(trace := r.trace.(steps := r.trace.steps + [step.(observation := Some(TURN_BACK_NOTE))]))
  }

  /** An answer that is turned back with a note, refused, replaced, or handed on, as it is vetted with its own step. */
  predicate AnswerMet(w: World, c: Config, tools: seq<Tool>, r: Run, text: string, r': Run) {
    var met := r.trace.(steps := r.trace.steps + [Step(None, "", None)]);
    match VetAnswer(w, c, tools, text, met, r.retries)
    case Retry => r' == r.(trace := r.trace.(steps := r.trace.steps + [Step(None, "", Some(NOTE))]), retries := 1)
    case Fail => r' == r.(trace := met, answer := UNGROUNDED, source := Own, done := true)
    case Replace(instead) => r' == r.(trace := met, answer := instead, source := SourceOf(instead), done := true)
    case Passes => r' == r.(trace := met, answer := text, source := Vetted, done := true)
  }

  /** An answer from memory where a retrieval is called for: turned back once, then the end. */
  predicate FreshHeld(r: Run, r': Run) {
    if r.retrievalRetries >= 1 then
      r' == r.(trace := r.trace.(steps := r.trace.steps + [Step(None, "", None)]), retrievalRetries := r.retrievalRetries + 1,
               answer := NO_RETRIEVAL, source := Own, done := true)
    else
      r' == r.(trace := r.trace.(steps := r.trace.steps + [Step(None, "", Some(FRESH_NOTE))]),
               retrievalRetries := r.retrievalRetries + 1)
  }

  /** Prose that is no answer: noted once, then the end. */
  predicate ProseHeld(w: World, r: Run, r': Run) {
    var met := r.(trace := r.trace.(steps := r.trace.steps + [Step(None, "", None)]), malformed := r.malformed + 1);
    if r.malformed >= 1 then Recovered(w, met.trace, MALFORMED, r') else r' == met
  }

  /** What an answer makes of the run, prose what it makes, and a call. */
  predicate AnswerTaken(w: World, c: Config, tools: seq<Tool>, r: Run, text: string, r': Run) {
    var guard := GuardAsk(r.trace.All(), tools);
    if w.asks(text) && guard != Through then AskHeld(r, Step(None, "", None), guard, r')
    else if c.needsRetrieval && !r.retrieved then FreshHeld(r, r')
    else AnswerMet(w, c, tools, r, text, r')
  }

  predicate ProseTaken(w: World, c: Config, tools: seq<Tool>, r: Run, said: string, thought: bool, r': Run) {
    var guard := GuardAsk(r.trace.All(), tools);
    var answers := !thought && !w.planning(said);
    if answers && w.asks(said) && guard != Through then AskHeld(r, Step(None, "", None), guard, r')
    else if answers && said != "" then AnswerMet(w, c, tools, r, said, r')
    else ProseHeld(w, r, r')
  }

  predicate ActionTaken(w: World, c: Config, tools: seq<Tool>, r: Run, name: string, input: string, r': Run) {
    var step := Step(Some(name), input, None);
    var guard := GuardAsk(r.trace.All(), tools);
    if c.allowAskUser && name == ASK_USER && guard != Through then AskHeld(r, step, guard, r')
    else if (name, input) in r.trace.executed then RepeatMet(w, c, tools, r, step, name, r')
    else ActionMet(w, c, r, step, name, r')
  }

  /** What the model's reply to a trace makes of the run. */
  predicate Replied(w: World, c: Config, tools: seq<Tool>, r: Run, r': Run) {
    var asked := r.(trace := r.trace.(calls := r.trace.calls + 1));
    match w.reply(r.trace)
    case Failed(message) => r' == asked.(answer := LLM_ERROR + message, source := Own, done := true)
    case Answer(text) => AnswerTaken(w, c, tools, asked, text, r')
    case Prose(said, thought) => ProseTaken(w, c, tools, asked, said, thought, r')
    case Action(name, input) => ActionTaken(w, c, tools, asked, name, input, r')
  }

  /** An answer where a retrieval is called for first. */
  method MeetEarly(w: World, c: Config, tools: seq<Tool>, ghost passes: nat, r: Run) returns (r': Run)
    requires Kept(w, c, tools, passes, r) && !r.done && |r.trace.steps| < r.trace.calls
    ensures r'.trace.before == r.trace.before
    ensures Kept(w, c, tools, passes, r') && FreshHeld(r, r')
  {
    hide Vouched, TurnBacks, Backs, NoRepeat, FromTools, Put, IsTold, Broken, InReply, InSynthesis;
    var step := Step(None, "", None);
    r' := r.(retrievalRetries := r.retrievalRetries + 1);
    NotesDiffer("");
    AddKeeps(w, c, tools, passes, r', step);
    AddKeeps(w, c, tools, passes, r', Observing(step, FRESH_NOTE));
    if r'.retrievalRetries >= 2 {
      return Finish(Add(r', step), NO_RETRIEVAL, Own);
    }
    return Add(r', Observing(step, FRESH_NOTE));
  }

  /** Prose that is neither an answer nor a call. */
  method MeetProse(w: World, c: Config, tools: seq<Tool>, ghost passes: nat, r: Run) returns (r': Run)
    requires Kept(w, c, tools, passes, r) && !r.done && |r.trace.steps| < r.trace.calls
    ensures r'.trace.before == r.trace.before
    ensures Kept(w, c, tools, passes, r') && ProseHeld(w, r, r')
  {
    hide Vouched, TurnBacks, Backs, NoRepeat, FromTools, Put, IsTold, Broken, InReply, InSynthesis, Recovered;
    r' := r.(malformed := r.malformed + 1);
    AddKeeps(w, c, tools, passes, r', Step(None, "", None));
    r' := Add(r', Step(None, "", None));
    if r'.malformed >= 2 {
      r' := Recover(w, c, tools, passes, r', MALFORMED);
    }
  }

  method TakeAnswer(w: World, c: Config, tools: seq<Tool>, ghost passes: nat, r: Run, text: string) returns (r': Run)
    requires Kept(w, c, tools, passes, r) && !r.done && |r.trace.steps| < r.trace.calls
    requires InReply(w, Add(r, Step(None, "", None)).trace, text)
    ensures r'.trace.before == r.trace.before
    ensures Kept(w, c, tools, passes, r') && AnswerTaken(w, c, tools, r, text, r')
  {
    hide Kept, GuardAsk, VetAnswer, FreshHeld, InReply;
    var step := Step(None, "", None);
    if w.asks(text) {
      var met;
      r', met := MeetAsk(w, c, tools, passes, r, step);
      if met {
        return;
      }
    }
    if c.needsRetrieval && !r.retrieved {
      r' := MeetEarly(w, c, tools, passes, r);
    } else {
      r' := MeetAnswer(w, c, tools, passes, r, step, text);
    }
  }

  method TakeProse(w: World, c: Config, tools: seq<Tool>, ghost passes: nat, r: Run, said: string, thought: bool)
    returns (r': Run)
    requires Kept(w, c, tools, passes, r) && !r.done && |r.trace.steps| < r.trace.calls
    requires !thought && !w.planning(said) ==> InReply(w, Add(r, Step(None, "", None)).trace, said)
    ensures r'.trace.before == r.trace.before
    ensures Kept(w, c, tools, passes, r') && ProseTaken(w, c, tools, r, said, thought, r')
  {
    hide Kept, GuardAsk, VetAnswer, ProseHeld, InReply;
    var step := Step(None, "", None);
    var answers := !thought && !w.planning(said);
    if answers && w.asks(said) {
      var met;
      r', met := MeetAsk(w, c, tools, passes, r, step);
      if met {
        return;
      }
    }
    if answers && said != "" {
      r' := MeetAnswer(w, c, tools, passes, r, step, said);
    } else {
      r' := MeetProse(w, c, tools, passes, r);
    }
  }

  method TakeAction(w: World, c: Config, tools: seq<Tool>, ghost passes: nat, r: Run, name: string, input: string)
    returns (r': Run)
    requires Kept(w, c, tools, passes, r) && !r.done && |r.trace.steps| < r.trace.calls
    ensures r'.trace.before == r.trace.before
    ensures Kept(w, c, tools, passes, r') && ActionTaken(w, c, tools, r, name, input, r')
  {
    hide Kept, GuardAsk, RepeatMet, ActionMet;
    var step := Step(Some(name), input, None);
    if IsAsk(c, step) {
      var met;
      r', met := MeetAsk(w, c, tools, passes, r, step);
      if met {
        return;
      }
    }
    if (name, input) in r.trace.executed {
      r' := MeetRepeat(w, c, tools, passes, r, step, name);
    } else {
      r' := MeetAction(w, c, tools, passes, r, step, name);
    }
  }

  lemma OneMoreCall(w: World, c: Config, tools: seq<Tool>, passes: nat, r: Run)
    requires Kept(w, c, tools, passes, r) && !r.done && r.trace.calls < passes
    ensures var r' := r.(trace := r.trace.(calls := r.trace.calls + 1));
      && Kept(w, c, tools, passes, r')
      && (w.reply(r.trace).Failed? ==>
            Kept(w, c, tools, passes, r'.(answer := LLM_ERROR + w.reply(r.trace).message, source := Own, done := true)))
  {
    hide Vouched, TurnBacks, Backs, NoRepeat, FromTools, Put, IsTold, InReply, InSynthesis;
  }

  /** What is made of one reply of the model. */
  method MeetReply(w: World, c: Config, tools: seq<Tool>, ghost passes: nat, r: Run, reply: Reply)
    returns (r': Run)
    requires Kept(w, c, tools, passes, r) && !r.done && r.trace.calls < passes && reply == w.reply(r.trace)
    ensures r'.trace.before == r.trace.before
    ensures Kept(w, c, tools, passes, r') && Replied(w, c, tools, r, r')
  {
    hide *;
    OneMoreCall(w, c, tools, passes, r);
    StepsBelow(w, c, tools, passes, r);
    RepliesStep(w, r);
    var asked := r.(trace := r.trace.(calls := r.trace.calls + 1));
    match reply {
      case Failed(message) => r' := asked.(answer := LLM_ERROR + message, source := Own, done := true);
      case Answer(text) => r' := TakeAnswer(w, c, tools, passes, asked, text);
      case Prose(said, thought) => r' := TakeProse(w, c, tools, passes, asked, said, thought);
      case Action(name, input) => r' := TakeAction(w, c, tools, passes, asked, name, input);
    }
    TakenIsReplied(w, c, tools, r, r');
  }

  lemma TakenIsReplied(w: World, c: Config, tools: seq<Tool>, r: Run, r': Run)
    requires var asked := r.(trace := r.trace.(calls := r.trace.calls + 1));
      match w.reply(r.trace)
      case Failed(message) => r' == asked.(answer := LLM_ERROR + message, source := Own, done := true)
      case Answer(text) => AnswerTaken(w, c, tools, asked, text, r')
      case Prose(said, thought) => ProseTaken(w, c, tools, asked, said, thought, r')
      case Action(name, input) => ActionTaken(w, c, tools, asked, name, input, r')
    ensures Replied(w, c, tools, r, r')
  {
    hide AnswerTaken, ProseTaken, ActionTaken;
  }

  /** The trace the model was asked on is the one before its reply's step. */
  lemma RepliesStep(w: World, r: Run)
    ensures var tr := Add(r.(trace := r.trace.(calls := r.trace.calls + 1)), Step(None, "", None)).trace;
      match w.reply(r.trace)
      case Answer(text) => InReply(w, tr, text)
      case Prose(said, thought) => !thought && !w.planning(said) ==> InReply(w, tr, said)
      case _ => true
  {
    assert (r.trace.steps + [Step(None, "", None)])[..|r.trace.steps|] == r.trace.steps;
  }

  lemma StepsBelow(w: World, c: Config, tools: seq<Tool>, passes: nat, r: Run)
    requires Kept(w, c, tools, passes, r)
    ensures |r.trace.steps| <= r.trace.calls
  {
  }

  /** A run not begun, resumed with these steps. */
  function Fresh(replayed: seq<Step>): Run {
    Run(Trace(replayed, [], [], {}, 0), "", Nobody, false, false, false, 0, None, 0, false, 0, 0)
  }

  /** The run after each turn: the model is asked at most so often, each time only when there is no answer yet, time is not
    * up and governance does not block the trace. */
  predicate Turns(w: World, c: Config, tools: seq<Tool>, replayed: seq<Step>, budget: nat, runs: seq<Run>) {
    && 1 <= |runs| <= budget + 1 && runs[0] == Fresh(replayed)
    && forall k :: 0 <= k < |runs| - 1 ==>
         && !runs[k].done && !w.late(runs[k].trace) && w.blocked(runs[k].trace).None?
         && Replied(w, c, tools, runs[k], runs[k + 1])
  }

  /** How a run ends: with the answer of its last turn; or with no turn left; or late; or with what governance says. */
  predicate Ends(w: World, budget: nat, runs: seq<Run>, trace: Trace, answer: string, source: Source)
    requires |runs| > 0
  {
    var last := runs[|runs| - 1];
    && trace == last.trace
    && if last.done && last.answer != "" then answer == last.answer && source == last.source
       else if last.done || |runs| == budget + 1 then answer == NO_ANSWER && source == Own
       else if w.late(trace) then answer == TIMED_OUT && source == Own
       else && w.blocked(trace).Some?
            && if w.blocked(trace).value != "" then answer == w.blocked(trace).value && source == Told
               else answer == NO_ANSWER && source == Own
  }

  /** One run of the loop, from scratch or resumed with `replayed` steps at iteration `start`. It asks the model at most
    * once for each iteration left, and once more to synthesize; calls no tool twice with the same input; hands back at
    * most two asks, those replayed included, and at most one answer; and ends with a non-empty answer, whose source in
    * this run's own trace is known: an answer that was vetted, and then is vouched for; a question of the model's, which
    * the ask guard let through; what governance, the evaluator or a pause said of the trace as it stands; a result of
    * the run's tools; or a sentence of the loop's own. The stall count never ends it under a positive limit. `runs` are
    * the turns it took: no trace that is late or blocked is ever put to the model. */
  method Loop(w: World, c: Config, tools: seq<Tool>, replayed: seq<Step>, start: nat)
    returns (trace: Trace, answer: string, source: Source, ghost synthesized: bool, ghost stalled: bool,
             ghost runs: seq<Run>)
    ensures answer != ""
    ensures trace.before == replayed
    ensures |trace.steps| <= trace.calls <= Max(c.maxIterations - start, 0) + (if synthesized then 1 else 0)
    ensures NoRepeat(c, trace.steps)
    ensures Backs(c, trace.steps, TURN_BACK_NOTE) <= Max(MAX_TURN_BACKS - TurnBacks(replayed), 0)
    ensures Backs(c, trace.steps, NOTE) <= 1
    ensures stalled ==> c.stallLimit <= 0
    ensures c.stallLimit <= 0 ==> NoCalls(c, trace.steps)
    ensures source != Nobody && Sourced(w, c, tools, trace, answer, source)
    ensures Turns(w, c, tools, replayed, Max(c.maxIterations - start, 0), runs)
    ensures Ends(w, Max(c.maxIterations - start, 0), runs, trace, answer, source)
  {
    hide Vouched, TurnBacks, FromTools, Replied;
    var r := Fresh(replayed);
    assert r.trace.All() == replayed;
    runs := [r];
    var iteration := start;
    while !r.done && iteration < c.maxIterations
      invariant start <= iteration <= Max(c.maxIterations, start)
      invariant r.trace.before == replayed && Kept(w, c, tools, iteration - start, r)
      invariant Turns(w, c, tools, replayed, Max(c.maxIterations - start, 0), runs)
      invariant |runs| == iteration - start + 1 && r == runs[|runs| - 1]
    {
      if w.late(r.trace) {
        r := Finish(r, TIMED_OUT, Own);
        break;
      }
      var blocked := w.blocked(r.trace);
      if blocked.Some? {
        r := Finish(r, blocked.value, Told);
        break;
      }
      iteration := iteration + 1;
      r := MeetReply(w, c, tools, iteration - start, r, w.reply(r.trace));
      runs := runs + [r];
    }
    trace, answer, source, synthesized, stalled := r.trace, r.answer, r.source, r.synthesized, r.stalled;
    if answer == "" {
      answer, source := NO_ANSWER, Own;
    }
  }
}
