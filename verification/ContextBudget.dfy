/** Fitting the transcript and the memory blocks into a token budget. */
module ContextBudget {

  type Cost = string -> nat

  function Total(cost: Cost, s: seq<string>): nat {
    if s == [] then 0 else cost(s[0]) + Total(cost, s[1..])
  }

  lemma {:induction false} TotalSum(cost: Cost, a: seq<string>, b: seq<string>)
    ensures Total(cost, a + b) == Total(cost, a) + Total(cost, b)
  {
    if a == [] {
      assert a + b == b;
    } else {
      assert (a + b)[1..] == a[1..] + b;
      TotalSum(cost, a[1..], b);
    }
  }

  /** Where the transcript is cut: the first place from which the rest fits, but never past the last block. */
  function CutAt(cost: Cost, history: seq<string>, budget: int, from: nat): (i: nat)
    requires from < |history|
    ensures from <= i < |history|
    ensures Total(cost, history[i..]) <= budget || i == |history| - 1
    ensures forall j :: from <= j < i ==> Total(cost, history[j..]) > budget
    decreases |history| - from
  {
    if Total(cost, history[from..]) <= budget || from == |history| - 1 then from
    else CutAt(cost, history, budget, from + 1)
  }

  function Trimmed(cost: Cost, history: seq<string>, budget: int): seq<string> {
    if budget <= 0 || |history| <= 1 then history else history[CutAt(cost, history, budget, 0)..]
  }

  method TrimHistory(cost: Cost, history: seq<string>, budget: int) returns (kept: seq<string>, evicted: nat)
    ensures kept == Trimmed(cost, history, budget)
    ensures Total(cost, kept) + evicted == Total(cost, history)
    ensures budget <= 0 ==> kept == history
  {
    if budget <= 0 || |history| <= 1 {
      return history, 0;
    }
    var used := Total(cost, history);
    kept, evicted := history, 0;
    ghost var i := 0;
    while used > budget && |kept| > 1
      invariant i < |history| && kept == history[i..]
      invariant used == Total(cost, kept) && used + evicted == Total(cost, history)
      invariant CutAt(cost, history, budget, i) == CutAt(cost, history, budget, 0)
      decreases |kept|
    {
      var gone := cost(kept[0]);
      kept := kept[1..];
      used := used - gone;
      evicted := evicted + gone;
      i := i + 1;
    }
    assert CutAt(cost, history, budget, i) == i;
  }

  /** Under a positive budget, what is kept is the longest ending of the transcript that fits, or the last block alone
    * when not even that fits. */
  lemma TrimmedIsLongest(cost: Cost, history: seq<string>, budget: int, suffix: seq<string>)
    requires budget > 0 && history != []
    requires suffix != [] && |suffix| <= |history| && history[|history| - |suffix|..] == suffix
    ensures var kept := Trimmed(cost, history, budget);
      && 1 <= |kept| <= |history| && history[|history| - |kept|..] == kept
      && (Total(cost, kept) <= budget || kept == [history[|history| - 1]])
      && (Total(cost, suffix) <= budget ==> |suffix| <= |kept|)
  {
    if |history| > 1 {
      var i := CutAt(cost, history, budget, 0);
      var j := |history| - |suffix|;
      assert history[j..] == suffix;
    }
  }

  /** Trimming again under the same budget evicts nothing more. */
  lemma TrimmedTwice(cost: Cost, history: seq<string>, budget: int)
    ensures Trimmed(cost, Trimmed(cost, history, budget), budget) == Trimmed(cost, history, budget)
  {
    var kept := Trimmed(cost, history, budget);
    if budget > 0 && |history| > 1 && |kept| > 1 {
      assert kept[0..] == kept;
      assert CutAt(cost, kept, budget, 0) == 0;
    }
  }

  // ---- Admission ----------------------------------------------------------------------------------------------

  method AdmitMemoryParts(cost: Cost, parts: seq<string>, budget: int, pinFirst: bool)
    returns (kept: seq<string>, evicted: nat)
    ensures kept <= parts
    ensures Total(cost, kept) + evicted == Total(cost, parts)
    ensures budget <= 0 ==> kept == parts
    ensures budget > 0 ==> Total(cost, kept) <= budget || (pinFirst && parts != [] && kept == parts[..1])
    ensures budget > 0 ==> forall n :: |kept| < n <= |parts| ==> Total(cost, parts[..n]) > budget
  {
    if budget <= 0 || parts == [] {
      return parts, 0;
    }
    var used := Total(cost, parts);
    kept, evicted := parts, 0;
    var floor := if pinFirst then 1 else 0;
    while used > budget && |kept| > floor
      invariant kept == parts[..|kept|] && floor <= |kept| <= |parts|
      invariant used == Total(cost, kept) && used + evicted == Total(cost, parts)
      invariant forall n :: |kept| < n <= |parts| ==> Total(cost, parts[..n]) > budget
      decreases |kept|
    {
      var last := kept[|kept| - 1];
      assert kept == kept[..|kept| - 1] + [last];
      TotalSum(cost, kept[..|kept| - 1], [last]);
      kept := kept[..|kept| - 1];
      used := used - cost(last);
      evicted := evicted + cost(last);
    }
  }

  /** The newest lines while they fit, and at least `minTurns` of them; the newest is taken whatever it costs. Without
    * a budget it is the last `minTurns`, or all of them when that is 0. */
  method FillRecentTurns(cost: Cost, turns: seq<string>, budget: int, minTurns: nat) returns (kept: seq<string>)
    ensures |kept| <= |turns| && kept == turns[|turns| - |kept|..]
    ensures |kept| >= if minTurns <= |turns| then minTurns else |turns|
    ensures budget > 0 && |kept| < |turns| ==> Total(cost, turns[|turns| - |kept| - 1..]) > budget
    ensures budget > 0 && |kept| > minTurns && |kept| > 1 ==> Total(cost, kept) <= budget
    ensures budget <= 0 ==> |kept| == if 0 < minTurns <= |turns| then minTurns else |turns|
  {
    if turns == [] {
      return [];
    }
    if budget <= 0 {
      return if 0 < minTurns <= |turns| then turns[|turns| - minTurns..] else turns;
    }
    kept := [];
    var used := 0;
    var i := |turns|;
    while i > 0
      invariant 0 <= i <= |turns| && kept == turns[i..] && used == Total(cost, kept)
      invariant |kept| > minTurns && |kept| > 1 ==> used <= budget
    {
      var line := turns[i - 1];
      assert turns[i - 1..] == [line] + turns[i..];
      TotalSum(cost, [line], turns[i..]);
      if kept != [] && used + cost(line) > budget && |kept| >= minTurns {
        return;
      }
      kept := [line] + kept;
      used := used + cost(line);
      i := i - 1;
    }
  }
}
