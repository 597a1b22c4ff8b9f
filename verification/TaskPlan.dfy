/** The planner's waves: which task runs when, which never can, and when a plan is one chain. */
module TaskPlan {
  datatype Task = Task(id: string, action: string, agent: string, query: string, deps: seq<string>)

  predicate Distinct(tasks: seq<Task>) {
    forall j, k :: 0 <= j < k < |tasks| ==> tasks[j].id != tasks[k].id
  }

  // ---------------------------------------------------------------- what a wave number means

  ghost predicate Known(tasks: seq<Task>, id: string) {
    exists t :: t in tasks && t.id == id
  }

  /** A chain of n dependencies starts at this task. */
  ghost predicate Chain(tasks: seq<Task>, id: string, n: nat)
    decreases n
  {
    exists t :: t in tasks && t.id == id && (n == 0 || exists d :: d in t.deps && Chain(tasks, d, n - 1))
  }

  ghost predicate LongestChain(tasks: seq<Task>, id: string, n: nat) {
    Chain(tasks, id, n) && !Chain(tasks, id, n + 1)
  }

  /** Each task of s waits for something that is no task, or for a task of s. */
  ghost predicate Waits(tasks: seq<Task>, s: set<string>) {
    forall t :: t in tasks && t.id in s ==> exists d :: d in t.deps && (d in s || !Known(tasks, d))
  }

  /** A wave for some ids: after all they depend on, and right after one of them. */
  ghost predicate Placed(tasks: seq<Task>, wave: map<string, nat>) {
    && (forall id :: id in wave ==> Known(tasks, id))
    && (forall t, d :: t in tasks && t.id in wave && d in t.deps ==> d in wave && wave[d] < wave[t.id])
    && (forall t :: t in tasks && t.id in wave && wave[t.id] > 0 ==>
          exists d :: d in t.deps && d in wave && wave[d] == wave[t.id] - 1)
  }

  lemma ChainOfTask(tasks: seq<Task>, t: Task, n: nat)
    requires Distinct(tasks) && t in tasks
    ensures Chain(tasks, t.id, n) <==> n == 0 || exists d :: d in t.deps && Chain(tasks, d, n - 1)
  {
    OneTask(tasks, t);
  }

  lemma DependenciesBelow(tasks: seq<Task>, wave: map<string, nat>, t: Task)
    requires Placed(tasks, wave) && t in tasks && t.id in wave
    ensures forall d :: d in t.deps ==> d in wave && wave[d] < wave[t.id]
    ensures wave[t.id] > 0 ==> exists d :: d in t.deps && d in wave && wave[d] == wave[t.id] - 1
  {
  }

  lemma PlacedTask(tasks: seq<Task>, wave: map<string, nat>, id: string) returns (t: Task)
    requires Placed(tasks, wave) && id in wave
    ensures t in tasks && t.id == id
  {
    assert Known(tasks, id);
    t :| t in tasks && t.id == id;
  }

  lemma {:induction false} NoChainIsLonger(tasks: seq<Task>, wave: map<string, nat>, id: string, n: nat)
    requires Distinct(tasks) && Placed(tasks, wave) && id in wave && Chain(tasks, id, n)
    ensures n <= wave[id]
    decreases n
  {
    hide *;
    var t := PlacedTask(tasks, wave, id);
    ChainOfTask(tasks, t, n);
    DependenciesBelow(tasks, wave, t);
    if n > 0 {
      var d :| d in t.deps && Chain(tasks, d, n - 1);
      NoChainIsLonger(tasks, wave, d, n - 1);
    }
  }

  lemma {:induction false} SomeChainIsAsLong(tasks: seq<Task>, wave: map<string, nat>, id: string, n: nat)
    requires Distinct(tasks) && Placed(tasks, wave) && id in wave && n <= wave[id]
    ensures Chain(tasks, id, n)
    decreases n
  {
    hide *;
    var t := PlacedTask(tasks, wave, id);
    ChainOfTask(tasks, t, n);
    DependenciesBelow(tasks, wave, t);
    if n > 0 {
      var d :| d in t.deps && d in wave && wave[d] == wave[id] - 1;
      SomeChainIsAsLong(tasks, wave, d, n - 1);
    }
  }

  lemma ChainsReachTheWave(tasks: seq<Task>, wave: map<string, nat>, id: string, n: nat)
    requires Distinct(tasks) && Placed(tasks, wave) && id in wave
    ensures Chain(tasks, id, n) <==> n <= wave[id]
  {
    hide *;
    if Chain(tasks, id, n) {
      NoChainIsLonger(tasks, wave, id, n);
    }
    if n <= wave[id] {
      SomeChainIsAsLong(tasks, wave, id, n);
    }
  }

  lemma OneTask(tasks: seq<Task>, t: Task)
    requires Distinct(tasks) && t in tasks
    ensures forall u :: u in tasks && u.id == t.id ==> u == t
  {
  }

  /** The wave is the length of the longest chain of dependencies. */
  lemma WaveIsLongestChain(tasks: seq<Task>, wave: map<string, nat>, id: string)
    requires Distinct(tasks) && Placed(tasks, wave) && id in wave
    ensures LongestChain(tasks, id, wave[id])
  {
    ChainsReachTheWave(tasks, wave, id, wave[id]);
    ChainsReachTheWave(tasks, wave, id, wave[id] + 1);
  }

  /** No waiting set holds a placed task. */
  lemma {:induction false} WaitingIsNeverPlaced(tasks: seq<Task>, wave: map<string, nat>, s: set<string>, id: string)
    requires Placed(tasks, wave) && Waits(tasks, s) && id in wave
    ensures id !in s
    decreases wave[id]
  {
    if id in s {
      var t :| t in tasks && t.id == id;
      var d :| d in t.deps && (d in s || !Known(tasks, d));
      WaitingIsNeverPlaced(tasks, wave, s, d);
    }
  }

  // ---------------------------------------------------------------- the planner's loop

  function Ready(tasks: seq<Task>, completed: set<string>): (r: seq<Task>)
    ensures forall t :: t in r <==> t in tasks && forall d :: d in t.deps ==> d in completed
    ensures |r| <= |tasks|
  {
    if tasks == [] then []
    else (if forall d :: d in tasks[0].deps ==> d in completed then [tasks[0]] else []) + Ready(tasks[1..], completed)
  }

  function Rest(tasks: seq<Task>, completed: set<string>): (r: seq<Task>)
    ensures forall t :: t in r <==> t in tasks && t.id !in completed
    ensures |r| <= |tasks| && ((exists t :: t in tasks && t.id in completed) ==> |r| < |tasks|)
  {
    if tasks == [] then [] else (if tasks[0].id in completed then [] else [tasks[0]]) + Rest(tasks[1..], completed)
  }

  function Ids(tasks: seq<Task>): set<string> {
    set t | t in tasks :: t.id
  }

  /** Groups that hold the placed tasks, each at its wave. */
  ghost predicate Grouped(tasks: seq<Task>, wave: map<string, nat>, groups: seq<seq<Task>>) {
    && (forall g, t :: 0 <= g < |groups| && t in groups[g] ==> t in tasks && t.id in wave && wave[t.id] == g)
    && (forall t :: t in tasks && t.id in wave ==> wave[t.id] < |groups| && t in groups[wave[t.id]])
  }

  /** What is left has waited at least until the last wave. */
  ghost predicate Late(tasks: seq<Task>, wave: map<string, nat>, last: int) {
    forall t :: t in tasks && t.id !in wave && last >= 0 ==>
      exists d :: d in t.deps && (d !in wave || wave[d] == last)
  }

  /** The groups but the stuck one. */
  function Ordered(groups: seq<seq<Task>>, stuck: seq<Task>): seq<seq<Task>>
    requires stuck != [] ==> |groups| > 0
  {
    if stuck == [] then groups else groups[..|groups| - 1]
  }

  /** What the planner's groups are: the waves, and last, if any task can never run, those tasks. */
  ghost predicate Waves(tasks: seq<Task>, groups: seq<seq<Task>>, stuck: seq<Task>, wave: map<string, nat>)
    requires stuck != [] ==> |groups| > 0
  {
    && Placed(tasks, wave)
    && Grouped(tasks, wave, Ordered(groups, stuck))
    && (forall t :: t in stuck <==> t in tasks && t.id !in wave)
    && Waits(tasks, Ids(stuck))
  }

  lemma ReadyIds(tasks: seq<Task>, remaining: seq<Task>, ready: seq<Task>)
    requires Distinct(tasks) && forall t :: t in ready ==> t in remaining
    requires forall t :: t in remaining ==> t in tasks
    ensures forall t :: t in tasks ==> (t.id in Ids(ready) <==> t in ready)
  {
    forall t | t in tasks && t.id in Ids(ready) ensures t in ready {
      var u :| u in ready && u.id == t.id;
      OneTask(tasks, t);
    }
  }

  function Extended(wave: map<string, nat>, ids: set<string>, n: nat): map<string, nat> {
    wave + map id | id in ids :: n
  }

  lemma ExtendedKeys(wave: map<string, nat>, ids: set<string>, n: nat)
    ensures Extended(wave, ids, n).Keys == wave.Keys + ids
  {
  }

  lemma NextPlaced(tasks: seq<Task>, wave: map<string, nat>, n: nat, remaining: seq<Task>, ready: seq<Task>)
    requires Placed(tasks, wave) && Late(tasks, wave, n - 1) && forall id :: id in wave ==> wave[id] < n
    requires forall t :: t in remaining <==> t in tasks && t.id !in wave
    requires forall t :: t in ready <==> t in remaining && forall d :: d in t.deps ==> d in wave
    requires forall t :: t in tasks ==> (t.id in Ids(ready) <==> t in ready)
    ensures Placed(tasks, Extended(wave, Ids(ready), n)) && Late(tasks, Extended(wave, Ids(ready), n), n)
  {
    var wave' := Extended(wave, Ids(ready), n);
    forall t | t in tasks && t.id in wave' && wave'[t.id] > 0
      ensures exists d :: d in t.deps && d in wave' && wave'[d] == wave'[t.id] - 1
    {
      if t in ready {
        var d :| d in t.deps && (d !in wave || wave[d] == n - 1);
        assert wave'[d] == n - 1;
      } else {
        var d :| d in t.deps && d in wave && wave[d] == wave[t.id] - 1;
        assert d !in Ids(ready) by { Unready(tasks, wave, remaining, ready, d); }
      }
    }
    forall t | t in tasks && t.id !in wave' ensures exists d :: d in t.deps && (d !in wave' || wave'[d] == n) {
      assert t in remaining && t !in ready;
      var d :| d in t.deps && d !in wave;
    }
    forall t, d | t in tasks && t.id in wave' && d in t.deps ensures d in wave' && wave'[d] < wave'[t.id] {
      if t in ready { assert d in wave; } else { assert d in wave; }
      Unready(tasks, wave, remaining, ready, d);
    }
  }

  lemma Unready(tasks: seq<Task>, wave: map<string, nat>, remaining: seq<Task>, ready: seq<Task>, d: string)
    requires forall t :: t in remaining <==> t in tasks && t.id !in wave
    requires forall t :: t in ready ==> t in remaining
    requires d in wave
    ensures d !in Ids(ready)
  {
  }

  lemma NextGrouped(tasks: seq<Task>, wave: map<string, nat>, groups: seq<seq<Task>>, ready: seq<Task>)
    requires Grouped(tasks, wave, groups)
    requires forall t :: t in ready ==> t in tasks && t.id !in wave
    requires forall t :: t in tasks ==> (t.id in Ids(ready) <==> t in ready)
    ensures Grouped(tasks, Extended(wave, Ids(ready), |groups|), groups + [ready])
  {
    var n, wave' := |groups|, Extended(wave, Ids(ready), |groups|);
    forall g, t | 0 <= g < n + 1 && t in (groups + [ready])[g] ensures t in tasks && t.id in wave' && wave'[t.id] == g {
      if g < n { assert t in groups[g]; } else { assert t in ready; }
    }
    forall t | t in tasks && t.id in wave' ensures wave'[t.id] < n + 1 && t in (groups + [ready])[wave'[t.id]] {
      if t in ready { assert (groups + [ready])[n] == ready; } else { assert t in groups[wave[t.id]]; }
    }
  }

  /** Where the loop stands between two waves. */
  ghost predicate Between(tasks: seq<Task>, wave: map<string, nat>, groups: seq<seq<Task>>) {
    Placed(tasks, wave) && Grouped(tasks, wave, groups) && Late(tasks, wave, |groups| - 1)
    && forall id :: id in wave ==> wave[id] < |groups|
  }

  lemma NextWave(tasks: seq<Task>, wave: map<string, nat>, groups: seq<seq<Task>>, remaining: seq<Task>, ready: seq<Task>)
    requires Distinct(tasks) && Between(tasks, wave, groups)
    requires forall t :: t in remaining <==> t in tasks && t.id !in wave
    requires ready == Ready(remaining, wave.Keys)
    ensures Between(tasks, Extended(wave, Ids(ready), |groups|), groups + [ready])
  {
    hide Placed, Grouped, Late, Ready, Ids, Distinct;
    ReadyIds(tasks, remaining, ready);
    NextPlaced(tasks, wave, |groups|, remaining, ready);
    NextGrouped(tasks, wave, groups, ready);
  }

  lemma NothingYet(tasks: seq<Task>)
    ensures Between(tasks, map[], [])
  {
  }

  lemma TaskOf(tasks: seq<Task>, id: string) returns (t: Task)
    requires Known(tasks, id)
    ensures t in tasks && t.id == id
  {
    t :| t in tasks && t.id == id;
  }

  /** When nothing is ready, what remains waits for itself or for nothing there is. */
  lemma NothingReady(tasks: seq<Task>, wave: map<string, nat>, groups: seq<seq<Task>>, remaining: seq<Task>)
    requires Distinct(tasks) && Between(tasks, wave, groups) && remaining != []
    requires forall t :: t in remaining <==> t in tasks && t.id !in wave
    requires Ready(remaining, wave.Keys) == []
    ensures Waves(tasks, groups + [remaining], remaining, wave)
  {
    assert Ordered(groups + [remaining], remaining) == groups;
    ReadyIds(tasks, remaining, remaining);
    forall t | t in tasks && t.id in Ids(remaining)
      ensures exists d :: d in t.deps && (d in Ids(remaining) || !Known(tasks, d))
    {
      assert t in remaining && t !in Ready(remaining, wave.Keys);
      var d :| d in t.deps && d !in wave;
      if Known(tasks, d) { var u :| u in tasks && u.id == d; assert u in remaining; }
    }
  }

  /** What remains, and gets shorter. */
  lemma RestOfTasks(tasks: seq<Task>, remaining: seq<Task>, completed: set<string>, ready: seq<Task>)
    requires forall t :: t in remaining <==> t in tasks && t.id !in completed
    requires ready != [] && ready == Ready(remaining, completed)
    ensures var done := completed + Ids(ready);
            && (forall t :: t in Rest(remaining, done) <==> t in tasks && t.id !in done)
            && |Rest(remaining, done)| < |remaining|
  {
    assert ready[0] in ready && ready[0] in remaining && ready[0].id in Ids(ready);
  }

  /** When nothing remains, the waves are all there is. */
  lemma NothingLeft(tasks: seq<Task>, wave: map<string, nat>, groups: seq<seq<Task>>)
    requires Between(tasks, wave, groups) && forall t :: t in tasks ==> t.id in wave
    ensures Waves(tasks, groups, [], wave)
  {
    assert Ids([]) == {};
  }

  // ---------------------------------------------------------------- whatever the ids

  /** Everything the task depends on has a wave before the n-th. */
  predicate ReadyBy(t: Task, wave: map<string, nat>, n: nat) {
    forall d | d in t.deps :: d in wave && wave[d] < n
  }

  ghost predicate ReadyAt(tasks: seq<Task>, wave: map<string, nat>, id: string, n: nat) {
    exists t :: t in tasks && t.id == id && ReadyBy(t, wave, n)
  }

  /** Every id has the first wave by which a task of that id was ready, and no wave when none ever is. */
  ghost predicate Earliest(tasks: seq<Task>, wave: map<string, nat>) {
    && (forall id | id in wave :: ReadyAt(tasks, wave, id, wave[id]))
    && (forall t, n: nat | t in tasks && ReadyBy(t, wave, n) :: t.id in wave && wave[t.id] <= n)
  }

  /** A group holds the tasks of its wave that were ready by then. */
  ghost predicate Filled(tasks: seq<Task>, wave: map<string, nat>, groups: seq<seq<Task>>) {
    && (forall id | id in wave :: wave[id] < |groups|)
    && (forall g, t | 0 <= g < |groups| ::
          t in groups[g] <==> t in tasks && t.id in wave && wave[t.id] == g && ReadyBy(t, wave, g))
  }

  /** What the planner's groups are, whether or not two tasks share an id. */
  ghost predicate Planned(tasks: seq<Task>, groups: seq<seq<Task>>, stuck: seq<Task>, wave: map<string, nat>)
    requires stuck != [] ==> |groups| > 0
  {
    && Earliest(tasks, wave) && Filled(tasks, wave, Ordered(groups, stuck))
    && forall t :: t in stuck <==> t in tasks && t.id !in wave
  }

  /** So far: nothing without a wave was ready by any wave there is. */
  ghost predicate PlannedSoFar(tasks: seq<Task>, wave: map<string, nat>, groups: seq<seq<Task>>) {
    && (forall id | id in wave :: ReadyAt(tasks, wave, id, wave[id]))
    && (forall t, n: nat | t in tasks && n < |groups| && ReadyBy(t, wave, n) :: t.id in wave && wave[t.id] <= n)
    && Filled(tasks, wave, groups)
  }

  lemma StillReady(t: Task, wave: map<string, nat>, ids: set<string>, n: nat, m: nat)
    requires m <= n && forall id :: id in ids ==> id !in wave
    ensures ReadyBy(t, Extended(wave, ids, n), m) <==> ReadyBy(t, wave, m)
  {
  }

  lemma StillReadyAt(tasks: seq<Task>, wave: map<string, nat>, ids: set<string>, n: nat, id: string, m: nat)
    requires m <= n && forall x :: x in ids ==> x !in wave
    ensures ReadyAt(tasks, wave, id, m) ==> ReadyAt(tasks, Extended(wave, ids, n), id, m)
  {
    hide ReadyBy, Extended;
    if ReadyAt(tasks, wave, id, m) {
      var t :| t in tasks && t.id == id && ReadyBy(t, wave, m);
      StillReady(t, wave, ids, n, m);
    }
  }

  lemma NextReadyAt(tasks: seq<Task>, wave: map<string, nat>, n: nat, remaining: seq<Task>, ready: seq<Task>, id: string)
    requires ready == Ready(remaining, wave.Keys) && id in Extended(wave, Ids(ready), n)
    requires forall t :: t in remaining <==> t in tasks && t.id !in wave
    requires forall x :: x in wave ==> wave[x] < n && ReadyAt(tasks, wave, x, wave[x])
    ensures var wave' := Extended(wave, Ids(ready), n); ReadyAt(tasks, wave', id, wave'[id])
  {
    if id in Ids(ready) {
      var t :| t in ready && t.id == id;
      assert ReadyBy(t, wave, n);
      hide Ready, ReadyBy;
      StillReady(t, wave, Ids(ready), n, n);
      assert ReadyBy(t, Extended(wave, Ids(ready), n), n);
    } else {
      hide Ready, ReadyBy, ReadyAt;
      StillReadyAt(tasks, wave, Ids(ready), n, id, wave[id]);
    }
  }

  /** All of one wave is done before the next. */
  lemma NextUnder(tasks: seq<Task>, wave: map<string, nat>, groups: seq<seq<Task>>, remaining: seq<Task>, ready: seq<Task>)
    requires PlannedSoFar(tasks, wave, groups) && ready == Ready(remaining, wave.Keys)
    requires forall t :: t in remaining <==> t in tasks && t.id !in wave
    ensures PlannedSoFar(tasks, Extended(wave, Ids(ready), |groups|), groups + [ready])
  {
    var n, ids := |groups|, Ids(ready);
    var wave' := Extended(wave, ids, n);
    assert forall t :: t in ready <==> t in remaining && ReadyBy(t, wave, n);
    hide Ready, ReadyBy;
    forall t, m: nat | m <= n
      ensures ReadyBy(t, wave', m) <==> ReadyBy(t, wave, m)
    {
      StillReady(t, wave, ids, n, m);
    }
    forall id | id in wave'
      ensures ReadyAt(tasks, wave', id, wave'[id])
    {
      NextReadyAt(tasks, wave, n, remaining, ready, id);
    }
    hide ReadyAt;
    NextFilled(tasks, wave, groups, ready);
  }

  lemma NextFilled(tasks: seq<Task>, wave: map<string, nat>, groups: seq<seq<Task>>, ready: seq<Task>)
    requires Filled(tasks, wave, groups)
    requires forall t :: t in ready <==> t in tasks && t.id !in wave && ReadyBy(t, wave, |groups|)
    requires forall t, m: nat | m <= |groups| ::
      ReadyBy(t, Extended(wave, Ids(ready), |groups|), m) <==> ReadyBy(t, wave, m)
    ensures Filled(tasks, Extended(wave, Ids(ready), |groups|), groups + [ready])
  {
    hide ReadyBy;
    var n, wave' := |groups|, Extended(wave, Ids(ready), |groups|);
    forall g, t | 0 <= g < n + 1
      ensures t in (groups + [ready])[g] <==> t in tasks && t.id in wave' && wave'[t.id] == g && ReadyBy(t, wave', g)
    {
      if g < n {
        assert (groups + [ready])[g] == groups[g];
      } else {
        assert t in ready ==> t.id in Ids(ready);
      }
    }
  }

  lemma NothingPlanned(tasks: seq<Task>)
    ensures PlannedSoFar(tasks, map[], [])
  {
  }

  /** When nothing is ready any more, what has no wave never will have one. */
  lemma PlanIsDone(tasks: seq<Task>, wave: map<string, nat>, groups: seq<seq<Task>>, remaining: seq<Task>)
    requires PlannedSoFar(tasks, wave, groups) && Ready(remaining, wave.Keys) == []
    requires forall t :: t in remaining <==> t in tasks && t.id !in wave
    ensures Planned(tasks, if remaining == [] then groups else groups + [remaining], remaining, wave)
  {
    var all := if remaining == [] then groups else groups + [remaining];
    assert Ordered(all, remaining) == groups;
    forall t, n: nat | t in tasks && ReadyBy(t, wave, n)
      ensures t.id in wave && wave[t.id] <= n
    {
      assert t !in Ready(remaining, wave.Keys);
      if n >= |groups| {
        assert t.id in wave;
      }
    }
  }

  /** The plan settles the waves: there is one way to give every id its first wave. */
  lemma {:induction false} WavesAgree(tasks: seq<Task>, a: map<string, nat>, b: map<string, nat>, id: string, n: nat)
    requires Earliest(tasks, a) && Earliest(tasks, b) && id in a && a[id] <= n
    ensures id in b && b[id] == a[id]
    decreases n
  {
    assert ReadyAt(tasks, a, id, a[id]);
    var t :| t in tasks && t.id == id && ReadyBy(t, a, a[id]);
    forall d | d in t.deps
      ensures d in b && b[d] < a[id]
    {
      WavesAgree(tasks, a, b, d, a[id] - 1);
    }
    assert ReadyBy(t, b, a[id]);
    if b[id] < a[id] {
      WavesAgree(tasks, b, a, id, b[id]);
    }
  }

  lemma OneWaveEach(tasks: seq<Task>, a: map<string, nat>, b: map<string, nat>)
    requires Earliest(tasks, a) && Earliest(tasks, b)
    ensures a == b
  {
    forall id | id in a || id in b
      ensures id in a && id in b && a[id] == b[id]
    {
      if id in a { WavesAgree(tasks, a, b, id, a[id]); } else { WavesAgree(tasks, b, a, id, b[id]); }
    }
  }

  /** Tasks in execution waves; what can never run comes last, together. */
  method ExecutionGroups(tasks: seq<Task>) returns (groups: seq<seq<Task>>, stuck: seq<Task>, ghost wave: map<string, nat>)
    ensures stuck != [] ==> |groups| > 0 && groups[|groups| - 1] == stuck
    ensures Planned(tasks, groups, stuck, wave)
    ensures Distinct(tasks) ==> Waves(tasks, groups, stuck, wave)
    ensures forall g :: 0 <= g < |groups| ==> groups[g] != []
  {
    var completed: set<string> := {};
    groups, stuck := [], [];
    var remaining := tasks;
    wave := map[];
    NothingYet(tasks);
    NothingPlanned(tasks);
    hide *;
    while remaining != []
      invariant wave.Keys == completed
      invariant forall t :: t in remaining <==> t in tasks && t.id !in completed
      invariant PlannedSoFar(tasks, wave, groups)
      invariant Distinct(tasks) ==> Between(tasks, wave, groups)
      invariant forall g :: 0 <= g < |groups| ==> groups[g] != []
      decreases |remaining|
    {
      var ready := Ready(remaining, completed);
      if ready == [] {
        PlanIsDone(tasks, wave, groups, remaining);
        if Distinct(tasks) { NothingReady(tasks, wave, groups, remaining); }
        stuck := remaining;
        groups := groups + [remaining];
        return;
      }
      NextUnder(tasks, wave, groups, remaining, ready);
      if Distinct(tasks) { NextWave(tasks, wave, groups, remaining, ready); }
      RestOfTasks(tasks, remaining, completed, ready);
      ExtendedKeys(wave, Ids(ready), |groups|);
      wave := Extended(wave, Ids(ready), |groups|);
      groups := groups + [ready];
      completed := completed + Ids(ready);
      remaining := Rest(remaining, completed);
    }
    NoneIsReady(wave.Keys);
    PlanIsDone(tasks, wave, groups, remaining);
    if Distinct(tasks) { NothingLeft(tasks, wave, groups); }
  }

  lemma NoneIsReady(completed: set<string>)
    ensures Ready([], completed) == []
  {
  }

  /** The plan drops a task, into no group at all, exactly when its id has a wave by which the task itself was not ready:
      one of the same id was, and everything that named the id counted it as done. */
  lemma DroppedIff(tasks: seq<Task>, groups: seq<seq<Task>>, stuck: seq<Task>, wave: map<string, nat>, t: Task)
    requires (stuck != [] ==> |groups| > 0 && groups[|groups| - 1] == stuck) && Planned(tasks, groups, stuck, wave)
    requires t in tasks
    ensures (forall g :: 0 <= g < |groups| ==> t !in groups[g])
            <==> t.id in wave && !ReadyBy(t, wave, wave[t.id])
                 && exists u :: u in tasks && u.id == t.id && u != t && ReadyBy(u, wave, wave[t.id])
  {
    hide ReadyBy;
    var ordered := Ordered(groups, stuck);
    assert forall g :: 0 <= g < |ordered| ==> ordered[g] == groups[g];
    if t.id !in wave {
      assert t in groups[|groups| - 1];
    } else {
      assert ReadyAt(tasks, wave, t.id, wave[t.id]);
      var u :| u in tasks && u.id == t.id && ReadyBy(u, wave, wave[t.id]);
      forall g | 0 <= g < |groups| && t in groups[g]
        ensures ReadyBy(t, wave, wave[t.id])
      {
        if g < |ordered| { assert t in ordered[g]; }
      }
      if ReadyBy(t, wave, wave[t.id]) {
        assert t in ordered[wave[t.id]];
      }
    }
  }

  /** Two tasks of one id, the second waiting for a third: it ends in no group of any plan. */
  lemma OneOfTwins(groups: seq<seq<Task>>, stuck: seq<Task>, wave: map<string, nat>)
    requires stuck != [] ==> |groups| > 0 && groups[|groups| - 1] == stuck
    requires Planned([Task("a", "read", "agent", "q", []), Task("a", "write", "agent", "q", ["b"]),
                      Task("b", "read", "agent", "q", [])], groups, stuck, wave)
    ensures forall g :: 0 <= g < |groups| ==> Task("a", "write", "agent", "q", ["b"]) !in groups[g]
  {
    var first, twin := Task("a", "read", "agent", "q", []), Task("a", "write", "agent", "q", ["b"]);
    var tasks := [first, twin, Task("b", "read", "agent", "q", [])];
    assert first in tasks && twin in tasks && ReadyBy(first, wave, 0);
    assert "a" in wave && wave["a"] == 0;
    assert "b" in twin.deps && !ReadyBy(twin, wave, 0);
    hide Planned;
    DroppedIff(tasks, groups, stuck, wave, twin);
  }

  /** Read off the waves: every task is in exactly one group, ordered by its longest chain, and
      the last group is the largest set that waits for itself or for nothing there is. */
  lemma WavesMean(tasks: seq<Task>, groups: seq<seq<Task>>, stuck: seq<Task>, wave: map<string, nat>)
    requires Distinct(tasks) && (stuck != [] ==> |groups| > 0 && groups[|groups| - 1] == stuck)
    requires Waves(tasks, groups, stuck, wave)
    ensures forall t :: t in tasks ==> exists g :: 0 <= g < |groups| && t in groups[g]
    ensures forall g, h, t :: 0 <= g < |groups| && 0 <= h < |groups| && t in groups[g] && t in groups[h] ==> g == h
    ensures forall g, t :: 0 <= g < |Ordered(groups, stuck)| && t in groups[g] ==> LongestChain(tasks, t.id, g)
    ensures Waits(tasks, Ids(stuck))
    ensures forall s :: Waits(tasks, s) && (forall id :: id in s ==> Known(tasks, id)) ==> s <= Ids(stuck)
  {
    var ordered := Ordered(groups, stuck);
    assert forall g :: 0 <= g < |ordered| ==> ordered[g] == groups[g];
    forall t | t in tasks ensures exists g :: 0 <= g < |groups| && t in groups[g] {
      if t.id in wave { assert t in groups[wave[t.id]]; } else { assert t in groups[|groups| - 1]; }
    }
    forall g, h, t | 0 <= g < |groups| && 0 <= h < |groups| && t in groups[g] && t in groups[h] ensures g == h {
      InOneGroup(tasks, groups, stuck, wave, g, t);
      InOneGroup(tasks, groups, stuck, wave, h, t);
    }
    forall g, t | 0 <= g < |ordered| && t in groups[g] ensures LongestChain(tasks, t.id, g) {
      assert t in ordered[g];
      WaveIsLongestChain(tasks, wave, t.id);
    }
    forall s | Waits(tasks, s) && (forall id :: id in s ==> Known(tasks, id)) ensures s <= Ids(stuck) {
      LargestWaiting(tasks, stuck, wave, s);
    }
  }

  lemma InOneGroup(tasks: seq<Task>, groups: seq<seq<Task>>, stuck: seq<Task>, wave: map<string, nat>, g: nat, t: Task)
    requires stuck != [] ==> |groups| > 0 && groups[|groups| - 1] == stuck
    requires Waves(tasks, groups, stuck, wave) && g < |groups| && t in groups[g]
    ensures g == if t.id in wave then wave[t.id] else |groups| - 1
  {
    var ordered := Ordered(groups, stuck);
    if g < |ordered| { assert t in ordered[g]; } else { assert t in stuck; }
  }

  lemma LargestWaiting(tasks: seq<Task>, stuck: seq<Task>, wave: map<string, nat>, s: set<string>)
    requires Placed(tasks, wave) && Waits(tasks, s) && forall id :: id in s ==> Known(tasks, id)
    requires forall t :: t in stuck <==> t in tasks && t.id !in wave
    ensures s <= Ids(stuck)
  {
    forall id | id in s ensures id in Ids(stuck) {
      if id in wave { WaitingIsNeverPlaced(tasks, wave, s, id); }
      var t :| t in tasks && t.id == id;
      assert t in stuck;
    }
  }

  // ---------------------------------------------------------------- collapsing a chain

  predicate OnePerWave(groups: seq<seq<Task>>) {
    forall g :: 0 <= g < |groups| ==> |groups[g]| <= 1
  }

  predicate OneAgent(tasks: seq<Task>) {
    forall j, k :: 0 <= j < |tasks| && 0 <= k < |tasks| ==> tasks[j].agent == tasks[k].agent
  }

  /** A plan of single-task waves, all of one agent, becomes one task; no other plan changes. */
  method CollapseSameAgentChain(query: string, tasks: seq<Task>, defaultAgent: string)
    returns (r: seq<Task>, ghost groups: seq<seq<Task>>, ghost stuck: seq<Task>, ghost wave: map<string, nat>)
    ensures stuck != [] ==> |groups| > 0 && groups[|groups| - 1] == stuck
    ensures Planned(tasks, groups, stuck, wave)
    ensures Distinct(tasks) ==> Waves(tasks, groups, stuck, wave)
    ensures |tasks| <= 1 || (exists t, u :: t in tasks && u in tasks && t.agent != u.agent) ==> r == tasks
    ensures r == tasks
            || r == [Task("t1", "answer", if tasks[0].agent == "" then defaultAgent else tasks[0].agent, query, [])]
    ensures |tasks| > 1 && (forall t, u :: t in tasks && u in tasks ==> t.agent == u.agent) ==>
              (|r| == 1 <==> forall g :: g in groups ==> |g| <= 1)
  {
    assert forall j :: 0 <= j < |tasks| ==> tasks[j] in tasks;
    var waves, rest, number := ExecutionGroups(tasks);
    groups, stuck, wave := waves, rest, number;
    if |tasks| <= 1 { return tasks, groups, stuck, wave; }
    if !OneAgent(tasks) || !OnePerWave(waves) { return tasks, groups, stuck, wave; }
    r := [Task("t1", "answer", if tasks[0].agent == "" then defaultAgent else tasks[0].agent, query, [])];
  }

  /** What justifies the collapse: in single-task waves, each task that can run, after the first,
      depends directly on the one before. */
  lemma SingleWavesAreAChain(tasks: seq<Task>, groups: seq<seq<Task>>, stuck: seq<Task>, wave: map<string, nat>, g: nat)
    requires Distinct(tasks) && (stuck != [] ==> |groups| > 0 && groups[|groups| - 1] == stuck)
    requires Waves(tasks, groups, stuck, wave) && OnePerWave(groups)
    requires 1 <= g < |Ordered(groups, stuck)| && groups[g] != []
    ensures |groups[g - 1]| == 1 && groups[g - 1][0].id in groups[g][0].deps
  {
    var ordered := Ordered(groups, stuck);
    assert ordered[g] == groups[g] && ordered[g - 1] == groups[g - 1];
    OneBefore(tasks, wave, ordered, g);
  }

  lemma OneBefore(tasks: seq<Task>, wave: map<string, nat>, ordered: seq<seq<Task>>, g: nat)
    requires Placed(tasks, wave) && Grouped(tasks, wave, ordered) && 1 <= g < |ordered|
    requires |ordered[g]| == 1 && |ordered[g - 1]| <= 1
    ensures |ordered[g - 1]| == 1 && ordered[g - 1][0].id in ordered[g][0].deps
  {
    hide Known;
    var t := ordered[g][0];
    assert t in ordered[g];
    assert t in tasks && t.id in wave && wave[t.id] == g;
    var d :| d in t.deps && d in wave && wave[d] == g - 1;
    var u := TaskOf(tasks, d);
    assert u in ordered[g - 1];
    assert ordered[g - 1] == [u];
  }
}
