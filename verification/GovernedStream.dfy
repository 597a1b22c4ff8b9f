/** A capability's stream under governance: each item is judged before the consumer gets its copy, and the stream's
  * end is put on record. The provider, the kernel and the consumer may do anything. */
module GovernedStream {
  import opened Records

  type Item = string
  type Digest = string

  datatype Pull = Next(item: Item) | Exhausted | Fault(cause: string)

  /** What became of POST_TOOL_USE on an item: its value was not of the declared type and never reached the hooks,
    * or they were asked and left a copy for the consumer, or none. */
  datatype Judgement = Mismatch | Judged(copy: Option<Item>)

  datatype Event =
    | Pulled(pull: Pull)
    | Posted(k: nat, item: Item, judgement: Judgement)
    | Gave(k: nat, copy: Item)
    | End(digests: seq<Digest>, partial: bool, error: Option<string>)

  type Log = seq<Event>

  datatype World = World(
    pull: Log -> Pull,
    judge: (Log, nat, Item) -> Judgement,
    endRefused: Log -> bool,
    digest: Item -> Digest)

  /** A generator that has not been started, is waiting at a yield, or has ended. */
  datatype Phase = Fresh | Waiting | Closed

  datatype Stream = Stream(log: Log, digests: seq<Digest>, phase: Phase)

  datatype Given = Yielded(copy: Item) | Finished | Thrown(cause: string)

  const DENIED := "CapabilityDenied"

  // ---- One step of the generator, specified -------------------------------------------------------------------

  function Ended(st: Stream, partial: bool, error: Option<string>): Stream {
    Stream(st.log + [End(st.digests, partial, error)], st.digests, Closed)
  }

  function Pulling(w: World, st: Stream): (Stream, Given) {
    if st.phase == Closed then (st, Finished)
    else
      var pull := w.pull(st.log);
      var log := st.log + [Pulled(pull)];
      match pull
      case Exhausted =>
        (Ended(st.(log := log), false, None), if w.endRefused(log) then Thrown(DENIED) else Finished)
      case Fault(cause) => (Ended(st.(log := log), true, Some(cause)), Thrown(cause))
      case Next(item) =>
        var k, digests := |st.digests|, st.digests + [w.digest(item)];
        var judgement := w.judge(log, k, item);
        var judged := log + [Posted(k, item, judgement)];
        if judgement.Judged? && judgement.copy.Some?
        then (Stream(judged + [Gave(k, judgement.copy.value)], digests, Waiting), Yielded(judgement.copy.value))
        else (Ended(Stream(judged, digests, Waiting), true, Some(DENIED)), Thrown(DENIED))
  }

  /** The consumer closes the stream, or throws into it; one never started has no body to unwind. */
  function Stopping(st: Stream, cause: string): Stream {
    match st.phase
    case Fresh => st.(phase := Closed)
    case Waiting => Ended(st, true, Some(cause))
    case Closed => st
  }

  class GovernedStream {
    const world: World
    var log: Log
    var digests: seq<Digest>
    var phase: Phase

    constructor (world: World)
      ensures this.world == world && Now() == Stream([], [], Fresh)
    {
      this.world := world;
      log, digests, phase := [], [], Fresh;
    }

    ghost function Now(): Stream
      reads this
    {
      Stream(log, digests, phase)
    }

    method PutEnd(partial: bool, error: Option<string>) returns (refused: bool)
      modifies this
      ensures Now() == Ended(old(Now()), partial, error)
      ensures refused == world.endRefused(old(log))
    {
      refused := world.endRefused(log);
      log := log + [End(digests, partial, error)];
      phase := Closed;
    }

    method Pull() returns (given: Given)
      modifies this
      ensures (Now(), given) == Pulling(world, old(Now()))
    {
      if phase == Closed {
        return Finished;
      }
      var pull := world.pull(log);
      log := log + [Pulled(pull)];
      if pull.Exhausted? {
        var refused := PutEnd(false, None);
        return if refused then Thrown(DENIED) else Finished;
      }
      if pull.Fault? {
        var _ := PutEnd(true, Some(pull.cause));
        return Thrown(pull.cause);
      }
      digests := digests + [world.digest(pull.item)];
      var k := |digests| - 1;
      var judgement := world.judge(log, k, pull.item);
      log := log + [Posted(k, pull.item, judgement)];
      if judgement.Mismatch? || judgement.copy.None? {
        phase := Waiting;
        var _ := PutEnd(true, Some(DENIED));
        return Thrown(DENIED);
      }
      log := log + [Gave(k, judgement.copy.value)];
      phase := Waiting;
      return Yielded(judgement.copy.value);
    }

    method Stop(cause: string)
      modifies this
      ensures Now() == Stopping(old(Now()), cause)
    {
      if phase == Fresh {
        phase := Closed;
      } else if phase == Waiting {
        var _ := PutEnd(true, Some(cause));
      }
    }
  }

  // ---- Runs ---------------------------------------------------------------------------------------------------

  datatype Act = Ask | Leave(cause: string)

  function Acted(w: World, st: Stream, act: Act): Stream {
    match act
    case Ask => Pulling(w, st).0
    case Leave(cause) => Stopping(st, cause)
  }

  function Run(w: World, acts: seq<Act>): Stream {
    if acts == [] then Stream([], [], Fresh) else Acted(w, Run(w, acts[..|acts| - 1]), acts[|acts| - 1])
  }

  /** The items pulled from the provider, in order. */
  function Items(log: Log): seq<Item> {
    if log == [] then []
    else Items(log[..|log| - 1]) +
         (var e := log[|log| - 1]; if e.Pulled? && e.pull.Next? then [e.pull.item] else [])
  }

  function Digests(w: World, items: seq<Item>): (ds: seq<Digest>)
    ensures |ds| == |items|
  {
    seq(|items|, k requires 0 <= k < |items| => w.digest(items[k]))
  }

  function Ends(log: Log): nat {
    if log == [] then 0 else Ends(log[..|log| - 1]) + (if log[|log| - 1].End? then 1 else 0)
  }

  /** The consumer got copy `k` right after POST_TOOL_USE left it for item `k`, the item just pulled. */
  predicate GivenJudged(log: Log, i: nat)
    requires i < |log|
  {
    log[i].Gave? ==>
      && i >= 2 && log[i - 2].Pulled? && log[i - 2].pull.Next?
      && log[i].k == |Items(log[..i - 2])|
      && log[i - 1] == Posted(log[i].k, log[i - 2].pull.item, Judged(Some(log[i].copy)))
  }

  /** What holds of a stream after any run of pulls and stops. */
  ghost predicate Sound(w: World, st: Stream) {
    && st.digests == Digests(w, Items(st.log))
    && (st.phase == Fresh ==> st.log == [])
    && (st.phase == Waiting ==> st.log != [] && st.log[|st.log| - 1].Gave?)
    && Ends(st.log) == (if st.phase == Closed && st.log != [] then 1 else 0)
    && (st.phase == Closed && st.log != [] ==> EndsWell(st))
    && (forall i :: 0 <= i < |st.log| ==> GivenJudged(st.log, i))
  }

  /** The end record is the last event, lists the digests of all items pulled, and is marked partial, with what
    * stopped the stream, exactly when the event before it is not the provider running out. */
  predicate EndsWell(st: Stream) {
    && |st.log| >= 2
    && var last := st.log[|st.log| - 1];
    && last.End? && last.digests == st.digests
    && (last.partial <==> st.log[|st.log| - 2] != Pulled(Exhausted))
    && (last.partial <==> last.error.Some?)
  }

  lemma OneMore(log: Log, e: Event)
    ensures Items(log + [e]) == if e.Pulled? && e.pull.Next? then Items(log) + [e.pull.item] else Items(log)
    ensures Ends(log + [e]) == Ends(log) + (if e.End? then 1 else 0)
  {
    assert (log + [e])[..|log|] == log;
  }

  lemma OneMoreJudged(log: Log, e: Event)
    requires forall i :: 0 <= i < |log| ==> GivenJudged(log, i)
    requires !e.Gave? || GivenJudged(log + [e], |log|)
    ensures forall i :: 0 <= i < |log + [e]| ==> GivenJudged(log + [e], i)
  {
    forall i | 0 <= i < |log|
      ensures GivenJudged(log + [e], i)
    {
      assert GivenJudged(log, i);
      if log[i].Gave? {
        assert (log + [e])[..i - 2] == log[..i - 2];
      }
    }
  }

  lemma JustJudged(log: Log, item: Item, copy: Item)
    ensures var k := |Items(log)|;
      GivenJudged(log + [Pulled(Next(item))] + [Posted(k, item, Judged(Some(copy)))] + [Gave(k, copy)], |log| + 2)
  {
    var k := |Items(log)|;
    var all := log + [Pulled(Next(item))] + [Posted(k, item, Judged(Some(copy)))] + [Gave(k, copy)];
    assert all[..|log|] == log;
  }

  lemma EndedIsSound(w: World, st: Stream, partial: bool, error: Option<string>)
    requires st.log != [] && st.digests == Digests(w, Items(st.log)) && Ends(st.log) == 0
    requires forall i :: 0 <= i < |st.log| ==> GivenJudged(st.log, i)
    requires partial <==> st.log[|st.log| - 1] != Pulled(Exhausted)
    requires partial <==> error.Some?
    ensures Sound(w, Ended(st, partial, error))
  {
    OneMore(st.log, End(st.digests, partial, error));
    OneMoreJudged(st.log, End(st.digests, partial, error));
  }

  lemma OneMoreDigest(w: World, items: seq<Item>, item: Item)
    ensures Digests(w, items + [item]) == Digests(w, items) + [w.digest(item)]
  {
  }

  lemma ItemIsSound(w: World, st: Stream, item: Item)
    requires Sound(w, st) && st.phase != Closed && w.pull(st.log) == Next(item)
    ensures Sound(w, Pulling(w, st).0)
  {
    hide Digests, Items, Ends, GivenJudged;
    var log := st.log + [Pulled(Next(item))];
    var k, digests := |st.digests|, st.digests + [w.digest(item)];
    var judgement := w.judge(log, k, item);
    var judged := log + [Posted(k, item, judgement)];
    var pulled, posted := Pulled(Next(item)), Posted(k, item, judgement);
    OneMore(st.log, pulled);
    OneMoreJudged(st.log, pulled);
    OneMore(log, posted);
    OneMoreJudged(log, posted);
    OneMoreDigest(w, Items(st.log), item);
    if judgement.Judged? && judgement.copy.Some? {
      var gave := Gave(k, judgement.copy.value);
      OneMore(judged, gave);
      JustJudged(st.log, item, judgement.copy.value);
      OneMoreJudged(judged, gave);
    } else {
      EndedIsSound(w, Stream(judged, digests, Waiting), true, Some(DENIED));
    }
  }

  lemma ActKeepsSound(w: World, st: Stream, act: Act)
    requires Sound(w, st)
    ensures Sound(w, Acted(w, st, act))
  {
    hide Digests;
    match act
    case Leave(cause) =>
      if st.phase == Waiting {
        EndedIsSound(w, st, true, Some(cause));
      }
    case Ask =>
      if st.phase != Closed {
        var pull := w.pull(st.log);
        if pull.Next? {
          ItemIsSound(w, st, pull.item);
        } else {
          OneMore(st.log, Pulled(pull));
          OneMoreJudged(st.log, Pulled(pull));
          var error := if pull.Fault? then Some(pull.cause) else None;
          EndedIsSound(w, st.(log := st.log + [Pulled(pull)]), pull.Fault?, error);
        }
      }
  }

  /** After any run of pulls and stops: the consumer got an item only after POST_TOOL_USE left it a copy of that very
    * item, and a stream that was pulled at all and has ended left one end record, its last event, listing the digests
    * of every item pulled in order, partial exactly when the provider had not run out. */
  lemma {:induction false} RunIsSound(w: World, acts: seq<Act>)
    ensures Sound(w, Run(w, acts))
  {
    if acts != [] {
      RunIsSound(w, acts[..|acts| - 1]);
      ActKeepsSound(w, Run(w, acts[..|acts| - 1]), acts[|acts| - 1]);
    }
  }

  lemma {:induction false} PulledAtAll(w: World, acts: seq<Act>)
    ensures Run(w, acts).log != [] <==> acts != [] && acts[0].Ask?
    ensures Run(w, acts).phase == Fresh <==> acts == []
  {
    if |acts| == 1 {
      assert acts[..0] == [];
    } else if acts != [] {
      var front := acts[..|acts| - 1];
      PulledAtAll(w, front);
      assert front[0] == acts[0];
      if !acts[0].Ask? {
        LeftIsClosed(w, front);
      }
    }
  }

  lemma {:induction false} LeftIsClosed(w: World, acts: seq<Act>)
    requires acts != [] && acts[0].Leave?
    ensures Run(w, acts) == Stream([], [], Closed)
  {
    if |acts| == 1 {
      assert acts[..0] == [];
    } else {
      assert acts[..|acts| - 1][0] == acts[0];
      LeftIsClosed(w, acts[..|acts| - 1]);
    }
  }

  /** A stream leaves exactly one end record when it has ended, except when its consumer left before the first pull:
    * then the generator's body never ran and there is none. Before it has ended there is none either. */
  lemma OneEndRecordIff(w: World, acts: seq<Act>)
    ensures Ends(Run(w, acts).log)
         == if Run(w, acts).phase == Closed && acts != [] && acts[0].Ask? then 1 else 0
  {
    RunIsSound(w, acts);
    PulledAtAll(w, acts);
  }

  /** A stream left before its first pull has ended and has no end record. */
  lemma LeftUnpulled(w: World, cause: string)
    ensures var st := Run(w, [Leave(cause)]);
            st.phase == Closed && Ends(st.log) == 0
  {
    LeftIsClosed(w, [Leave(cause)]);
  }

  /** Once ended, a stream stays as it is. */
  lemma {:induction false} EndedStays(w: World, acts: seq<Act>, more: seq<Act>)
    requires Run(w, acts).phase == Closed
    ensures Run(w, acts + more) == Run(w, acts)
  {
    if more == [] {
      assert acts + more == acts;
    } else {
      var front := more[..|more| - 1];
      EndedStays(w, acts, front);
      assert (acts + more)[..|acts + more| - 1] == acts + front;
    }
  }

  // ---- What the consumer is told ------------------------------------------------------------------------------

  /** One pull of a stream not yet ended, told from the log: an item comes with the copy the log ends with; else the log
    * ends with the end record, and the consumer is told what stopped the stream, or nothing when the provider ran out
    * and the hooks let it end. */
  lemma PullIsTold(w: World, st: Stream)
    requires st.phase != Closed
    ensures var (after, given) := Pulling(w, st);
      var n := |after.log|;
      && n >= |st.log| + 2 && after.log[..|st.log|] == st.log && after.log[|st.log|] == Pulled(w.pull(st.log))
      && match after.log[n - 1]
         case Gave(_, copy) => given == Yielded(copy) && after.phase == Waiting
         case End(_, partial, error) =>
           && after.phase == Closed
           && (partial <==> !w.pull(st.log).Exhausted?)
           && (partial ==> match w.pull(st.log)
                           case Fault(cause) => error == Some(cause) && given == Thrown(cause)
                           case _ => error == Some("CapabilityDenied") && given == Thrown("CapabilityDenied"))
           && (!partial ==>
                 && error == None
                 && given == if w.endRefused(after.log[..n - 1]) then Thrown("CapabilityDenied") else Finished)
         case _ => false
  {
    var (after, _) := Pulling(w, st);
    assert after.log[..|after.log| - 1] == st.log + [Pulled(w.pull(st.log))] || w.pull(st.log).Next?;
  }

  /** An item pulled is put to POST_TOOL_USE at once, under its number, and passes exactly when it is of the declared
    * type and a copy is left. */
  lemma ItemIsJudged(w: World, st: Stream, item: Item)
    requires st.phase != Closed && w.pull(st.log) == Next(item)
    ensures var (after, given) := Pulling(w, st);
      var judgement := w.judge(st.log + [Pulled(Next(item))], |st.digests|, item);
      && |after.log| == |st.log| + 3 && after.log[|st.log| + 1] == Posted(|st.digests|, item, judgement)
      && (given.Yielded? <==> judgement.Judged? && judgement.copy.Some?)
      && (given.Yielded? ==> judgement == Judged(Some(given.copy)))
      && after.digests == st.digests + [w.digest(item)]
  {
  }

  /** Leaving a stream that waits ends it on record, with the reason, and everything pulled so far. */
  lemma LeavingIsOnRecord(w: World, st: Stream, cause: string)
    ensures var after := Acted(w, st, Leave(cause));
      && after.phase == Closed
      && after.log == if st.phase == Waiting then st.log + [End(st.digests, true, Some(cause))] else st.log
  {
  }
}
