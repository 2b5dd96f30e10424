/** Tasks that await one leaf at a time (a CoAP request, a timer, the next stream item) on the
    executor, with each poll atomic. Every live task has exactly one source that will get it
    polled: an entry in the id queue or a registered waker that can fire. */
module WakeSources {
  import opened Wrappers
  import opened Futures
  import Executor

  const QUEUE_MAX := Executor.QUEUE_MAX

  datatype Kind = Request | Timer | Item

  /** What a live task waits for: nothing yet, a request's future, a timer, a stream's next item.
      polls counts the polls of the current leaf. */
  datatype Leaf =
    | Fresh
    | Requesting(stage: Stage<bool>, polls: nat)
    | Timing(fired: bool, polls: nat)
    | Streaming(ready: bool, polls: nat)
  {
    /** Is a waker registered that can still fire? */
    predicate Armed() {
      match this
      case Fresh => false
      case Requesting(stage, _) => stage.Registered?
      case Timing(fired, _) => !fired
      case Streaming(ready, _) => !ready
    }
  }

  /** finished logs each leaf that became ready with its number of polls; early is set if a
      timer's future completed before the timer fired. */
  datatype State = State(
    leaf: map<nat, Leaf>, queue: seq<nat>, nextId: nat, finished: seq<(nat, Kind, nat)>, early: bool)

  /** Fire is the environment using a registered waker. In Turn the popped task runs until it
      blocks on a new leaf, or to its end. */
  datatype Event = Spawn | Fire(id: nat) | Turn(next: Option<Kind>)

  const START := State(map[], [], 0, [], false)

  function KindOf(l: Leaf): Kind
    requires !l.Fresh?
  {
    match l
    case Requesting(_, _) => Request
    case Timing(_, _) => Timer
    case Streaming(_, _) => Item
  }

  /** A leaf after its first poll: its waker is registered. */
  function FirstPolled(k: Kind): Leaf {
    match k
    case Request => Requesting(Polled(Stage<bool>.New).value.0, 1)
    case Timer => Timing(false, 1)
    case Item => Streaming(false, 1)
  }

  function Blocked(s: State, id: nat, next: Option<Kind>): State {
    match next
    case None => s.(leaf := s.leaf - {id})
    case Some(k) => s.(leaf := s.leaf[id := FirstPolled(k)])
  }

  function Finish(s: State, id: nat, k: Kind, polls: nat, next: Option<Kind>): State {
    Blocked(s.(finished := s.finished + [(id, k, polls)]), id, next)
  }

  /** Poll a task's leaf. A request goes by its future; a timer polled again reports completion
      whether it fired or not; a stream without an item registers once more. */
  function PollTask(s: State, id: nat, next: Option<Kind>): Outcome<State>
    requires id in s.leaf
  {
    match s.leaf[id]
    case Fresh => Ok(Blocked(s, id, next))
    case Requesting(stage, n) =>
      var (stage', result) :- Polled(stage);
      Ok(if result.Some? then Finish(s, id, Request, n + 1, next)
         else s.(leaf := s.leaf[id := Requesting(stage', n + 1)]))
    case Timing(fired, n) => Ok(Finish(s.(early := s.early || !fired), id, Timer, n + 1, next))
    case Streaming(ready, n) =>
      Ok(if ready then Finish(s, id, Item, n + 1, next) else s.(leaf := s.leaf[id := Streaming(false, n + 1)]))
  }

  /** The environment answers a request, lets a timer fire or adds an item. */
  function Fired(l: Leaf): Outcome<Leaf> {
    match l
    case Fresh => Panic
    case Requesting(stage, n) =>
      var stage' :- Resolving(stage, true);
      Ok(Requesting(stage', n))
    case Timing(fired, n) => if fired then Panic else Ok(Timing(true, n))
    case Streaming(ready, n) => if ready then Panic else Ok(Streaming(true, n))
  }

  function Step(s: State, e: Event): Outcome<State> {
    match e
    case Spawn =>
      if |s.queue| >= QUEUE_MAX then Panic else
      Ok(s.(leaf := s.leaf[s.nextId := Fresh], queue := s.queue + [s.nextId], nextId := s.nextId + 1))
    case Fire(id) =>
      if id !in s.leaf || |s.queue| >= QUEUE_MAX then Panic else
      var l :- Fired(s.leaf[id]);
      Ok(s.(leaf := s.leaf[id := l], queue := s.queue + [id]))
    case Turn(next) =>
      if s.queue == [] then Ok(s) else
      var s1 := s.(queue := s.queue[1..]);
      if s.queue[0] in s.leaf then PollTask(s1, s.queue[0], next) else Ok(s1)
  }

  /** At most 100 tasks live at once; only registered wakers fire. */
  predicate Allowed(s: State, e: Event) {
    match e
    case Spawn => |s.leaf| < QUEUE_MAX
    case Fire(id) => id in s.leaf && s.leaf[id].Armed()
    case Turn(_) => true
  }

  function Run(s: State, es: seq<Event>): Outcome<State>
    decreases |es|
  {
    if es == [] then Ok(s) else
    var s1 :- Step(s, es[0]);
    Run(s1, es[1..])
  }

  predicate AllowedRun(s: State, es: seq<Event>)
    decreases |es|
  {
    es != [] ==> Allowed(s, es[0]) && (Step(s, es[0]).Ok? ==> AllowedRun(Step(s, es[0]).value, es[1..]))
  }

  /** A task has a queue entry exactly if no waker of its can fire, and never two. */
  ghost predicate OneSource(s: State) {
    && (forall j, k :: 0 <= j < k < |s.queue| ==> s.queue[j] != s.queue[k])
    && (forall k :: 0 <= k < |s.queue| ==> s.queue[k] in s.leaf)
    && (forall id :: id in s.leaf ==> (id in s.queue <==> !s.leaf[id].Armed()))
  }

  /** A leaf between its two polls. */
  predicate OncePolled(l: Leaf) {
    match l
    case Fresh => true
    case Requesting(stage, n) => n == 1 && (stage.Registered? || stage == Resolved(Some(true)))
    case Timing(_, n) => n == 1
    case Streaming(_, n) => n == 1
  }

  ghost predicate Inv(s: State) {
    && OneSource(s)
    && |s.leaf| <= QUEUE_MAX
    && (forall id :: id in s.leaf ==> id < s.nextId)
    && (forall id :: id in s.leaf ==> OncePolled(s.leaf[id]))
    && (forall k :: 0 <= k < |s.finished| ==> s.finished[k].2 == 2)
    && !s.early
  }

  /** Distinct entries of a set are no more than the set has elements. */
  lemma {:induction false} DistinctFit(q: seq<nat>, all: set<nat>)
    requires forall j, k :: 0 <= j < k < |q| ==> q[j] != q[k]
    requires forall k :: 0 <= k < |q| ==> q[k] in all
    ensures |q| <= |all|
  {
    if q == [] {
    } else {
      var rest := q[1..];
      assert forall k :: 0 <= k < |rest| ==> rest[k] == q[k + 1] != q[0];
      DistinctFit(rest, all - {q[0]});
    }
  }

  /** A task that is not queued leaves room in the queue. */
  lemma RoomForOneMore(s: State, id: nat)
    requires Inv(s) && id in s.leaf && id !in s.queue
    ensures |s.queue| < QUEUE_MAX
  {
    DistinctFit(s.queue + [id], s.leaf.Keys);
    assert |s.leaf.Keys| == |s.leaf|;
  }

  lemma FreshIsFine()
    ensures OncePolled(Fresh)
  {
  }

  lemma SpawnKeeps(s: State)
    requires Inv(s) && |s.leaf| < QUEUE_MAX
    ensures Step(s, Spawn).Ok? && Inv(Step(s, Spawn).value)
  {
    hide OncePolled, Fired, PollTask;
    DistinctFit(s.queue, s.leaf.Keys);
    assert |s.leaf.Keys| == |s.leaf|;
    assert OncePolled(Fresh) by { FreshIsFine(); }
    var s' := Step(s, Spawn).value;
    assert s'.queue[|s.queue|] == s.nextId;
    assert s'.leaf.Keys == s.leaf.Keys + {s.nextId};
    assert |s'.leaf.Keys| == |s'.leaf|;
  }

  lemma FireKeeps(s: State, id: nat)
    requires Inv(s) && id in s.leaf && s.leaf[id].Armed()
    ensures Step(s, Fire(id)).Ok? && Inv(Step(s, Fire(id)).value)
  {
    RoomForOneMore(s, id);
    var s' := Step(s, Fire(id)).value;
    assert s'.queue[|s.queue|] == id;
    assert s'.leaf.Keys == s.leaf.Keys;
    assert |s'.leaf.Keys| == |s'.leaf| && |s.leaf.Keys| == |s.leaf|;
  }

  /** The id queue takes 100 ids: a waker that fires, or a task that is spawned, panics exactly if
      100 are waiting. */
  lemma OverflowsExactly(s: State, id: nat)
    requires id in s.leaf && s.leaf[id].Armed()
    ensures Step(s, Fire(id)).Panic? <==> |s.queue| >= 100
    ensures Step(s, Spawn).Panic? <==> |s.queue| >= 100
  {
  }

  /** What a poll does that no waker asked for: it panics on a request, it completes a timer that has
      not fired, and it leaves a stream's waker registered. None of it happens under Inv. */
  lemma UnaskedPoll(s: State, id: nat, next: Option<Kind>)
    requires id in s.leaf && s.leaf[id].Armed()
    ensures PollTask(s, id, next).Panic? <==> s.leaf[id].Requesting?
    ensures s.leaf[id].Timing? ==> PollTask(s, id, next).value.early
    ensures s.leaf[id].Streaming? ==>
              var s' := PollTask(s, id, next).value;
              && id in s'.leaf && s'.leaf[id].Armed() && s'.finished == s.finished
              && s'.leaf[id].Streaming? && s'.leaf[id].polls == s.leaf[id].polls + 1
  {
  }

  lemma BlockedHasOneSource(s: State, next: Option<Kind>)
    requires OneSource(s) && s.queue != []
    ensures OneSource(Blocked(s.(queue := s.queue[1..]), s.queue[0], next))
  {
    var id, rest := s.queue[0], s.queue[1..];
    var s' := Blocked(s.(queue := rest), id, next);
    Executor.HeadIsOnce(s.queue);
    forall x | x in s'.leaf ensures x in rest <==> !s'.leaf[x].Armed() {
      if x != id {
        assert s'.leaf[x] == s.leaf[x];
        assert x in rest <==> x in s.queue;
      }
    }
    forall k | 0 <= k < |rest| ensures rest[k] in s'.leaf {
      assert rest[k] in rest;
      assert rest[k] == s.queue[k + 1];
    }
  }

  /** Polling a leaf whose waker fired finishes it with its second poll. */
  lemma SecondPollFinishes(s: State, id: nat, next: Option<Kind>)
    requires id in s.leaf && OncePolled(s.leaf[id]) && !s.leaf[id].Armed()
    ensures PollTask(s, id, next).Ok?
    ensures var s' := PollTask(s, id, next).value;
            && s'.leaf == Blocked(s, id, next).leaf && s'.queue == s.queue && s'.nextId == s.nextId && s'.early == s.early
            && (s'.finished == s.finished || (!s.leaf[id].Fresh? && s'.finished == s.finished + [(id, KindOf(s.leaf[id]), 2)]))
            && (s'.finished == s.finished ==> s.leaf[id].Fresh?)
  {
  }

  lemma TurnKeeps(s: State, next: Option<Kind>)
    requires Inv(s)
    ensures Step(s, Turn(next)).Ok? && Inv(Step(s, Turn(next)).value)
  {
    hide OneSource, PollTask;
    if s.queue != [] {
      var id := s.queue[0];
      HeadIsRunnable(s);
      SecondPollFinishes(s.(queue := s.queue[1..]), id, next);
      var s' := Step(s, Turn(next)).value;
      var b := Blocked(s.(queue := s.queue[1..]), id, next);
      BlockedHasOneSource(s, next);
      SameSources(b, s');
      SubsetSize(s'.leaf.Keys, s.leaf.Keys);
      assert |s'.leaf.Keys| == |s'.leaf| && |s.leaf.Keys| == |s.leaf|;
    }
  }

  lemma HeadIsRunnable(s: State)
    requires OneSource(s) && s.queue != []
    ensures s.queue[0] in s.leaf && !s.leaf[s.queue[0]].Armed()
  {
  }

  lemma SameSources(s: State, s': State)
    requires OneSource(s) && s'.leaf == s.leaf && s'.queue == s.queue
    ensures OneSource(s')
  {
  }

  lemma SubsetSize(a: set<nat>, b: set<nat>)
    requires a <= b
    ensures |a| <= |b|
  {
    assert b == a + (b - a);
  }

  lemma {:induction false} RunKeeps(s: State, es: seq<Event>)
    requires Inv(s) && AllowedRun(s, es)
    ensures Run(s, es).Ok? && Inv(Run(s, es).value)
    decreases |es|
  {
    if es == [] {
    } else {
      match es[0] {
        case Spawn => SpawnKeeps(s);
        case Fire(id) => FireKeeps(s, id);
        case Turn(next) => TurnKeeps(s, next);
      }
      RunKeeps(Step(s, es[0]).value, es[1..]);
    }
  }

  /** Over every run with at most 100 live tasks: the id queue never overflows, no request is
      polled while registered, every leaf that became ready took exactly two polls, and no
      timer completed before it fired. */
  lemma PolledExactlyTwice(es: seq<Event>)
    requires AllowedRun(START, es)
    ensures Run(START, es).Ok?
    ensures var s := Run(START, es).value;
            && OneSource(s)
            && |s.queue| <= |s.leaf| <= QUEUE_MAX
            && (forall k :: 0 <= k < |s.finished| ==> s.finished[k].2 == 2)
            && !s.early
  {
    RunKeeps(START, es);
    var s := Run(START, es).value;
    DistinctFit(s.queue, s.leaf.Keys);
    assert |s.leaf.Keys| == |s.leaf|;
  }

  // Every waker that fires gets its leaf finished, in order.

  /** The tasks whose wakers fired, in order, from the events alone. */
  function FiredIds(es: seq<Event>): seq<nat> {
    if es == [] then [] else (if es[0].Fire? then [es[0].id] else []) + FiredIds(es[1..])
  }

  function Ids(finished: seq<(nat, Kind, nat)>): seq<nat> {
    seq(|finished|, k requires 0 <= k < |finished| => finished[k].0)
  }

  /** The queued tasks whose leaf's waker fired. */
  function Woken(queue: seq<nat>, leaf: map<nat, Leaf>): seq<nat> {
    if queue == [] then [] else
    (if queue[0] in leaf && !leaf[queue[0]].Fresh? then [queue[0]] else []) + Woken(queue[1..], leaf)
  }

  lemma {:induction false} WokenAppend(queue: seq<nat>, id: nat, leaf: map<nat, Leaf>)
    ensures Woken(queue + [id], leaf) == Woken(queue, leaf) + (if id in leaf && !leaf[id].Fresh? then [id] else [])
  {
    if queue == [] {
      assert queue + [id] == [id] && [id][1..] == [];
    } else {
      assert (queue + [id])[1..] == queue[1..] + [id];
      WokenAppend(queue[1..], id, leaf);
    }
  }

  lemma {:induction false} WokenSame(queue: seq<nat>, leaf: map<nat, Leaf>, leaf': map<nat, Leaf>)
    requires forall k :: 0 <= k < |queue| ==> queue[k] in leaf && queue[k] in leaf' && leaf[queue[k]] == leaf'[queue[k]]
    ensures Woken(queue, leaf') == Woken(queue, leaf)
  {
    if queue == [] {
    } else {
      WokenSame(queue[1..], leaf, leaf');
    }
  }

  /** What finished, then what is due to finish. */
  ghost function Account(s: State): seq<nat> {
    Ids(s.finished) + Woken(s.queue, s.leaf)
  }

  lemma AccountSpawn(s: State)
    requires Inv(s) && |s.leaf| < QUEUE_MAX
    ensures Step(s, Spawn).Ok? && Account(Step(s, Spawn).value) == Account(s)
  {
    hide Woken, OncePolled, PollTask;
    SpawnKeeps(s);
    var s' := Step(s, Spawn).value;
    WokenSame(s.queue, s.leaf, s'.leaf);
    WokenAppend(s.queue, s.nextId, s'.leaf);
  }

  lemma AccountFire(s: State, id: nat)
    requires Inv(s) && id in s.leaf && s.leaf[id].Armed()
    ensures Step(s, Fire(id)).Ok? && Account(Step(s, Fire(id)).value) == Account(s) + [id]
  {
    hide Woken, PollTask;
    FireKeeps(s, id);
    var s' := Step(s, Fire(id)).value;
    WokenSame(s.queue, s.leaf, s'.leaf);
    WokenAppend(s.queue, id, s'.leaf);
  }

  lemma AccountTurn(s: State, next: Option<Kind>)
    requires Inv(s)
    ensures Step(s, Turn(next)).Ok? && Account(Step(s, Turn(next)).value) == Account(s)
  {
    hide PollTask, OncePolled;
    TurnKeeps(s, next);
    if s.queue != [] {
      var id, rest := s.queue[0], s.queue[1..];
      HeadIsRunnable(s);
      Executor.HeadIsOnce(s.queue);
      SecondPollFinishes(s.(queue := rest), id, next);
      var s' := Step(s, Turn(next)).value;
      forall k | 0 <= k < |rest| ensures rest[k] in s.leaf && rest[k] in s'.leaf && s.leaf[rest[k]] == s'.leaf[rest[k]] {
        assert rest[k] in rest && rest[k] == s.queue[k + 1];
      }
      WokenSame(rest, s.leaf, s'.leaf);
      if !s.leaf[id].Fresh? {
        assert Ids(s'.finished) == Ids(s.finished) + [id];
      }
    }
  }

  lemma {:induction false} RunAccounts(s: State, es: seq<Event>)
    requires Inv(s) && AllowedRun(s, es)
    ensures Run(s, es).Ok? && Account(Run(s, es).value) == Account(s) + FiredIds(es)
    decreases |es|
  {
    hide Inv, Account, Step;
    if es == [] {
    } else {
      match es[0] {
        case Spawn => { MaySpawn(s); AccountSpawn(s); SpawnKeeps(s); }
        case Fire(id) => { AccountFire(s, id); FireKeeps(s, id); }
        case Turn(next) => { AccountTurn(s, next); TurnKeeps(s, next); }
      }
      RunAccounts(Step(s, es[0]).value, es[1..]);
    }
  }

  lemma MaySpawn(s: State)
    requires Allowed(s, Spawn)
    ensures |s.leaf| < QUEUE_MAX
  {
  }

  /** Over every such run: the leaves that finished are those whose wakers fired, in the order in
      which these fired; those not finished yet are in the queue, in order. */
  lemma FiredLeavesFinish(es: seq<Event>)
    requires AllowedRun(START, es)
    ensures Run(START, es).Ok?
    ensures var s := Run(START, es).value; Ids(s.finished) + Woken(s.queue, s.leaf) == FiredIds(es)
    ensures Run(START, es).value.nextId == Spawns(es)
  {
    hide Run, FiredIds, AllowedRun;
    RunAccounts(START, es);
    CountsSpawns(START, es);
    assert Account(START) == [];
    assert [] + FiredIds(es) == FiredIds(es);
  }

  function Spawns(es: seq<Event>): nat {
    if es == [] then 0 else (if es[0].Spawn? then 1 else 0) + Spawns(es[1..])
  }

  /** Ids are handed out one after the other. */
  lemma {:induction false} CountsSpawns(s: State, es: seq<Event>)
    requires Run(s, es).Ok?
    ensures Run(s, es).value.nextId == s.nextId + Spawns(es)
    decreases |es|
  {
    if es == [] {
    } else {
      CountsSpawns(Step(s, es[0]).value, es[1..]);
    }
  }

  /** A turn polls the task at the head of the queue; it then awaits what it asked for, with its
      waker registered, or is gone; and what it awaited before is logged under its kind. */
  lemma TurnPollsHead(s: State, next: Option<Kind>)
    requires Inv(s) && s.queue != []
    ensures Step(s, Turn(next)).Ok?
    ensures var id, s' := s.queue[0], Step(s, Turn(next)).value;
            && id in s.leaf
            && (next.None? ==> id !in s'.leaf)
            && (next.Some? ==> id in s'.leaf && s'.leaf[id].Armed() && !s'.leaf[id].Fresh? && KindOf(s'.leaf[id]) == next.value)
            && s'.finished == if s.leaf[id].Fresh? then s.finished else s.finished + [(id, KindOf(s.leaf[id]), 2)]
  {
    hide PollTask;
    HeadIsRunnable(s);
    SecondPollFinishes(s.(queue := s.queue[1..]), s.queue[0], next);
  }
}
