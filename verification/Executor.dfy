/** The executor: a map of tasks, a bounded queue of task ids and a cache of wakers; and the
    simple executor, a plain deque, as its reference. */
module Executor {
  import opened Wrappers

  const QUEUE_MAX: nat := 100

  // Any tasks, any wakers, any run.

  /** done and polls are history: the tasks that returned Ready, and every poll with its
      outcome. woken holds the live tasks woken since they were last polled. */
  datatype State = State(
    tasks: set<nat>, queue: seq<nat>, cache: set<nat>, nextId: nat,
    done: set<nat>, woken: set<nat>, polls: seq<(nat, bool)>)

  /** Wake uses a waker handed out earlier, perhaps to a task that has finished since. Turn is
      one turn of the loop; wakes are the wakers used while a task is polled. */
  datatype Event = Spawn | Wake(id: nat) | Turn(ready: bool, wakes: seq<nat>)

  const START := State({}, [], {}, 0, {}, {}, [])

  function Push(s: State, id: nat): Outcome<State> {
    if |s.queue| < QUEUE_MAX
    then Ok(s.(queue := s.queue + [id], woken := if id in s.tasks then s.woken + {id} else s.woken))
    else Panic
  }

  function PushAll(s: State, ids: seq<nat>): Outcome<State>
    decreases |ids|
  {
    if ids == [] then Ok(s) else
    var s1 :- Push(s, ids[0]);
    PushAll(s1, ids[1..])
  }

  function StepTurn(s: State, ready: bool, wakes: seq<nat>): Outcome<State> {
    if s.queue == [] then Ok(s) else
    var id := s.queue[0];
    var popped := s.(queue := s.queue[1..]);
    if id !in s.tasks then Ok(popped) else
    var polled :- PushAll(popped.(cache := s.cache + {id}, woken := s.woken - {id}), wakes);
    var logged := polled.(polls := s.polls + [(id, ready)]);
    Ok(if ready
       then logged.(tasks := s.tasks - {id}, cache := polled.cache - {id}, woken := polled.woken - {id},
                    done := s.done + {id})
       else logged)
  }

  function Step(s: State, e: Event): Outcome<State> {
    match e
    case Spawn =>
      if s.nextId in s.tasks || |s.queue| >= QUEUE_MAX then Panic else
      Ok(s.(tasks := s.tasks + {s.nextId}, queue := s.queue + [s.nextId], nextId := s.nextId + 1))
    case Wake(id) => if id < s.nextId then Push(s, id) else Panic
    case Turn(ready, wakes) => StepTurn(s, ready, wakes)
  }

  function Run(s: State, es: seq<Event>): Outcome<State>
    decreases |es|
  {
    if es == [] then Ok(s) else
    var s1 :- Step(s, es[0]);
    Run(s1, es[1..])
  }

  ghost predicate Inv(s: State) {
    && s.cache <= s.tasks
    && s.tasks !! s.done
    && (forall id :: id in s.tasks || id in s.done ==> id < s.nextId)
    && (forall k :: 0 <= k < |s.polls| && s.polls[k].1 ==> s.polls[k].0 in s.done)
    && (forall j, k :: 0 <= j < k < |s.polls| && s.polls[j].1 ==> s.polls[j].0 != s.polls[k].0)
    && s.woken <= s.tasks
    && (forall id :: id in s.woken ==> id in s.queue)
  }

  lemma {:induction false} PushAllKeeps(s: State, ids: seq<nat>)
    requires Inv(s)
    ensures PushAll(s, ids).Ok? ==>
              var t := PushAll(s, ids).value;
              Inv(t) && t == s.(queue := t.queue, woken := t.woken) && s.queue <= t.queue
    decreases |ids|
  {
    if ids == [] {
    } else if Push(s, ids[0]).Ok? {
      PushAllKeeps(Push(s, ids[0]).value, ids[1..]);
    }
  }

  lemma StepKeeps(s: State, e: Event)
    requires Inv(s) && Step(s, e).Ok?
    ensures Inv(Step(s, e).value)
  {
    if e.Turn? && s.queue != [] && s.queue[0] in s.tasks {
      var id := s.queue[0];
      var polling := s.(queue := s.queue[1..], cache := s.cache + {id}, woken := s.woken - {id});
      PushAllKeeps(polling, e.wakes);
      var polled := PushAll(polling, e.wakes).value;
      assert forall k :: 0 <= k < |s.polls| && s.polls[k].1 ==> s.polls[k].0 != id;
    }
  }

  lemma {:induction false} RunKeeps(s: State, es: seq<Event>)
    requires Inv(s) && Run(s, es).Ok?
    ensures Inv(Run(s, es).value)
    decreases |es|
  {
    if es == [] {
    } else {
      StepKeeps(s, es[0]);
      RunKeeps(Step(s, es[0]).value, es[1..]);
    }
  }

  /** Over every run: cached wakers belong to live tasks, no task is polled after it was
      Ready, and a live task woken since its last poll is still queued. */
  lemma ExecutorIsSound(es: seq<Event>)
    requires Run(START, es).Ok?
    ensures var s := Run(START, es).value;
            && s.cache <= s.tasks
            && (forall j, k :: 0 <= j < k < |s.polls| && s.polls[j].1 ==> s.polls[j].0 != s.polls[k].0)
            && (forall id :: id in s.woken ==> id in s.tasks && id in s.queue)
  {
    RunKeeps(START, es);
  }

  // Every run against a ledger.

  /** The reference: every id ever pushed, in order, and how many were popped. Nothing is ever
      taken out; a turn reads the entry after the last one read. */
  datatype Ledger = Ledger(
    pushed: seq<nat>, popped: nat, live: set<nat>, spawned: nat, polls: seq<(nat, bool)>, woken: set<nat>)

  const EMPTY := Ledger([], 0, {}, 0, [], {})

  function LiveOf(ids: seq<nat>, live: set<nat>): set<nat> {
    set id | id in ids && id in live
  }

  /** At most 100 entries are waiting at any time. */
  function Entered(l: Ledger, ids: seq<nat>): Outcome<Ledger> {
    if |l.pushed| + |ids| <= l.popped + 100 then Ok(l.(pushed := l.pushed + ids)) else Panic
  }

  function LedgerTurn(l: Ledger, ready: bool, wakes: seq<nat>): Outcome<Ledger> {
    if l.popped >= |l.pushed| then Ok(l) else
    var id := l.pushed[l.popped];
    var read := l.(popped := l.popped + 1);
    if id !in l.live then Ok(read) else
    var done: set<nat> := if ready then {id} else {};
    Entered(read.(polls := l.polls + [(id, ready)], live := l.live - done,
                  woken := l.woken - {id} + LiveOf(wakes, l.live) - done), wakes)
  }

  function LedgerStep(l: Ledger, e: Event): Outcome<Ledger> {
    match e
    case Spawn => Entered(l.(live := l.live + {l.spawned}, spawned := l.spawned + 1), [l.spawned])
    case Wake(id) => if id < l.spawned then Entered(l.(woken := l.woken + LiveOf([id], l.live)), [id]) else Panic
    case Turn(ready, wakes) => LedgerTurn(l, ready, wakes)
  }

  function LedgerRun(l: Ledger, es: seq<Event>): Outcome<Ledger>
    decreases |es|
  {
    if es == [] then Ok(l) else
    var l1 :- LedgerStep(l, es[0]);
    LedgerRun(l1, es[1..])
  }

  ghost predicate HasPoll(polls: seq<(nat, bool)>, id: nat) {
    exists k :: 0 <= k < |polls| && polls[k].0 == id
  }

  /** The executor holds what the ledger says: the queue is what was pushed and not popped. */
  ghost predicate Mirrors(s: State, l: Ledger) {
    && l.popped <= |l.pushed|
    && s.queue == l.pushed[l.popped..] && |s.queue| <= 100
    && s.tasks == l.live && s.nextId == l.spawned && s.polls == l.polls && s.woken == l.woken
  }

  /** A live task that was never polled is queued; the wakers cached are those of the live tasks
      that were polled. */
  ghost predicate Standing(s: State) {
    && (forall id :: id in s.tasks ==> id < s.nextId)
    && (forall id :: id in s.tasks && !HasPoll(s.polls, id) ==> id in s.queue)
    && (forall id :: id in s.cache <==> id in s.tasks && HasPoll(s.polls, id))
    && (forall k :: 0 <= k < |s.polls| ==> s.polls[k].0 < s.nextId)
  }

  lemma {:induction false} PushAllIs(s: State, ids: seq<nat>)
    requires |s.queue| <= 100
    ensures PushAll(s, ids).Ok? <==> |s.queue| + |ids| <= 100
    ensures PushAll(s, ids).Ok? ==>
              PushAll(s, ids).value == s.(queue := s.queue + ids, woken := s.woken + LiveOf(ids, s.tasks))
    decreases |ids|
  {
    if ids == [] {
      assert s.queue + ids == s.queue;
    } else if Push(s, ids[0]).Ok? {
      PushAllIs(Push(s, ids[0]).value, ids[1..]);
      assert ids == [ids[0]] + ids[1..];
      assert LiveOf(ids, s.tasks) == LiveOf([ids[0]], s.tasks) + LiveOf(ids[1..], s.tasks);
      assert s.queue + ids == s.queue + [ids[0]] + ids[1..];
    }
  }

  lemma TurnMirrors(s: State, l: Ledger, ready: bool, wakes: seq<nat>)
    requires Mirrors(s, l)
    ensures StepTurn(s, ready, wakes).Ok? <==> LedgerTurn(l, ready, wakes).Ok?
    ensures StepTurn(s, ready, wakes).Ok? ==> Mirrors(StepTurn(s, ready, wakes).value, LedgerTurn(l, ready, wakes).value)
  {
    if s.queue != [] {
      var id := s.queue[0];
      assert id == l.pushed[l.popped] && s.queue[1..] == l.pushed[l.popped + 1..];
      PushAllIs(s.(queue := s.queue[1..], cache := s.cache + {id}, woken := s.woken - {id}), wakes);
      assert (l.pushed + wakes)[l.popped + 1..] == l.pushed[l.popped + 1..] + wakes;
    }
  }

  lemma StepMirrors(s: State, l: Ledger, e: Event)
    requires Mirrors(s, l) && Standing(s)
    ensures Step(s, e).Ok? <==> LedgerStep(l, e).Ok?
    ensures Step(s, e).Ok? ==> Mirrors(Step(s, e).value, LedgerStep(l, e).value)
  {
    hide StepTurn, LedgerTurn;
    match e {
      case Spawn => assert (l.pushed + [l.spawned])[l.popped..] == l.pushed[l.popped..] + [l.spawned];
      case Wake(id) => assert (l.pushed + [id])[l.popped..] == l.pushed[l.popped..] + [id];
      case Turn(ready, wakes) => TurnMirrors(s, l, ready, wakes);
    }
  }

  lemma MorePolls(polls: seq<(nat, bool)>, p: (nat, bool))
    ensures forall id :: HasPoll(polls + [p], id) <==> HasPoll(polls, id) || id == p.0
  {
    forall id ensures HasPoll(polls + [p], id) <==> HasPoll(polls, id) || id == p.0 {
      if HasPoll(polls, id) {
        var k :| 0 <= k < |polls| && polls[k].0 == id;
        assert (polls + [p])[k].0 == id;
      }
      assert (polls + [p])[|polls|] == p;
    }
  }

  lemma StandingTurn(s: State, ready: bool, wakes: seq<nat>)
    requires Standing(s) && |s.queue| <= 100 && StepTurn(s, ready, wakes).Ok?
    ensures Standing(StepTurn(s, ready, wakes).value)
  {
    hide HasPoll, PushAll;
    if s.queue != [] {
      var id := s.queue[0];
      assert s.queue == [id] + s.queue[1..];
      PushAllIs(s.(queue := s.queue[1..], cache := s.cache + {id}, woken := s.woken - {id}), wakes);
      MorePolls(s.polls, (id, ready));
    }
  }

  lemma StandingKeeps(s: State, e: Event)
    requires Standing(s) && |s.queue| <= 100 && Step(s, e).Ok?
    ensures Standing(Step(s, e).value)
  {
    hide HasPoll, StepTurn;
    match e {
      case Spawn =>
        var s' := Step(s, e).value;
        assert s'.queue[|s.queue|] == s.nextId;
        if HasPoll(s.polls, s.nextId) {
          PollsAreOld(s.polls, s.nextId);
          assert false;
        }
      case Wake(_) =>
      case Turn(ready, wakes) => StandingTurn(s, ready, wakes);
    }
  }

  lemma PollsAreOld(polls: seq<(nat, bool)>, n: nat)
    requires forall k :: 0 <= k < |polls| ==> polls[k].0 < n
    ensures !HasPoll(polls, n)
  {
  }

  lemma {:induction false} RunMirrors(s: State, l: Ledger, es: seq<Event>)
    requires Mirrors(s, l) && Standing(s)
    ensures Run(s, es).Ok? <==> LedgerRun(l, es).Ok?
    ensures Run(s, es).Ok? ==> Mirrors(Run(s, es).value, LedgerRun(l, es).value) && Standing(Run(s, es).value)
    decreases |es|
  {
    hide Standing, Step, LedgerStep;
    if es == [] {
    } else {
      StepMirrors(s, l, es[0]);
      if Step(s, es[0]).Ok? {
        StandingKeeps(s, es[0]);
        RunMirrors(Step(s, es[0]).value, LedgerStep(l, es[0]).value, es[1..]);
      }
    }
  }

  /** Over every run from boot the executor does what the ledger does: it panics on the same runs,
      polls the same ids with the same outcome in the same order (always the earliest one pushed
      and not yet popped, if it is alive), and its queue is what was pushed and not popped. A live
      task that was never polled is still queued, and the cached wakers are exactly those of the
      live tasks that were polled. */
  lemma ExecutorKeepsLedger(es: seq<Event>)
    ensures Run(START, es).Ok? <==> LedgerRun(EMPTY, es).Ok?
    ensures Run(START, es).Ok? ==>
              var s, l := Run(START, es).value, LedgerRun(EMPTY, es).value;
              && l.popped <= |l.pushed|
              && s.queue == l.pushed[l.popped..] && s.tasks == l.live && s.nextId == l.spawned && s.polls == l.polls
              && s.woken == l.woken
              && (forall id :: id in s.tasks && !HasPoll(s.polls, id) ==> id in s.queue)
              && (forall id :: id in s.cache <==> id in s.tasks && HasPoll(s.polls, id))
  {
    hide Run, LedgerRun;
    RunMirrors(START, EMPTY, es);
  }

  // First polls come in the order of spawning.

  /** In the queue, a task that was never polled comes before every task spawned after it. */
  ghost predicate OldFirst(queue: seq<nat>, polls: seq<(nat, bool)>, spawned: nat) {
    forall i: nat, b :: i < spawned && !HasPoll(polls, i) && 0 <= b < |queue| && i < queue[b] ==> i in queue[..b]
  }

  ghost predicate InSpawnOrder(polls: seq<(nat, bool)>) {
    forall i: nat, k :: 0 <= k < |polls| && i < polls[k].0 ==> HasPoll(polls[..k], i)
  }

  ghost predicate FirstComeInv(s: State) {
    && (forall i: nat :: i < s.nextId && !HasPoll(s.polls, i) ==> i in s.tasks && i in s.queue)
    && OldFirst(s.queue, s.polls, s.nextId)
    && InSpawnOrder(s.polls)
  }

  lemma OldFirstPush(queue: seq<nat>, polls: seq<(nat, bool)>, spawned: nat, ids: seq<nat>)
    requires OldFirst(queue, polls, spawned)
    requires forall i: nat :: i < spawned && !HasPoll(polls, i) ==> i in queue
    ensures OldFirst(queue + ids, polls, spawned)
  {
    hide HasPoll;
    var q := queue + ids;
    forall i: nat, b | i < spawned && !HasPoll(polls, i) && 0 <= b < |q| && i < q[b] ensures i in q[..b] {
      if b < |queue| {
        assert q[..b] == queue[..b];
      } else {
        assert q[..b] == queue + ids[..b - |queue|];
      }
    }
  }

  lemma OldFirstPop(queue: seq<nat>, polls: seq<(nat, bool)>, polls': seq<(nat, bool)>, spawned: nat)
    requires OldFirst(queue, polls, spawned) && queue != []
    requires forall i :: !HasPoll(polls', i) ==> !HasPoll(polls, i) && i != queue[0]
    ensures OldFirst(queue[1..], polls', spawned)
  {
    hide HasPoll;
    var q := queue[1..];
    forall i: nat, b | i < spawned && !HasPoll(polls', i) && 0 <= b < |q| && i < q[b] ensures i in q[..b] {
      assert q[b] == queue[b + 1];
      assert queue[..b + 1] == [queue[0]] + q[..b];
    }
  }

  lemma InOrderGrows(polls: seq<(nat, bool)>, p: (nat, bool))
    requires InSpawnOrder(polls) && forall i: nat :: i < p.0 ==> HasPoll(polls, i)
    ensures InSpawnOrder(polls + [p])
  {
    hide HasPoll;
    var ps := polls + [p];
    forall i: nat, k | 0 <= k < |ps| && i < ps[k].0 ensures HasPoll(ps[..k], i) {
      assert ps[..k] == polls[..k];
      assert polls[..|polls|] == polls;
    }
  }

  lemma FirstComeTurn(s: State, ready: bool, wakes: seq<nat>)
    requires FirstComeInv(s) && |s.queue| <= 100 && StepTurn(s, ready, wakes).Ok?
    requires forall k :: 0 <= k < |s.queue| ==> s.queue[k] < s.nextId
    ensures FirstComeInv(StepTurn(s, ready, wakes).value)
  {
    hide HasPoll, PushAll, OldFirst, InSpawnOrder;
    if s.queue != [] {
      var id, rest := s.queue[0], s.queue[1..];
      assert s.queue == [id] + rest;
      if id in s.tasks {
        var polls' := s.polls + [(id, ready)];
        MorePolls(s.polls, (id, ready));
        OldFirstPop(s.queue, s.polls, polls', s.nextId);
        OldFirstPush(rest, polls', s.nextId, wakes);
        EarlierArePolled(s);
        InOrderGrows(s.polls, (id, ready));
        PushAllIs(s.(queue := rest, cache := s.cache + {id}, woken := s.woken - {id}), wakes);
      } else {
        OldFirstPop(s.queue, s.polls, s.polls, s.nextId);
      }
    }
  }

  /** Everything spawned before the task at the head of the queue was polled before. */
  lemma EarlierArePolled(s: State)
    requires FirstComeInv(s) && s.queue != [] && s.queue[0] < s.nextId
    ensures forall i: nat :: i < s.queue[0] ==> HasPoll(s.polls, i)
  {
    hide HasPoll;
    forall i: nat | i < s.queue[0] ensures HasPoll(s.polls, i) {
      assert s.queue[..0] == [];
    }
  }

  /** The ids in the queue and in wake events are ids that were handed out. */
  ghost predicate KnownIds(s: State) {
    |s.queue| <= 100 && forall k :: 0 <= k < |s.queue| ==> s.queue[k] < s.nextId
  }

  /** Wakers exist only for tasks that exist or existed. */
  predicate RealWakes(s: State, e: Event) {
    e.Turn? ==> forall k :: 0 <= k < |e.wakes| ==> e.wakes[k] < s.nextId
  }

  lemma KnownStays(s: State, e: Event)
    requires KnownIds(s) && RealWakes(s, e) && Step(s, e).Ok?
    ensures KnownIds(Step(s, e).value)
  {
    hide PushAll;
    if e.Turn? && s.queue != [] {
      PushAllIs(s.(queue := s.queue[1..], cache := s.cache + {s.queue[0]}, woken := s.woken - {s.queue[0]}), e.wakes);
    }
  }

  lemma FirstComeSpawn(s: State)
    requires FirstComeInv(s) && KnownIds(s) && Step(s, Spawn).Ok?
    ensures FirstComeInv(Step(s, Spawn).value)
  {
    hide HasPoll, InSpawnOrder;
    var s' := Step(s, Spawn).value;
    assert s'.queue[|s.queue|] == s.nextId;
    OldFirstPush(s.queue, s.polls, s.nextId, [s.nextId]);
  }

  lemma FirstComeKeeps(s: State, e: Event)
    requires FirstComeInv(s) && KnownIds(s) && Step(s, e).Ok?
    ensures FirstComeInv(Step(s, e).value)
  {
    hide HasPoll, InSpawnOrder, OldFirst, StepTurn;
    match e {
      case Spawn => FirstComeSpawn(s);
      case Wake(id) => OldFirstPush(s.queue, s.polls, s.nextId, [id]);
      case Turn(ready, wakes) => FirstComeTurn(s, ready, wakes);
    }
  }

  ghost predicate RealRun(s: State, es: seq<Event>)
    decreases |es|
  {
    es != [] ==> RealWakes(s, es[0]) && (Step(s, es[0]).Ok? ==> RealRun(Step(s, es[0]).value, es[1..]))
  }

  lemma {:induction false} FirstComeRun(s: State, es: seq<Event>)
    requires FirstComeInv(s) && KnownIds(s) && RealRun(s, es) && Run(s, es).Ok?
    ensures FirstComeInv(Run(s, es).value)
    decreases |es|
  {
    hide FirstComeInv, KnownIds, Step, RealWakes;
    if es == [] {
    } else {
      FirstComeKeeps(s, es[0]);
      KnownStays(s, es[0]);
      FirstComeRun(Step(s, es[0]).value, es[1..]);
    }
  }

  /** Over every run: when a task is polled, every task spawned before it was polled before, and a
      task spawned and never polled is alive and queued. */
  lemma FirstPollsInOrder(es: seq<Event>)
    requires RealRun(START, es) && Run(START, es).Ok?
    ensures var s := Run(START, es).value;
            && (forall i: nat, k :: 0 <= k < |s.polls| && i < s.polls[k].0 ==> HasPoll(s.polls[..k], i))
            && (forall i: nat :: i < s.nextId && !HasPoll(s.polls, i) ==> i in s.tasks && i in s.queue)
            && s.nextId == Spawns(es)
  {
    hide Run, RealRun;
    FirstComeRun(START, es);
    CountsSpawns(START, es);
  }

  function Spawns(es: seq<Event>): nat {
    if es == [] then 0 else (if es[0].Spawn? then 1 else 0) + Spawns(es[1..])
  }

  lemma {:induction false} CountsSpawns(s: State, es: seq<Event>)
    requires Run(s, es).Ok? && |s.queue| <= 100
    ensures Run(s, es).value.nextId == s.nextId + Spawns(es)
    decreases |es|
  {
    hide PushAll;
    if es == [] {
    } else {
      if es[0].Turn? && s.queue != [] {
        PushAllIs(s.(queue := s.queue[1..], cache := s.cache + {s.queue[0]}, woken := s.woken - {s.queue[0]}), es[0].wakes);
      }
      CountsSpawns(Step(s, es[0]).value, es[1..]);
    }
  }

  // Tasks that wake themselves: the executor against its reference.

  /** A task that returns Ready on its polls-th poll and wakes itself before each Pending. */
  datatype Task = Task(id: nat, polls: nat)

  function Total(q: seq<Task>): nat {
    if q == [] then 0 else q[0].polls + Total(q[1..])
  }

  lemma {:induction false} TotalAppend(q: seq<Task>, t: Task)
    ensures Total(q + [t]) == Total(q) + t.polls
  {
    if q == [] {
      assert [t][1..] == [];
    } else {
      assert (q + [t])[1..] == q[1..] + [t];
      TotalAppend(q[1..], t);
    }
  }

  ghost predicate Fair(q: seq<Task>) {
    && (forall k :: 0 <= k < |q| ==> q[k].polls > 0)
    && (forall j, k :: 0 <= j < k < |q| ==> q[j].id != q[k].id)
  }

  /** The deque after its first task was polled once. */
  function Rotated(q: seq<Task>): seq<Task>
    requires q != []
  {
    if q[0].polls <= 1 then q[1..] else q[1..] + [Task(q[0].id, q[0].polls - 1)]
  }

  lemma RotatedShrinks(q: seq<Task>)
    requires q != [] && Fair(q)
    ensures Fair(Rotated(q)) && Total(Rotated(q)) + 1 == Total(q)
  {
    if q[0].polls > 1 {
      TotalAppend(q[1..], Task(q[0].id, q[0].polls - 1));
    }
  }

  /** The order in which tasks are polled until none is left. */
  ghost function RoundRobin(q: seq<Task>): seq<nat>
    requires Fair(q)
    decreases Total(q)
  {
    if q == [] then [] else
    RotatedShrinks(q);
    [q[0].id] + RoundRobin(Rotated(q))
  }

  /** One turn moves one poll from what is to come to what was done. */
  lemma OneTurn(trace: seq<nat>, q: seq<Task>)
    requires Fair(q) && q != []
    ensures Fair(Rotated(q)) && Total(Rotated(q)) < Total(q)
    ensures (trace + [q[0].id]) + RoundRobin(Rotated(q)) == trace + RoundRobin(q)
  {
    RotatedShrinks(q);
    assert RoundRobin(q) == [q[0].id] + RoundRobin(Rotated(q));
  }

  class SimpleExecutor {
    var taskQueue: seq<Task>
    var trace: seq<nat>

    constructor ()
      ensures taskQueue == [] && trace == []
    {
      taskQueue, trace := [], [];
    }

    method Spawn(t: Task)
      modifies this`taskQueue
      ensures taskQueue == old(taskQueue) + [t]
    {
      taskQueue := taskQueue + [t];
    }

    method Run()
      requires Fair(taskQueue)
      modifies this
      ensures taskQueue == []
      ensures trace == old(trace) + RoundRobin(old(taskQueue))
    {
      hide RoundRobin, Total, Fair;
      while taskQueue != []
        invariant Fair(taskQueue)
        invariant trace + RoundRobin(taskQueue) == old(trace) + RoundRobin(old(taskQueue))
        decreases Total(taskQueue)
      {
        OneTurn(trace, taskQueue);
        var task := taskQueue[0];
        taskQueue := taskQueue[1..];
        trace := trace + [task.id];
        if task.polls > 1 {
          taskQueue := taskQueue + [Task(task.id, task.polls - 1)];
        }
      }
      NothingLeft();
    }
  }

  lemma NothingLeft()
    ensures Fair([]) && RoundRobin([]) == []
  {
  }

  /** Every live task is queued exactly once, and only live tasks have a cached waker. */
  ghost predicate InStep(tasks: map<nat, nat>, queue: seq<nat>, cache: set<nat>, nextId: nat) {
    && |queue| <= QUEUE_MAX
    && (forall k :: 0 <= k < |queue| ==> queue[k] in tasks)
    && (forall id :: id in tasks ==> id in queue && id < nextId && tasks[id] > 0)
    && (forall j, k :: 0 <= j < k < |queue| ==> queue[j] != queue[k])
    && cache <= tasks.Keys
  }

  function ViewOf(tasks: map<nat, nat>, queue: seq<nat>): seq<Task>
    requires forall k :: 0 <= k < |queue| ==> queue[k] in tasks
  {
    seq(|queue|, k requires 0 <= k < |queue| => Task(queue[k], tasks[queue[k]]))
  }

  lemma HeadIsOnce(queue: seq<nat>)
    requires queue != [] && forall j, k :: 0 <= j < k < |queue| ==> queue[j] != queue[k]
    ensures queue[0] !in queue[1..]
    ensures forall x :: x != queue[0] ==> (x in queue <==> x in queue[1..])
  {
    assert queue == [queue[0]] + queue[1..];
  }

  lemma PendingKeeps(tasks: map<nat, nat>, queue: seq<nat>, cache: set<nat>, nextId: nat)
    requires InStep(tasks, queue, cache, nextId) && queue != [] && tasks[queue[0]] > 1
    ensures var tasks', queue' := tasks[queue[0] := tasks[queue[0]] - 1], queue[1..] + [queue[0]];
            && InStep(tasks', queue', cache + {queue[0]}, nextId)
            && ViewOf(tasks', queue') == Rotated(ViewOf(tasks, queue))
  {
    HeadIsOnce(queue);
    var tasks', queue' := tasks[queue[0] := tasks[queue[0]] - 1], queue[1..] + [queue[0]];
    forall id | id in tasks' ensures id in queue' {
      if id == queue[0] {
        assert queue'[|queue'| - 1] == id;
      } else {
        assert id in queue[1..];
      }
    }
    assert ViewOf(tasks, queue)[1..] == ViewOf(tasks', queue')[..|queue| - 1];
  }

  lemma ReadyKeeps(tasks: map<nat, nat>, queue: seq<nat>, cache: set<nat>, nextId: nat)
    requires InStep(tasks, queue, cache, nextId) && queue != [] && tasks[queue[0]] <= 1
    ensures var tasks' := tasks - {queue[0]};
            && InStep(tasks', queue[1..], cache - {queue[0]}, nextId)
            && ViewOf(tasks', queue[1..]) == Rotated(ViewOf(tasks, queue))
  {
    HeadIsOnce(queue);
    var rest := queue[1..];
    forall k | 0 <= k < |rest| ensures rest[k] in tasks - {queue[0]} {
      assert rest[k] == queue[k + 1] != queue[0];
    }
    assert ViewOf(tasks - {queue[0]}, rest) == ViewOf(tasks, queue)[1..];
  }

  class TaskExecutor {
    var tasks: map<nat, nat>
    var queue: seq<nat>
    var cache: set<nat>
    var nextId: nat
    var trace: seq<nat>

    ghost predicate Valid()
      reads this
    {
      InStep(tasks, queue, cache, nextId)
    }

    ghost function View(): (v: seq<Task>)
      requires Valid()
      reads this
      ensures Fair(v)
    {
      ViewOf(tasks, queue)
    }

    constructor ()
      ensures Valid() && View() == [] && trace == [] && nextId == 0
    {
      tasks, queue, cache, nextId, trace := map[], [], {}, 0, [];
    }

    /** The 101st task does not fit into the queue. */
    method Spawn(polls: nat) returns (ok: bool)
      requires Valid() && polls > 0
      modifies this`tasks, this`queue, this`nextId
      ensures ok <==> |old(queue)| < QUEUE_MAX
      ensures ok ==> Valid() && View() == old(View()) + [Task(old(nextId), polls)] && nextId == old(nextId) + 1
    {
      var id := nextId;
      nextId := nextId + 1;
      tasks := tasks[id := polls];
      ok := |queue| < QUEUE_MAX;
      if ok {
        queue := queue + [id];
      }
    }

    method WakeTask(id: nat) returns (ok: bool)
      modifies this`queue
      ensures ok <==> |old(queue)| < QUEUE_MAX
      ensures queue == old(queue) + (if ok then [id] else [])
    {
      ok := |queue| < QUEUE_MAX;
      if ok {
        queue := queue + [id];
      }
    }

    /** One turn of the loop: pop an id, poll its task. */
    method Turn() returns (ok: bool)
      requires Valid() && queue != []
      modifies this`tasks, this`queue, this`cache, this`trace
      ensures ok && Valid()
      ensures View() == Rotated(old(View()))
      ensures trace == old(trace) + [old(queue)[0]]
    {
      hide InStep, ViewOf, Rotated, Fair;
      ok := true;
      assert queue[0] in tasks && |queue| <= QUEUE_MAX by { Popped(); }
      var id := queue[0];
      ghost var queue0 := queue;
      queue := queue[1..];
      if id in tasks {
        trace := trace + [id];
        if tasks[id] > 1 {
          PendingKeeps(tasks, queue0, cache, nextId);
          cache := cache + {id};
          tasks := tasks[id := tasks[id] - 1];
          ok := WakeTask(id);
        } else {
          ReadyKeeps(tasks, queue0, cache, nextId);
          assert cache + {id} - {id} == cache - {id};
          cache := cache + {id};
          tasks := tasks - {id};
          cache := cache - {id};
        }
      }
    }

    lemma Popped()
      requires Valid() && queue != []
      ensures queue[0] in tasks && |queue| <= QUEUE_MAX
    {
    }

    /** Drain the queue. The polls come in the order of the reference, no wake overflows, and
        no task, id or waker is left. */
    method RunReadyTasks() returns (ok: bool)
      requires Valid()
      modifies this`tasks, this`queue, this`cache, this`trace
      ensures ok
      ensures Valid() && tasks == map[] && queue == [] && cache == {}
      ensures trace == old(trace) + RoundRobin(old(View()))
    {
      hide RoundRobin, Total, Fair, Rotated;
      ok := true;
      while queue != []
        invariant ok && Valid()
        invariant trace + RoundRobin(View()) == old(trace) + RoundRobin(old(View()))
        decreases Total(View())
      {
        OneTurn(trace, View());
        ok := Turn();
      }
      Drained();
    }

    lemma Drained()
      requires Valid() && queue == []
      ensures tasks == map[] && cache == {} && View() == [] && RoundRobin(View()) == []
    {
    }
  }

  /** The tasks that need these many polls, numbered as they are spawned. */
  function Numbered(polls: seq<nat>): seq<Task> {
    seq(|polls|, k requires 0 <= k < |polls| => Task(k, polls[k]))
  }

  /** The same tasks on both executors, up to 100 of them: the same polls in the same order, all
      tasks done on both. */
  method RunBoth(polls: seq<nat>) returns (simpleTrace: seq<nat>, trace: seq<nat>)
    requires |polls| <= QUEUE_MAX && forall k :: 0 <= k < |polls| ==> polls[k] > 0
    ensures simpleTrace == trace
    ensures |trace| == Total(Numbered(polls))
    ensures forall id: nat :: multiset(trace)[id] == if id < |polls| then polls[id] else 0
  {
    hide RoundRobin, Total, Left;
    var simple := new SimpleExecutor();
    var full := new TaskExecutor();
    var k := 0;
    while k < |polls|
      invariant 0 <= k <= |polls|
      invariant fresh(simple) && fresh(full) && full.Valid() && full.nextId == k
      invariant simple.trace == [] && full.trace == []
      invariant simple.taskQueue == full.View() == Numbered(polls[..k])
    {
      simple.Spawn(Task(k, polls[k]));
      var ok := full.Spawn(polls[k]);
      assert Numbered(polls[..k + 1]) == Numbered(polls[..k]) + [Task(k, polls[k])];
      assert |full.View()| == |full.queue|;
      k := k + 1;
    }
    assert polls[..k] == polls;
    simple.Run();
    var ok := full.RunReadyTasks();
    simpleTrace, trace := simple.trace, full.trace;
    forall id: nat ensures multiset(trace)[id] == if id < |polls| then polls[id] else 0 {
      PollsAddUp(Numbered(polls), id);
      LeftNumbered(polls, id);
    }
    PollsAddUp(Numbered(polls), 0);
  }

  lemma {:induction false} LeftNumbered(polls: seq<nat>, id: nat)
    ensures Left(Numbered(polls), id) == if id < |polls| then polls[id] else 0
    decreases |polls|
  {
    if polls == [] {
    } else {
      var n := |polls| - 1;
      assert Numbered(polls) == Numbered(polls[..n]) + [Task(n, polls[n])];
      LeftAppend(Numbered(polls[..n]), Task(n, polls[n]), id);
      LeftNumbered(polls[..n], id);
    }
  }

  // What the common order amounts to.

  /** Every task is polled exactly as often as it asked for, so all of them finish; nothing
      else is polled. */
  lemma {:induction false} PollsAddUp(q: seq<Task>, id: nat)
    requires Fair(q)
    ensures |RoundRobin(q)| == Total(q)
    ensures multiset(RoundRobin(q))[id] == Left(q, id)
    decreases Total(q)
  {
    if q == [] {
    } else {
      RotatedShrinks(q);
      PollsAddUp(Rotated(q), id);
      RotatedLeft(q, id);
    }
  }

  /** The polls a task still needs. */
  function Left(q: seq<Task>, id: nat): nat {
    if q == [] then 0 else (if q[0].id == id then q[0].polls else 0) + Left(q[1..], id)
  }

  lemma {:induction false} LeftAppend(q: seq<Task>, t: Task, id: nat)
    ensures Left(q + [t], id) == Left(q, id) + (if t.id == id then t.polls else 0)
  {
    if q == [] {
      assert [t][1..] == [];
    } else {
      assert (q + [t])[1..] == q[1..] + [t];
      LeftAppend(q[1..], t, id);
    }
  }

  lemma RotatedLeft(q: seq<Task>, id: nat)
    requires q != [] && q[0].polls > 0
    ensures Left(q, id) == Left(Rotated(q), id) + (if q[0].id == id then 1 else 0)
  {
    LeftAppend(q[1..], Task(q[0].id, q[0].polls - 1), id);
  }
}
