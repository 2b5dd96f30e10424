/** The stream that carries items from an interrupt-side producer to an async consumer: a
    bounded queue and a waker. First as an object whose operations do not interleave, then
    with the producer's and the consumer's atomic steps interleaved in every way. */
module XStream {
  import opened Wrappers

  /** `heapless::spsc::Queue<T, N>` holds at most N - 1 items. wakes lists the tasks woken. */
  class Stream<T> {
    const size: nat
    var queue: seq<T>
    var waker: Option<nat>
    var wakes: seq<nat>

    ghost predicate Valid()
      reads this
    {
      |queue| < size
    }

    constructor (n: nat)
      requires n > 0
      ensures Valid() && size == n && queue == [] && waker.None? && wakes == []
    {
      size, queue, waker, wakes := n, [], None, [];
    }

    /** Enqueue and wake the registered task, if any. A full queue panics. */
    method Add(item: T) returns (ok: bool)
      requires Valid()
      modifies this`queue, this`waker, this`wakes
      ensures Valid()
      ensures ok <==> |old(queue)| < size - 1
      ensures ok ==> queue == old(queue) + [item] && waker.None?
      ensures ok ==> wakes == old(wakes) + (if old(waker).Some? then [old(waker).value] else [])
      ensures !ok ==> queue == old(queue) && waker == old(waker) && wakes == old(wakes)
    {
      ok := |queue| < size - 1;
      if ok {
        queue := queue + [item];
        if waker.Some? {
          wakes := wakes + [waker.value];
          waker := None;
        }
      }
    }

    method Empty()
      requires Valid()
      modifies this`queue
      ensures Valid() && queue == []
    {
      while |queue| > 0
        invariant Valid()
      {
        queue := queue[1..];
      }
    }

    /** Take an item, or register the polling task. A poll that finds nothing leaves it
        registered; a poll that finds something does not leave it registered anew. */
    method PollNext(task: nat) returns (r: Option<T>)
      requires Valid()
      modifies this`queue, this`waker
      ensures Valid()
      ensures old(queue) == [] ==> r.None? && queue == [] && waker == Some(task)
      ensures old(queue) != [] ==> r == Some(old(queue)[0]) && queue == old(queue)[1..] && waker == old(waker)
    {
      r := None;
      if |queue| > 0 {
        r := Some(queue[0]);
        queue := queue[1..];
        return;
      }
      waker := Some(task);
      if |queue| > 0 {
        assert false;
      }
    }
  }

  // Interleaving.

  /** Where the consumer stands: parked in the executor, or before one of the atomic steps of
      poll_next. Taken means that an item was found after registering. */
  datatype Consumer = Parked | Trying | Missed | Rechecking | Taken

  /** scheduled says that the consumer is due to be polled; waking says that the producer enqueued
      an item and has yet to wake. The two histories are auxiliary. */
  datatype State<T> = State(
    queue: seq<T>, armed: bool, consumer: Consumer, scheduled: bool, waking: bool,
    produced: seq<T>, consumed: seq<T>)

  datatype Step<T> = Enqueue(item: T) | Wake | Poll | TryTake | Register | Recheck | Disarm

  /** The steps each side can take. A consumer that was given an item polls again. */
  predicate Enabled<T>(s: State<T>, size: nat, a: Step<T>) {
    match a
    case Enqueue(_) => !s.waking && |s.queue| + 1 < size
    case Wake => s.waking
    case Poll => s.consumer.Parked? && s.scheduled
    case TryTake => s.consumer.Trying?
    case Register => s.consumer.Missed?
    case Recheck => s.consumer.Rechecking?
    case Disarm => s.consumer.Taken?
  }

  function Took<T>(s: State<T>, next: Consumer): State<T>
    requires s.queue != []
  {
    s.(queue := s.queue[1..], consumed := s.consumed + [s.queue[0]], consumer := next)
  }

  function Next<T>(s: State<T>, a: Step<T>): State<T> {
    match a
    case Enqueue(item) => s.(queue := s.queue + [item], produced := s.produced + [item], waking := true)
    case Wake => s.(waking := false, armed := false, scheduled := s.scheduled || s.armed)
    case Poll => s.(consumer := Trying, scheduled := false)
    case TryTake => if s.queue == [] then s.(consumer := Missed) else Took(s, Trying)
    case Register => s.(armed := true, consumer := Rechecking)
    case Recheck => if s.queue == [] then s.(consumer := Parked) else Took(s, Taken)
    case Disarm => s.(armed := false, consumer := Trying)
  }

  /** A freshly spawned consumer is scheduled. */
  function Start<T>(): State<T> {
    State([], false, Parked, true, false, [], [])
  }

  ghost predicate Reaches<T>(s: State<T>, size: nat, steps: seq<Step<T>>)
    decreases |steps|
  {
    steps != [] ==> Enabled(s, size, steps[0]) && Reaches(Next(s, steps[0]), size, steps[1..])
  }

  function After<T>(s: State<T>, steps: seq<Step<T>>): State<T>
    decreases |steps|
  {
    if steps == [] then s else After(Next(s, steps[0]), steps[1..])
  }

  ghost predicate Inv<T>(s: State<T>, size: nat) {
    && s.produced == s.consumed + s.queue
    && (s.queue == [] || |s.queue| < size)
    && (s.consumer.Parked? || s.consumer.Rechecking? ==> s.armed || s.scheduled)
    && (s.consumer.Parked? && s.queue != [] && !s.scheduled ==> s.waking)
  }

  lemma StepKeepsInv<T>(s: State<T>, size: nat, a: Step<T>)
    requires Inv(s, size) && Enabled(s, size, a)
    ensures Inv(Next(s, a), size)
  {
    if s.queue != [] {
      assert s.queue == [s.queue[0]] + s.queue[1..];
    }
  }

  lemma {:induction false} RunKeepsInv<T>(s: State<T>, size: nat, steps: seq<Step<T>>)
    requires Inv(s, size) && Reaches(s, size, steps)
    ensures Inv(After(s, steps), size)
    decreases |steps|
  {
    if steps == [] {
    } else {
      StepKeepsInv(s, size, steps[0]);
      RunKeepsInv(Next(s, steps[0]), size, steps[1..]);
    }
  }

  /** No wakeup is lost, in any interleaving: a parked consumer with a non-empty queue is
      scheduled, or the producer is about to wake a registered waker. Items come out once
      and in order, and the queue never holds more than it can. */
  lemma NoLostWakeup<T>(size: nat, steps: seq<Step<T>>)
    requires Reaches(Start<T>(), size, steps)
    ensures var s := After(Start<T>(), steps);
            && (s.consumer.Parked? && s.queue != [] ==> s.scheduled || (s.waking && s.armed))
            && s.consumed + s.queue == Items(steps)
            && (s.queue == [] || |s.queue| < size)
  {
    RunKeepsInv(Start<T>(), size, steps);
    ProducedItems(Start<T>(), steps);
  }

  /** The items that were enqueued, in order. */
  function Items<T>(steps: seq<Step<T>>): seq<T> {
    if steps == [] then [] else ItemOf(steps[0]) + Items(steps[1..])
  }

  function ItemOf<T>(a: Step<T>): seq<T> {
    if a.Enqueue? then [a.item] else []
  }

  lemma ProducedByOne<T>(s: State<T>, a: Step<T>)
    ensures Next(s, a).produced == s.produced + ItemOf(a)
  {
    assert s.produced + [] == s.produced;
  }

  lemma JoinThree<T>(a: seq<T>, b: seq<T>, c: seq<T>)
    ensures a + b + c == a + (b + c)
  {
  }

  lemma {:induction false} ProducedItems<T>(s: State<T>, steps: seq<Step<T>>)
    ensures After(s, steps).produced == s.produced + Items(steps)
    decreases |steps|
  {
    if steps == [] {
      assert s.produced + [] == s.produced;
    } else {
      hide Next;
      ProducedItems(Next(s, steps[0]), steps[1..]);
      ProducedByOne(s, steps[0]);
      JoinThree(s.produced, ItemOf(steps[0]), Items(steps[1..]));
    }
  }

  /** A quiescent system has delivered everything. */
  lemma QuiescentIsDrained<T>(size: nat, steps: seq<Step<T>>)
    requires Reaches(Start<T>(), size, steps)
    requires var s := After(Start<T>(), steps); !s.waking && s.consumer.Parked? && !s.scheduled
    ensures var s := After(Start<T>(), steps); s.consumed == Items(steps) && s.armed
  {
    hide After, Items, Reaches;
    RunKeepsInv(Start<T>(), size, steps);
    ProducedItems(Start<T>(), steps);
    var s := After(Start<T>(), steps);
    assert s.consumed + [] == s.consumed;
    assert [] + Items(steps) == Items(steps);
  }

  // Progress.

  /** What the consumer does next, when it is running. */
  function OwnStep<T>(c: Consumer): Step<T>
    requires !c.Parked?
  {
    match c
    case Trying => TryTake
    case Missed => Register
    case Rechecking => Recheck
    case Taken => Disarm
  }

  function Rank(c: Consumer): nat {
    match c
    case Parked => 0
    case Rechecking => 1
    case Missed => 2
    case Trying => 3
    case Taken => 4
  }

  /** One step brings the consumer closer to parking, and it gives up no item. An item found after
      registering makes it take its waker back. */
  lemma OwnStepAdvances<T>(s: State<T>, size: nat)
    requires !s.consumer.Parked?
    ensures Enabled(s, size, OwnStep<T>(s.consumer))
    ensures var s' := Next(s, OwnStep<T>(s.consumer));
            && 4 * |s'.queue| + Rank(s'.consumer) < 4 * |s.queue| + Rank(s.consumer)
            && s'.consumed + s'.queue == s.consumed + s.queue
            && (s'.consumer.Parked? ==> s'.queue == [] && s.consumer.Rechecking?)
            && (s'.queue != s.queue && s.consumer.Rechecking? ==> OwnStep<T>(s'.consumer) == Disarm)
            && (s'.queue != s.queue && s.consumer.Trying? ==> OwnStep<T>(s'.consumer) == TryTake)
  {
    if s.queue != [] {
      assert s.queue == [s.queue[0]] + s.queue[1..];
    }
  }

  /** Left alone, a running consumer takes every item there is, in order, and then parks. If nobody
      used its waker meanwhile, it is registered. */
  lemma {:induction false} ConsumerDrains<T>(s: State<T>, size: nat) returns (steps: seq<Step<T>>)
    requires Inv(s, size) && !s.consumer.Parked?
    ensures Reaches(s, size, steps)
    ensures forall k :: 0 <= k < |steps| ==> !steps[k].Enqueue? && !steps[k].Wake? && !steps[k].Poll?
    ensures var s' := After(s, steps);
            && s'.consumer.Parked? && s'.queue == [] && s'.consumed == s.consumed + s.queue
            && (s'.armed || s'.scheduled)
    decreases 4 * |s.queue| + Rank(s.consumer)
  {
    var a := OwnStep<T>(s.consumer);
    OwnStepAdvances(s, size);
    StepKeepsInv(s, size, a);
    var s1 := Next(s, a);
    if s1.consumer.Parked? {
      steps := [a];
      assert steps[1..] == [];
      assert s1.consumed + [] == s1.consumed;
    } else {
      hide Inv, Next, Enabled;
      var rest := ConsumerDrains(s1, size);
      steps := [a] + rest;
      assert steps[1..] == rest;
    }
  }

  // The waker, from the steps alone.

  /** A waker is registered: nothing woke or took it since the last time one was. */
  ghost predicate Registered<T>(steps: seq<Step<T>>) {
    exists i :: 0 <= i < |steps| && steps[i].Register?
                && forall j :: i < j < |steps| ==> !steps[j].Wake? && !steps[j].Disarm?
  }

  /** The consumer is due: it was not polled since it was spawned, or since a wake that met a
      registered waker. */
  ghost predicate Due<T>(steps: seq<Step<T>>) {
    || (forall j :: 0 <= j < |steps| ==> !steps[j].Poll?)
    || exists i :: 0 <= i < |steps| && steps[i].Wake? && Registered(steps[..i])
                   && forall j :: i < j < |steps| ==> !steps[j].Poll?
  }

  lemma {:induction false} AfterOneMore<T>(s: State<T>, steps: seq<Step<T>>, a: Step<T>)
    ensures After(s, steps + [a]) == Next(After(s, steps), a)
    decreases |steps|
  {
    if steps == [] {
      assert (steps + [a])[1..] == [];
    } else {
      assert (steps + [a])[1..] == steps[1..] + [a];
      AfterOneMore(Next(s, steps[0]), steps[1..], a);
    }
  }

  lemma RegisteredOneMore<T>(steps: seq<Step<T>>, a: Step<T>)
    ensures Registered(steps + [a]) <==> a.Register? || (Registered(steps) && !a.Wake? && !a.Disarm?)
  {
    var longer := steps + [a];
    assert longer[|steps|] == a;
    assert forall j :: 0 <= j < |steps| ==> longer[j] == steps[j];
    if Registered(steps) && !a.Wake? && !a.Disarm? {
      var i :| 0 <= i < |steps| && steps[i].Register?
               && forall j :: i < j < |steps| ==> !steps[j].Wake? && !steps[j].Disarm?;
      assert longer[i].Register?;
    }
    if Registered(longer) && !a.Register? {
      var i :| 0 <= i < |longer| && longer[i].Register?
               && forall j :: i < j < |longer| ==> !longer[j].Wake? && !longer[j].Disarm?;
      assert steps[i].Register?;
    }
  }

  lemma DueOneMore<T>(steps: seq<Step<T>>, a: Step<T>)
    ensures Due(steps + [a]) <==> !a.Poll? && (Due(steps) || (a.Wake? && Registered(steps)))
  {
    hide Registered;
    var longer := steps + [a];
    assert longer[|steps|] == a;
    assert forall j :: 0 <= j < |steps| ==> longer[j] == steps[j] && longer[..j] == steps[..j];
    assert longer[..|steps|] == steps;
    if a.Wake? && Registered(steps) {
      assert longer[|steps|].Wake? && Registered(longer[..|steps|]);
    }
    if Due(steps) && !a.Poll? && exists j :: 0 <= j < |steps| && steps[j].Poll? {
      var i :| 0 <= i < |steps| && steps[i].Wake? && Registered(steps[..i])
               && forall j :: i < j < |steps| ==> !steps[j].Poll?;
      assert longer[i].Wake? && Registered(longer[..i]);
    }
    if Due(longer) && exists j :: 0 <= j < |longer| && longer[j].Poll? {
      var i :| 0 <= i < |longer| && longer[i].Wake? && Registered(longer[..i])
               && forall j :: i < j < |longer| ==> !longer[j].Poll?;
      if i < |steps| {
        assert steps[i].Wake? && Registered(steps[..i]);
      }
    }
  }

  /** A wake reaches the consumer exactly if a waker was registered and neither used nor taken
      back since, and each registration is used at most once. */
  lemma {:induction false} WakerFromSteps<T>(steps: seq<Step<T>>)
    ensures After(Start<T>(), steps).armed <==> Registered(steps)
    ensures After(Start<T>(), steps).scheduled <==> Due(steps)
  {
    hide Registered, Due;
    if steps == [] {
      NothingYet<T>();
    } else {
      var init, a := steps[..|steps| - 1], steps[|steps| - 1];
      assert steps == init + [a];
      WakerFromSteps(init);
      AfterOneMore(Start<T>(), init, a);
      RegisteredOneMore(init, a);
      DueOneMore(init, a);
    }
  }

  lemma NothingYet<T>()
    ensures !Registered<T>([]) && Due<T>([])
  {
  }

  /** The recheck is what makes this work: a consumer that registers and then parks without
      looking again can sleep on a non-empty queue with nobody left to wake it. */
  lemma RecheckIsNeeded<T>(item: T)
    ensures var before := [Poll, TryTake, Enqueue(item), Wake, Register];
            && Reaches(Start<T>(), 2, before)
            && var s := After(Start<T>(), before).(consumer := Parked);
            s.queue == [item] && !s.scheduled && !s.waking
  {
    var s0 := Start<T>();
    var s1 := Next(s0, Poll);
    var s2 := Next(s1, TryTake);
    var s3 := Next(s2, Enqueue(item));
    var s4 := Next(s3, Wake);
    var s5 := Next(s4, Register);
    var t: seq<Step<T>> := [Register];
    assert t[1..] == [];
    assert Reaches(s4, 2, t) && After(s4, t) == s5;
    var t1: seq<Step<T>> := [Wake, Register];
    assert t1[1..] == t;
    var t2: seq<Step<T>> := [Enqueue(item), Wake, Register];
    assert t2[1..] == t1;
    var t3: seq<Step<T>> := [TryTake, Enqueue(item), Wake, Register];
    assert t3[1..] == t2;
    var t4: seq<Step<T>> := [Poll, TryTake, Enqueue(item), Wake, Register];
    assert t4[1..] == t3;
    assert Reaches(s2, 2, t2) && After(s2, t2) == s5;
    assert Reaches(s1, 2, t3) && After(s1, t3) == s5;
  }
}
