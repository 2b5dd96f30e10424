/** The four heap allocations behind a timeout and their way through C and back: the callback,
    the cell for the timer's pointer, the argument pair, and the timer itself. Addresses are
    real: a freed one may be handed out again. */
module TimerOwnership {
  import opened Wrappers

  const PENDING_MAX: nat := 63    // the callback stream has size 64

  /** What lies at an address, tagged with the timeout it was allocated for. A PtrCell is null
      until the timer's address is stored in it. */
  datatype Cell =
    | PtrCell(k: nat, timer: Option<nat>)
    | CallbackCell(k: nat)
    | ArgCell(k: nat, callback: nat, ptr: nat)
    | TimerCell(k: nat, arg: nat)

  datatype Phase = Built | Stored | Armed | Fired

  /** The addresses of one outstanding timeout. */
  datatype Timeout = Timeout(ptr: nat, callback: nat, arg: nat, timer: nat, phase: Phase)

  /** armed holds timer addresses, queue argument addresses. live, count and ran are history:
      the outstanding timeouts, how many were set, and which callbacks ran. */
  datatype State = State(
    heap: map<nat, Cell>, armed: set<nat>, queue: seq<nat>,
    live: map<nat, Timeout>, count: nat, ran: seq<nat>)

  /** set_timeout allocates (at addresses the allocator picks), the pointer is stored, the timer
      is armed; the interrupt fires it; the stream's consumer processes it. */
  datatype Event =
    | Build(ptr: nat, callback: nat, arg: nat, timer: nat)
    | Store(k: nat)
    | Arm(k: nat)
    | Fire(timer: nat)
    | Process

  const START := State(map[], {}, [], map[], 0, [])

  function SetPhase(s: State, k: nat, phase: Phase): State
    requires k in s.live
  {
    s.(live := s.live[k := s.live[k].(phase := phase)])
  }

  /** Process the oldest fired timeout. Reading or freeing an address that does not hold what
      is expected, a null timer pointer, and freeing an armed timer count as panics. */
  function StepProcess(s: State): Outcome<State> {
    if s.queue == [] then Ok(s) else
    var arg := s.queue[0];
    if arg !in s.heap || !s.heap[arg].ArgCell? then Panic else
    var callback, ptr := s.heap[arg].callback, s.heap[arg].ptr;
    var heap1 := s.heap - {arg};
    if ptr !in heap1 || !heap1[ptr].PtrCell? || heap1[ptr].timer.None? then Panic else
    var timer := heap1[ptr].timer.value;
    var heap2 := heap1 - {ptr};
    if timer !in heap2 || !heap2[timer].TimerCell? || timer in s.armed then Panic else
    var heap3 := heap2 - {timer};
    if callback !in heap3 || !heap3[callback].CallbackCell? then Panic else
    var k := heap3[callback].k;
    Ok(s.(heap := heap3 - {callback}, queue := s.queue[1..], live := s.live - {k}, ran := s.ran + [k]))
  }

  /** The heap once the four cells of a new timeout are allocated and filled in. */
  function Extended(heap: map<nat, Cell>, k: nat, t: Timeout): map<nat, Cell> {
    heap[t.ptr := PtrCell(k, None)][t.callback := CallbackCell(k)]
        [t.arg := ArgCell(k, t.callback, t.ptr)][t.timer := TimerCell(k, t.arg)]
  }

  function Step(s: State, e: Event): Outcome<State> {
    match e
    case Build(ptr, callback, arg, timer) =>
      var k, t := s.count, Timeout(ptr, callback, arg, timer, Built);
      Ok(s.(heap := Extended(s.heap, k, t), live := s.live[k := t], count := k + 1))
    case Store(k) =>
      if k !in s.live then Panic else
      var t := s.live[k];
      if t.ptr !in s.heap || !s.heap[t.ptr].PtrCell? then Panic else
      Ok(SetPhase(s.(heap := s.heap[t.ptr := s.heap[t.ptr].(timer := Some(t.timer))]), k, Stored))
    case Arm(k) =>
      if k !in s.live then Panic else
      Ok(SetPhase(s.(armed := s.armed + {s.live[k].timer}), k, Armed))
    case Fire(timer) =>
      if timer !in s.armed || timer !in s.heap || !s.heap[timer].TimerCell? || |s.queue| >= PENDING_MAX
         || s.heap[timer].k !in s.live
      then Panic else
      Ok(SetPhase(s.(armed := s.armed - {timer}, queue := s.queue + [s.heap[timer].arg]),
                  s.heap[timer].k, Fired))
    case Process => StepProcess(s)
  }

  /** The order of the code (build, then store, then arm), fresh addresses from the allocator,
      and room in the stream whenever a timer fires. */
  predicate Allowed(s: State, e: Event) {
    match e
    case Build(ptr, callback, arg, timer) =>
      && ptr !in s.heap && callback !in s.heap && arg !in s.heap && timer !in s.heap
      && ptr != callback && ptr != arg && ptr != timer && callback != arg && callback != timer && arg != timer
    case Store(k) => k in s.live && s.live[k].phase.Built?
    case Arm(k) => k in s.live && s.live[k].phase.Stored?
    case Fire(timer) => timer in s.armed && |s.queue| < PENDING_MAX
    case Process => true
  }

  function Run(s: State, es: seq<Event>): Outcome<State>
    decreases |es|
  {
    if es == [] then Ok(s) else
    var s1 :- Step(s, es[0]);
    Run(s1, es[1..])
  }

  predicate AllowedRun(s: State, es: seq<Event>)
    decreases |es|
  {
    es != [] ==> Allowed(s, es[0]) && (Step(s, es[0]).Ok? ==> AllowedRun(Step(s, es[0]).value, es[1..]))
  }

  // The invariant: each outstanding timeout owns its four cells, and nobody else does.

  ghost predicate Owns(heap: map<nat, Cell>, k: nat, t: Timeout) {
    && t.ptr in heap && heap[t.ptr] == PtrCell(k, if t.phase.Built? then None else Some(t.timer))
    && t.callback in heap && heap[t.callback] == CallbackCell(k)
    && t.arg in heap && heap[t.arg] == ArgCell(k, t.callback, t.ptr)
    && t.timer in heap && heap[t.timer] == TimerCell(k, t.arg)
  }

  predicate Part(t: Timeout, a: nat) {
    a == t.ptr || a == t.callback || a == t.arg || a == t.timer
  }

  ghost predicate HeapInv(heap: map<nat, Cell>, live: map<nat, Timeout>) {
    && (forall k :: k in live ==> Owns(heap, k, live[k]))
    && (forall a :: a in heap ==> heap[a].k in live && Part(live[heap[a].k], a))
  }

  /** Armed timers are the timers of the timeouts in phase Armed. */
  ghost predicate ArmedInv(armed: set<nat>, live: map<nat, Timeout>) {
    && (forall a :: a in armed ==> exists k :: k in live && live[k].phase.Armed? && live[k].timer == a)
    && (forall k :: k in live && live[k].phase.Armed? ==> live[k].timer in armed)
  }

  /** The queue holds the arguments of the timeouts in phase Fired, each once. */
  ghost predicate QueueInv(queue: seq<nat>, live: map<nat, Timeout>) {
    && (forall a :: a in queue ==> exists k :: k in live && live[k].phase.Fired? && live[k].arg == a)
    && (forall k :: k in live && live[k].phase.Fired? ==> live[k].arg in queue)
    && (forall i, j :: 0 <= i < j < |queue| ==> queue[i] != queue[j])
    && |queue| <= PENDING_MAX
  }

  ghost predicate HistoryInv(s: State) {
    && |s.heap| == 4 * |s.live|
    && |s.live| + |s.ran| == s.count
    && (forall k :: k in s.live || k in s.ran ==> k < s.count)
    && (forall k :: 0 <= k < s.count ==> multiset(s.ran)[k] == (if k in s.live then 0 else 1))
  }

  ghost predicate Inv(s: State) {
    HeapInv(s.heap, s.live) && ArmedInv(s.armed, s.live) && QueueInv(s.queue, s.live) && HistoryInv(s)
  }

  lemma OwnsOf(heap: map<nat, Cell>, live: map<nat, Timeout>, k: nat)
    requires HeapInv(heap, live) && k in live
    ensures Owns(heap, k, live[k])
  {
  }

  lemma PartOf(heap: map<nat, Cell>, live: map<nat, Timeout>, a: nat)
    requires HeapInv(heap, live) && a in heap
    ensures heap[a].k in live && Part(live[heap[a].k], a)
  {
  }

  lemma HeapIntro(heap: map<nat, Cell>, live: map<nat, Timeout>)
    requires forall k :: k in live ==> Owns(heap, k, live[k])
    requires forall a :: a in heap ==> heap[a].k in live && Part(live[heap[a].k], a)
    ensures HeapInv(heap, live)
  {
    hide Owns, Part;
  }

  /** Two timeouts never share an address. */
  lemma Disjoint(heap: map<nat, Cell>, live: map<nat, Timeout>, j: nat, k: nat)
    requires HeapInv(heap, live) && j in live && k in live
    ensures live[j].timer == live[k].timer || live[j].arg == live[k].arg ==> j == k
  {
    hide HeapInv;
    OwnsOf(heap, live, j);
    OwnsOf(heap, live, k);
  }

  lemma ArmedSame(armed: set<nat>, live: map<nat, Timeout>, live': map<nat, Timeout>)
    requires ArmedInv(armed, live)
    requires forall k :: k in live && live[k].phase.Armed? ==> k in live' && live'[k] == live[k]
    requires forall k :: k in live' && live'[k].phase.Armed? ==> k in live && live'[k] == live[k]
    ensures ArmedInv(armed, live')
  {
    forall a | a in armed ensures exists k :: k in live' && live'[k].phase.Armed? && live'[k].timer == a {
      var k :| k in live && live[k].phase.Armed? && live[k].timer == a;
      assert k in live' && live'[k].phase.Armed? && live'[k].timer == a;
    }
  }

  lemma QueueSame(queue: seq<nat>, live: map<nat, Timeout>, live': map<nat, Timeout>)
    requires QueueInv(queue, live)
    requires forall k :: k in live && live[k].phase.Fired? ==> k in live' && live'[k] == live[k]
    requires forall k :: k in live' && live'[k].phase.Fired? ==> k in live && live'[k] == live[k]
    ensures QueueInv(queue, live')
  {
    forall a | a in queue ensures exists k :: k in live' && live'[k].phase.Fired? && live'[k].arg == a {
      var k :| k in live && live[k].phase.Fired? && live[k].arg == a;
      assert k in live' && live'[k].phase.Fired? && live'[k].arg == a;
    }
  }

  ghost predicate FreshFor(heap: map<nat, Cell>, t: Timeout) {
    && t.ptr !in heap && t.callback !in heap && t.arg !in heap && t.timer !in heap
    && t.ptr != t.callback && t.ptr != t.arg && t.ptr != t.timer
    && t.callback != t.arg && t.callback != t.timer && t.arg != t.timer
  }

  lemma ExtendedCells(heap: map<nat, Cell>, k: nat, t: Timeout)
    requires FreshFor(heap, t) && t.phase.Built?
    ensures var heap' := Extended(heap, k, t);
            && Owns(heap', k, t)
            && |heap'| == |heap| + 4
            && (forall a :: a in heap ==> a in heap' && heap'[a] == heap[a])
            && (forall a :: a in heap' && a !in heap ==> heap'[a].k == k && Part(t, a))
  {
    var heap' := Extended(heap, k, t);
    assert heap'.Keys == heap.Keys + {t.ptr, t.callback, t.arg, t.timer};
    assert |heap'| == |heap'.Keys| && |heap| == |heap.Keys|;
  }

  lemma BuildHeap(heap: map<nat, Cell>, live: map<nat, Timeout>, k: nat, t: Timeout)
    requires HeapInv(heap, live) && k !in live && t.phase.Built? && FreshFor(heap, t)
    ensures HeapInv(Extended(heap, k, t), live[k := t])
    ensures |Extended(heap, k, t)| == |heap| + 4
  {
    hide Extended, HeapInv, FreshFor;
    var heap', live' := Extended(heap, k, t), live[k := t];
    ExtendedCells(heap, k, t);
    forall j | j in live' ensures Owns(heap', j, live'[j]) {
      if j != k { OwnsOf(heap, live, j); }
    }
    forall a | a in heap' ensures heap'[a].k in live' && Part(live'[heap'[a].k], a) {
      if a in heap { PartOf(heap, live, a); }
    }
    HeapIntro(heap', live');
  }

  lemma HistoryBuilds(s: State, s': State, t: Timeout)
    requires HistoryInv(s) && s'.live == s.live[s.count := t] && s'.ran == s.ran
    requires s'.count == s.count + 1 && |s'.heap| == |s.heap| + 4
    ensures s.count !in s.live && HistoryInv(s')
  {
    assert s'.live.Keys == s.live.Keys + {s.count};
    assert |s.live| == |s.live.Keys| && |s'.live| == |s'.live.Keys|;
    assert s.count !in s.ran;
    forall k | 0 <= k < s'.count ensures multiset(s'.ran)[k] == (if k in s'.live then 0 else 1) {
      assert k < s.count || k == s.count;
    }
  }

  lemma BuildKeeps(s: State, ptr: nat, callback: nat, arg: nat, timer: nat)
    requires Inv(s) && Allowed(s, Build(ptr, callback, arg, timer))
    ensures Inv(Step(s, Build(ptr, callback, arg, timer)).value)
  {
    hide HeapInv, ArmedInv, QueueInv, Extended, Owns;
    assert s.count !in s.live;
    hide HistoryInv;
    var t := Timeout(ptr, callback, arg, timer, Built);
    var s' := Step(s, Build(ptr, callback, arg, timer)).value;
    BuildHeap(s.heap, s.live, s.count, t);
    ArmedSame(s.armed, s.live, s'.live);
    QueueSame(s.queue, s.live, s'.live);
    HistoryBuilds(s, s', t);
  }

  lemma HistorySame(s: State, s': State)
    requires HistoryInv(s) && s'.live.Keys == s.live.Keys && s'.heap.Keys == s.heap.Keys
    requires s'.ran == s.ran && s'.count == s.count
    ensures HistoryInv(s')
  {
    assert |s'.heap| == |s'.heap.Keys| == |s.heap.Keys| == |s.heap|;
    assert |s'.live| == |s'.live.Keys| == |s.live.Keys| == |s.live|;
    assert forall k :: k in s'.live <==> k in s.live;
  }

  /** Changing the phase of one timeout, and what its pointer cell holds accordingly. */
  lemma PhaseHeap(heap: map<nat, Cell>, live: map<nat, Timeout>, k: nat, t: Timeout)
    requires HeapInv(heap, live) && k in live && t == live[k].(phase := t.phase)
    ensures HeapInv(heap[t.ptr := PtrCell(k, if t.phase.Built? then None else Some(t.timer))], live[k := t])
  {
    var heap' := heap[t.ptr := PtrCell(k, if t.phase.Built? then None else Some(t.timer))];
    var live' := live[k := t];
    hide HeapInv;
    OwnsOf(heap, live, k);
    forall j | j in live' ensures Owns(heap', j, live'[j]) {
      OwnsOf(heap, live, j);
    }
    forall a | a in heap' ensures heap'[a].k in live' && Part(live'[heap'[a].k], a) {
      PartOf(heap, live, a);
    }
    HeapIntro(heap', live');
  }

  lemma StoreKeeps(s: State, k: nat)
    requires Inv(s) && Allowed(s, Store(k))
    ensures Step(s, Store(k)).Ok? && Inv(Step(s, Store(k)).value)
  {
    hide HeapInv, ArmedInv, QueueInv, HistoryInv;
    OwnsOf(s.heap, s.live, k);
    var s' := Step(s, Store(k)).value;
    PhaseHeap(s.heap, s.live, k, s'.live[k]);
    ArmedSame(s.armed, s.live, s'.live);
    QueueSame(s.queue, s.live, s'.live);
    assert s'.live.Keys == s.live.Keys && s'.heap.Keys == s.heap.Keys;
    HistorySame(s, s');
  }

  /** Past the store, a change of phase changes no cell. */
  lemma LaterPhase(heap: map<nat, Cell>, live: map<nat, Timeout>, k: nat, phase: Phase)
    requires HeapInv(heap, live) && k in live && !live[k].phase.Built? && !phase.Built?
    ensures HeapInv(heap, live[k := live[k].(phase := phase)])
  {
    hide HeapInv;
    OwnsOf(heap, live, k);
    PhaseHeap(heap, live, k, live[k].(phase := phase));
    assert heap[live[k].ptr := PtrCell(k, Some(live[k].timer))] == heap;
  }

  lemma ArmedGrows(armed: set<nat>, live: map<nat, Timeout>, k: nat)
    requires ArmedInv(armed, live) && k in live
    ensures ArmedInv(armed + {live[k].timer}, live[k := live[k].(phase := Armed)])
  {
    var live' := live[k := live[k].(phase := Armed)];
    forall a | a in armed + {live[k].timer}
      ensures exists j :: j in live' && live'[j].phase.Armed? && live'[j].timer == a
    {
      if a == live[k].timer {
        assert live'[k].phase.Armed? && live'[k].timer == a;
      } else {
        var j :| j in live && live[j].phase.Armed? && live[j].timer == a;
        assert j in live' && live'[j].phase.Armed? && live'[j].timer == a;
      }
    }
  }

  lemma ArmKeeps(s: State, k: nat)
    requires Inv(s) && Allowed(s, Arm(k))
    ensures Step(s, Arm(k)).Ok? && Inv(Step(s, Arm(k)).value)
  {
    hide HeapInv, ArmedInv, QueueInv, HistoryInv;
    var s' := Step(s, Arm(k)).value;
    LaterPhase(s.heap, s.live, k, Armed);
    ArmedGrows(s.armed, s.live, k);
    QueueSame(s.queue, s.live, s'.live);
    assert s'.live.Keys == s.live.Keys;
    HistorySame(s, s');
  }

  lemma ArmedShrinks(heap: map<nat, Cell>, armed: set<nat>, live: map<nat, Timeout>, k: nat)
    requires HeapInv(heap, live) && ArmedInv(armed, live) && k in live
    ensures ArmedInv(armed - {live[k].timer}, live[k := live[k].(phase := Fired)])
  {
    hide HeapInv;
    var live' := live[k := live[k].(phase := Fired)];
    forall a | a in armed - {live[k].timer}
      ensures exists j :: j in live' && live'[j].phase.Armed? && live'[j].timer == a
    {
      var j :| j in live && live[j].phase.Armed? && live[j].timer == a;
      assert j in live' && live'[j].phase.Armed? && live'[j].timer == a;
    }
    forall j | j in live' && live'[j].phase.Armed? ensures live'[j].timer in armed - {live[k].timer} {
      Disjoint(heap, live, j, k);
    }
  }

  lemma QueueGrows(heap: map<nat, Cell>, queue: seq<nat>, live: map<nat, Timeout>, k: nat)
    requires HeapInv(heap, live) && QueueInv(queue, live) && k in live && !live[k].phase.Fired? && |queue| < PENDING_MAX
    ensures QueueInv(queue + [live[k].arg], live[k := live[k].(phase := Fired)])
  {
    hide HeapInv;
    var live', queue' := live[k := live[k].(phase := Fired)], queue + [live[k].arg];
    forall a | a in queue'
      ensures exists j :: j in live' && live'[j].phase.Fired? && live'[j].arg == a
      ensures a in queue ==> a != live[k].arg
    {
      if a in queue {
        var j :| j in live && live[j].phase.Fired? && live[j].arg == a;
        Disjoint(heap, live, j, k);
        assert j in live' && live'[j].phase.Fired? && live'[j].arg == a;
      } else {
        assert live'[k].phase.Fired? && live'[k].arg == a;
      }
    }
    assert queue'[|queue|] == live[k].arg;
    assert forall i :: 0 <= i < |queue| ==> queue'[i] in queue && queue'[i] in queue';
  }

  lemma FireKeeps(s: State, timer: nat)
    requires Inv(s) && Allowed(s, Fire(timer))
    ensures Step(s, Fire(timer)).Ok? && Inv(Step(s, Fire(timer)).value)
  {
    hide HistoryInv, QueueInv, HeapInv;
    var k :| k in s.live && s.live[k].phase.Armed? && s.live[k].timer == timer;
    OwnsOf(s.heap, s.live, k);
    hide ArmedInv;
    var s' := Step(s, Fire(timer)).value;
    LaterPhase(s.heap, s.live, k, Fired);
    ArmedShrinks(s.heap, s.armed, s.live, k);
    QueueGrows(s.heap, s.queue, s.live, k);
    assert s'.live.Keys == s.live.Keys;
    HistorySame(s, s');
  }

  /** A timer that fires finds room in the stream exactly if fewer than 63 wait there. */
  lemma FirePanicsExactly(s: State, timer: nat)
    requires Inv(s) && timer in s.armed
    ensures Step(s, Fire(timer)).Panic? <==> |s.queue| >= 63
  {
    hide HistoryInv, QueueInv, HeapInv;
    if |s.queue| < 63 {
      FireKeeps(s, timer);
    }
  }

  /** The heap once the consumer freed the four cells of a timeout, one after the other. */
  function Without(heap: map<nat, Cell>, t: Timeout): map<nat, Cell> {
    heap - {t.arg} - {t.ptr} - {t.timer} - {t.callback}
  }

  lemma WithoutCells(heap: map<nat, Cell>, k: nat, t: Timeout)
    requires Owns(heap, k, t)
    ensures |Without(heap, t)| + 4 == |heap|
    ensures forall a :: a in Without(heap, t) <==> a in heap && !Part(t, a)
    ensures forall a :: a in Without(heap, t) ==> Without(heap, t)[a] == heap[a]
  {
    FreeOne(heap, t.arg);
    FreeOne(heap - {t.arg}, t.ptr);
    FreeOne(heap - {t.arg} - {t.ptr}, t.timer);
    FreeOne(heap - {t.arg} - {t.ptr} - {t.timer}, t.callback);
  }

  lemma FreeOne(heap: map<nat, Cell>, a: nat)
    requires a in heap
    ensures |heap - {a}| + 1 == |heap|
  {
    assert heap.Keys == (heap - {a}).Keys + {a};
    assert |heap.Keys| == |heap| && |(heap - {a}).Keys| == |heap - {a}|;
  }

  lemma ReleaseHeap(heap: map<nat, Cell>, live: map<nat, Timeout>, k: nat)
    requires HeapInv(heap, live) && k in live
    ensures HeapInv(Without(heap, live[k]), live - {k}) && |Without(heap, live[k])| + 4 == |heap|
  {
    hide HeapInv, Without;
    var t := live[k];
    var heap', live' := Without(heap, t), live - {k};
    OwnsOf(heap, live, k);
    WithoutCells(heap, k, t);
    forall j | j in live' ensures Owns(heap', j, live'[j]) {
      OwnsOf(heap, live, j);
    }
    forall a | a in heap' ensures heap'[a].k in live' && Part(live'[heap'[a].k], a) {
      PartOf(heap, live, a);
    }
    HeapIntro(heap', live');
  }

  lemma QueuePops(heap: map<nat, Cell>, queue: seq<nat>, live: map<nat, Timeout>, k: nat)
    requires HeapInv(heap, live) && QueueInv(queue, live) && queue != [] && k in live && live[k].arg == queue[0]
    ensures QueueInv(queue[1..], live - {k})
  {
    hide HeapInv;
    var rest := queue[1..];
    assert forall i :: 0 <= i < |rest| ==> rest[i] == queue[i + 1] != queue[0];
    assert queue == [queue[0]] + rest;
    forall a | a in rest ensures exists j :: j in live - {k} && live[j].phase.Fired? && live[j].arg == a {
      assert a in queue;
      var j :| j in live && live[j].phase.Fired? && live[j].arg == a;
      assert j in live - {k} && live[j].phase.Fired? && live[j].arg == a;
    }
    forall j | j in live - {k} && live[j].phase.Fired? ensures live[j].arg in rest {
      Disjoint(heap, live, j, k);
      assert live[j].arg in queue;
    }
  }

  /** The consumer finds every cell where it expects it, the timer's pointer is set, and the
      timer is no longer armed. */
  lemma ProcessFrees(s: State, k: nat)
    requires Inv(s) && s.queue != [] && k in s.live && s.live[k].phase.Fired? && s.live[k].arg == s.queue[0]
    ensures var t := s.live[k];
            StepProcess(s) == Ok(s.(heap := Without(s.heap, t), queue := s.queue[1..],
                                    live := s.live - {k}, ran := s.ran + [k]))
  {
    hide HeapInv, QueueInv, HistoryInv;
    OwnsOf(s.heap, s.live, k);
    if s.live[k].timer in s.armed {
      var j :| j in s.live && s.live[j].phase.Armed? && s.live[j].timer == s.live[k].timer;
      Disjoint(s.heap, s.live, j, k);
      assert false;
    }
  }

  lemma HistoryRuns(s: State, s': State, k: nat)
    requires HistoryInv(s) && k in s.live && s'.live == s.live - {k} && s'.ran == s.ran + [k]
    requires s'.count == s.count && |s'.heap| + 4 == |s.heap|
    ensures HistoryInv(s')
  {
    assert s.live.Keys == s'.live.Keys + {k};
    assert |s.live| == |s.live.Keys| && |s'.live| == |s'.live.Keys|;
  }

  lemma ProcessKeeps(s: State)
    requires Inv(s)
    ensures StepProcess(s).Ok? && Inv(StepProcess(s).value)
  {
    hide HeapInv, ArmedInv, QueueInv, HistoryInv, Without;
    if s.queue != [] {
      var k := FrontTimeout(s);
      ProcessFrees(s, k);
      hide StepProcess;
      var s' := StepProcess(s).value;
      ReleaseHeap(s.heap, s.live, k);
      ArmedSame(s.armed, s.live, s'.live);
      QueuePops(s.heap, s.queue, s.live, k);
      HistoryRuns(s, s', k);
    }
  }

  ghost function FrontTimeout(s: State): (k: nat)
    requires QueueInv(s.queue, s.live) && s.queue != []
    ensures k in s.live && s.live[k].phase.Fired? && s.live[k].arg == s.queue[0]
  {
    assert s.queue[0] in s.queue;
    var k :| k in s.live && s.live[k].phase.Fired? && s.live[k].arg == s.queue[0];
    k
  }

  lemma {:induction false} RunKeeps(s: State, es: seq<Event>)
    requires Inv(s) && AllowedRun(s, es)
    ensures Run(s, es).Ok? && Inv(Run(s, es).value)
    decreases |es|
  {
    hide Inv;
    if es == [] {
    } else {
      match es[0] {
        case Build(ptr, callback, arg, timer) => BuildKeeps(s, ptr, callback, arg, timer);
        case Store(k) => StoreKeeps(s, k);
        case Arm(k) => ArmKeeps(s, k);
        case Fire(timer) => FireKeeps(s, timer);
        case Process => ProcessKeeps(s);
      }
      RunKeeps(Step(s, es[0]).value, es[1..]);
    }
  }

  /** Over every run with at most 63 fired but unprocessed timers: nothing is read or freed
      that is not there, no timer pointer is null and no armed timer is freed; an outstanding
      timeout still owns its four cells and there are no others; its callback has not run,
      and that of every timeout that is no longer outstanding has run exactly once. */
  lemma NothingLeaksOrIsFreedTwice(es: seq<Event>)
    requires AllowedRun(START, es)
    ensures Run(START, es).Ok?
    ensures var s := Run(START, es).value;
            && |s.heap| == 4 * |s.live|
            && |s.live| + |s.ran| == s.count
            && (forall k :: k in s.live ==> k < s.count && Owns(s.heap, k, s.live[k]))
            && (forall k :: 0 <= k < s.count ==> multiset(s.ran)[k] == (if k in s.live then 0 else 1))
            && (forall k :: k in s.live && s.live[k].phase.Fired? ==> s.live[k].arg in s.queue)
  {
    RunKeeps(START, es);
  }

  // The order of the callbacks, from the events alone.

  function Builds(es: seq<Event>): nat {
    if es == [] then 0 else Builds(es[..|es| - 1]) + (if es[|es| - 1].Build? then 1 else 0)
  }

  /** The number of the timeout that was last built with its timer at this address. */
  function LastBuilt(es: seq<Event>, timer: nat): nat {
    if es == [] then 0 else
    var init, e := es[..|es| - 1], es[|es| - 1];
    if e.Build? && e.timer == timer then Builds(init) else LastBuilt(init, timer)
  }

  /** The timeouts whose timers fired, in the order in which they did. */
  function FiredOrder(es: seq<Event>): seq<nat> {
    if es == [] then [] else
    var init, e := es[..|es| - 1], es[|es| - 1];
    FiredOrder(init) + (if e.Fire? then [LastBuilt(init, e.timer)] else [])
  }

  /** How many of them were processed: each Process takes one, if there is one. */
  function Processed(es: seq<Event>): nat {
    if es == [] then 0 else
    var init, e := es[..|es| - 1], es[|es| - 1];
    Processed(init) + (if e.Process? && Processed(init) < |FiredOrder(init)| then 1 else 0)
  }

  lemma {:induction false} RunOneMore(s: State, es: seq<Event>, e: Event)
    requires AllowedRun(s, es + [e])
    ensures AllowedRun(s, es)
    ensures Run(s, es).Ok? ==> Allowed(Run(s, es).value, e) && Run(s, es + [e]) == Step(Run(s, es).value, e)
    decreases |es|
  {
    hide Step, Allowed;
    if es == [] {
      assert (es + [e])[1..] == [];
    } else {
      assert (es + [e])[1..] == es[1..] + [e];
      if Step(s, es[0]).Ok? {
        RunOneMore(Step(s, es[0]).value, es[1..], e);
      }
    }
  }

  /** Each outstanding timeout is the last one built at its timer's address. */
  ghost predicate Addressed(s: State, es: seq<Event>) {
    && s.count == Builds(es)
    && forall k :: k in s.live ==> LastBuilt(es, s.live[k].timer) == k
  }

  /** The callbacks that ran, then those in the queue: all that fired, in order. */
  ghost predicate Ordered(live: map<nat, Timeout>, queue: seq<nat>, ran: seq<nat>, fired: seq<nat>) {
    && |fired| == |ran| + |queue| && ran <= fired
    && forall m :: |ran| <= m < |fired| ==> fired[m] in live && live[fired[m]].arg == queue[m - |ran|]
  }

  lemma EventLast(es: seq<Event>, e: Event)
    ensures Builds(es + [e]) == Builds(es) + (if e.Build? then 1 else 0)
    ensures forall t :: LastBuilt(es + [e], t) == if e.Build? && e.timer == t then Builds(es) else LastBuilt(es, t)
    ensures FiredOrder(es + [e]) == if e.Fire? then FiredOrder(es) + [LastBuilt(es, e.timer)] else FiredOrder(es)
    ensures Processed(es + [e]) == Processed(es) + (if e.Process? && Processed(es) < |FiredOrder(es)| then 1 else 0)
  {
    assert (es + [e])[..|es|] == es;
  }

  lemma AddressedKeeps(s: State, es: seq<Event>, e: Event)
    requires Inv(s) && Addressed(s, es) && Allowed(s, e) && Step(s, e).Ok?
    ensures Addressed(Step(s, e).value, es + [e])
  {
    hide Builds, LastBuilt, HeapInv, ArmedInv, QueueInv, HistoryInv, Extended;
    EventLast(es, e);
    forall k | k in s.live ensures s.live[k].timer in s.heap {
      OwnsOf(s.heap, s.live, k);
    }
  }

  lemma OrderedFire(s: State, es: seq<Event>, timer: nat)
    requires Inv(s) && Addressed(s, es) && Allowed(s, Fire(timer)) && Step(s, Fire(timer)).Ok?
    requires Ordered(s.live, s.queue, s.ran, FiredOrder(es))
    ensures var s' := Step(s, Fire(timer)).value;
            Ordered(s'.live, s'.queue, s'.ran, FiredOrder(es + [Fire(timer)]))
  {
    hide Builds, LastBuilt, FiredOrder, HeapInv, QueueInv, HistoryInv;
    EventLast(es, Fire(timer));
    var k :| k in s.live && s.live[k].phase.Armed? && s.live[k].timer == timer;
    OwnsOf(s.heap, s.live, k);
  }

  lemma OrderedProcess(s: State, es: seq<Event>)
    requires Inv(s) && s.queue != [] && Ordered(s.live, s.queue, s.ran, FiredOrder(es))
    ensures StepProcess(s).Ok?
    ensures var s' := StepProcess(s).value;
            Ordered(s'.live, s'.queue, s'.ran, FiredOrder(es)) && |s'.ran| == |s.ran| + 1
  {
    hide FiredOrder, HeapInv, ArmedInv, HistoryInv, Without;
    var k := FrontTimeout(s);
    var fired := FiredOrder(es);
    var j := fired[|s.ran|];
    Disjoint(s.heap, s.live, j, k);
    ProcessFrees(s, k);
    hide StepProcess;
    var s' := StepProcess(s).value;
    assert s'.ran == fired[..|s.ran| + 1];
    forall m | |s'.ran| <= m < |fired|
      ensures fired[m] in s'.live && s'.live[fired[m]].arg == s'.queue[m - |s'.ran|]
    {
      assert s.queue[m - |s.ran|] != s.queue[0];
    }
  }

  lemma OrderedKeeps(s: State, es: seq<Event>, e: Event)
    requires Inv(s) && Addressed(s, es) && Allowed(s, e) && Step(s, e).Ok?
    requires Ordered(s.live, s.queue, s.ran, FiredOrder(es)) && |s.ran| == Processed(es)
    ensures var s' := Step(s, e).value;
            Ordered(s'.live, s'.queue, s'.ran, FiredOrder(es + [e])) && |s'.ran| == Processed(es + [e])
  {
    hide Builds, LastBuilt, FiredOrder, Processed, HeapInv, ArmedInv, QueueInv, StepProcess, Extended;
    assert s.count !in s.live;
    EventLast(es, e);
    match e {
      case Fire(timer) => OrderedFire(s, es, timer);
      case Process =>
        if s.queue == [] {
          NothingToProcess(s);
        } else {
          OrderedProcess(s, es);
        }
      case _ =>
    }
  }

  lemma NothingToProcess(s: State)
    requires s.queue == []
    ensures StepProcess(s) == Ok(s)
  {
  }

  lemma {:induction false} RunOrdered(es: seq<Event>)
    requires AllowedRun(START, es)
    ensures Run(START, es).Ok? && Inv(Run(START, es).value)
    ensures var s := Run(START, es).value;
            Addressed(s, es) && Ordered(s.live, s.queue, s.ran, FiredOrder(es)) && |s.ran| == Processed(es)
  {
    hide Inv, Allowed, Step;
    assert Inv(START) by { StartInv(); }
    RunKeeps(START, es);
    if es == [] {
    } else {
      var init, e := es[..|es| - 1], es[|es| - 1];
      assert es == init + [e];
      RunOneMore(START, init, e);
      RunOrdered(init);
      AddressedKeeps(Run(START, init).value, init, e);
      OrderedKeeps(Run(START, init).value, init, e);
    }
  }

  lemma StartInv()
    ensures Inv(START)
  {
  }

  /** Over every run: the callbacks that ran are those of the timers that fired, in the order in
      which these fired, as many as were processed; and the heap holds four cells for each timeout that was built and
      not yet processed. */
  lemma CallbacksRunAsFired(es: seq<Event>)
    requires AllowedRun(START, es)
    ensures Run(START, es).Ok?
    ensures Processed(es) <= |FiredOrder(es)| <= Processed(es) + 63
    ensures Run(START, es).value.ran == FiredOrder(es)[..Processed(es)]
    ensures Processed(es) <= Builds(es) && |Run(START, es).value.heap| == 4 * (Builds(es) - Processed(es))
  {
    hide Run, FiredOrder, Processed, Builds, HeapInv, ArmedInv;
    RunOrdered(es);
  }

  lemma {:induction false} FiredAt(es: seq<Event>, i: nat)
    requires i < |es| && es[i].Fire?
    ensures |FiredOrder(es[..i])| < |FiredOrder(es)|
    ensures FiredOrder(es)[|FiredOrder(es[..i])|] == LastBuilt(es[..i], es[i].timer)
  {
    hide LastBuilt;
    var init := es[..|es| - 1];
    if i == |es| - 1 {
    } else {
      FiredAt(init, i);
      assert init[..i] == es[..i];
    }
  }

  lemma {:induction false} FiredGrows(es: seq<Event>, i: nat)
    requires i <= |es|
    ensures |FiredOrder(es[..i])| <= |FiredOrder(es)|
  {
    hide LastBuilt;
    if i == |es| {
      assert es[..i] == es;
    } else {
      FiredGrows(es[..|es| - 1], i);
      assert es[..|es| - 1][..i] == es[..i];
    }
  }

  lemma FiredLater(es: seq<Event>, i: nat, j: nat)
    requires i < j < |es| && es[i].Fire? && es[j].Fire?
    ensures |FiredOrder(es[..i])| < |FiredOrder(es[..j])|
  {
    hide FiredOrder;
    FiredAt(es[..j], i);
    assert es[..j][..i] == es[..i];
  }

  /** If a timer fires before another one and the callback of the later one ran, then so did that
      of the earlier one, and before it. */
  lemma EarlierFiresRunFirst(es: seq<Event>, i: nat, j: nat)
    requires AllowedRun(START, es) && i < j < |es| && es[i].Fire? && es[j].Fire?
    ensures Run(START, es).Ok?
    ensures var ran := Run(START, es).value.ran;
            var first, second := LastBuilt(es[..i], es[i].timer), LastBuilt(es[..j], es[j].timer);
            second in ran ==> exists a, b :: 0 <= a < b < |ran| && ran[a] == first && ran[b] == second
  {
    hide Run, FiredOrder, Processed, LastBuilt, AllowedRun;
    CallbacksRunAsFired(es);
    var ran, fired := Run(START, es).value.ran, FiredOrder(es);
    FiredAt(es, i);
    FiredAt(es, j);
    FiredLater(es, i, j);
    var a, b := |FiredOrder(es[..i])|, |FiredOrder(es[..j])|;
    if fired[b] in ran {
      FiredOnce(es);
      var c :| 0 <= c < |ran| && ran[c] == fired[b];
      assert c == b;
      assert ran[a] == fired[a] && ran[b] == fired[b];
    }
  }

  /** No timeout fires twice. */
  lemma FiredOnce(es: seq<Event>)
    requires AllowedRun(START, es)
    ensures forall a, b :: 0 <= a < b < |FiredOrder(es)| ==> FiredOrder(es)[a] != FiredOrder(es)[b]
  {
    hide Run, FiredOrder, Processed, HeapInv, ArmedInv;
    RunOrdered(es);
    var s, fired := Run(START, es).value, FiredOrder(es);
    forall a, b | 0 <= a < b < |fired| ensures fired[a] != fired[b] {
      RanOnce(s);
      if a >= |s.ran| {
        assert s.queue[a - |s.ran|] != s.queue[b - |s.ran|];
      } else if b < |s.ran| {
        assert s.ran[a] == fired[a] && s.ran[b] == fired[b];
      } else {
        assert fired[b] in s.live && s.ran[a] == fired[a];
      }
    }
  }

  /** What ran is not outstanding, and ran once. */
  lemma RanOnce(s: State)
    requires HistoryInv(s)
    ensures forall a :: 0 <= a < |s.ran| ==> s.ran[a] !in s.live
    ensures forall a, b :: 0 <= a < b < |s.ran| ==> s.ran[a] != s.ran[b]
  {
    forall a | 0 <= a < |s.ran| ensures s.ran[a] !in s.live {
      assert s.ran[a] in s.ran;
      assert multiset(s.ran)[s.ran[a]] > 0;
    }
    forall a, b | 0 <= a < b < |s.ran| ensures s.ran[a] != s.ran[b] {
      if s.ran[a] == s.ran[b] {
        assert s.ran[a] in s.ran;
        TwiceCounts(s.ran, a, b);
        assert false;
      }
    }
  }

  lemma TwiceCounts(q: seq<nat>, a: nat, b: nat)
    requires a < b < |q| && q[a] == q[b]
    ensures multiset(q)[q[a]] >= 2
  {
    assert q == q[..b] + [q[b]] + q[b + 1..];
    assert q[..b][a] == q[a];
    assert multiset(q[..b])[q[a]] >= 1;
  }
}
