/**
 Shared memory in which every thread keeps its plain stores in a first-in-first-out buffer for a while.

 A load sees the thread's own newest buffered store, or else memory; a flush moves the oldest buffered store to memory;
 an atomic operation has to wait until the thread's buffer is empty. Variables never stored to hold 0, like C globals.
 */
module StoreBuffer {

  datatype Entry<Var> = Entry(variable: Var, value: int)

  datatype Memory<Var(==)> = Memory(main: map<Var, int>, buffers: seq<seq<Entry<Var>>>) {

    function Get(x: Var): int {
      if x in main then main[x] else 0
    }

    predicate Drained(t: nat)
      requires t < |buffers|
    {
      buffers[t] == []
    }

    function Load(t: nat, x: Var): int
      requires t < |buffers|
    {
      Newest(buffers[t], x, Get(x))
    }

    function Store(t: nat, x: Var, value: int): Memory<Var>
      requires t < |buffers|
    {
      this.(buffers := buffers[t := buffers[t] + [Entry(x, value)]])
    }

    function Flush(t: nat): Memory<Var>
      requires t < |buffers| && !Drained(t)
    {
      Memory(main[buffers[t][0].variable := buffers[t][0].value], buffers[t := buffers[t][1..]])
    }

    /** An atomic store or exchange by a thread whose buffer is empty goes straight to memory. */
    function AtomicStore(t: nat, x: Var, value: int): Memory<Var>
      requires t < |buffers| && Drained(t)
    {
      this.(main := main[x := value])
    }
  }

  function Newest<Var(==)>(buffer: seq<Entry<Var>>, x: Var, otherwise: int): int {
    if buffer == [] then otherwise
    else
      var last := buffer[|buffer| - 1];
      if last.variable == x then last.value else Newest(buffer[..|buffer| - 1], x, otherwise)
  }

  function Fresh<Var(==)>(threads: nat): Memory<Var> {
    Memory(map[], seq(threads, _ => []))
  }
}

/**
 The store-buffering test: each of two threads sets its own variable and then reads the other's. With plain stores both
 can read 0; with sequentially consistent atomic stores that outcome, and only that one, is gone.
 */
module StoreBufferingTest {
  import opened StoreBuffer

  datatype Var = X | Y

  /** Where a thread stands, and what it has read (0 until it has). */
  datatype Thread = Thread(stored: bool, finished: bool, read: int)

  datatype State = State(memory: Memory<Var>, one: Thread, two: Thread)

  datatype Action = Run(thread: nat) | Flush(thread: nat)

  const START := State(Fresh(2), Thread(false, false, 0), Thread(false, false, 0))

  function Own(t: nat): Var {
    if t == 0 then X else Y
  }

  function Of(s: State, t: nat): Thread {
    if t == 0 then s.one else s.two
  }

  predicate WellFormed(s: State) {
    |s.memory.buffers| == 2
  }

  predicate Enabled(atomic: bool, s: State, a: Action)
    requires WellFormed(s)
  {
    && a.thread < 2
    && match a
       case Flush(t) => !s.memory.Drained(t)
       case Run(t) => !Of(s, t).finished && (atomic && !Of(s, t).stored ==> s.memory.Drained(t))
  }

  function Next(atomic: bool, s: State, a: Action): (s': State)
    requires WellFormed(s) && Enabled(atomic, s, a)
    ensures WellFormed(s')
  {
    var t := a.thread;
    if a.Flush? then s.(memory := s.memory.Flush(t))
    else if !Of(s, t).stored then
      var memory := if atomic then s.memory.AtomicStore(t, Own(t), 1) else s.memory.Store(t, Own(t), 1);
      With(s, t, Of(s, t).(stored := true)).(memory := memory)
    else
      With(s, t, Of(s, t).(finished := true, read := s.memory.Load(t, Own(1 - t))))
  }

  function With(s: State, t: nat, thread: Thread): (s': State)
    ensures s'.memory == s.memory
  {
    if t == 0 then s.(one := thread) else s.(two := thread)
  }

  predicate Valid(atomic: bool, s: State, run: seq<Action>)
    requires WellFormed(s)
    decreases |run|
  {
    run == [] || (Enabled(atomic, s, run[0]) && Valid(atomic, Next(atomic, s, run[0]), run[1..]))
  }

  function Exec(atomic: bool, s: State, run: seq<Action>): State
    requires WellFormed(s) && Valid(atomic, s, run)
    decreases |run|
  {
    if run == [] then s else Exec(atomic, Next(atomic, s, run[0]), run[1..])
  }

  ghost predicate Reachable(atomic: bool, s: State) {
    exists run: seq<Action> :: Valid(atomic, START, run) && Exec(atomic, START, run) == s
  }

  /** `thread_one` can end with this read_y while `thread_two` ends with this read_x. */
  ghost predicate CanRead(atomic: bool, readY: int, readX: int) {
    exists s :: Reachable(atomic, s) && s.one == Thread(true, true, readY) && s.two == Thread(true, true, readX)
  }

  // ---------------------------------------------------------------- what cannot be read

  predicate Values(s: State)
    requires WellFormed(s)
  {
    && 0 <= s.memory.Get(X) <= 1 && 0 <= s.memory.Get(Y) <= 1
    && (forall t, k | 0 <= t < 2 && 0 <= k < |s.memory.buffers[t]| :: s.memory.buffers[t][k].value == 1)
    && 0 <= s.one.read <= 1 && 0 <= s.two.read <= 1
  }

  predicate AtomicInv(s: State)
    requires WellFormed(s)
  {
    && s.memory.Drained(0) && s.memory.Drained(1)
    && (s.one.stored ==> s.memory.Get(X) == 1)
    && (s.two.stored ==> s.memory.Get(Y) == 1)
    && (!s.one.stored ==> s.memory.Get(X) == 0 && !s.one.finished)
    && (!s.two.stored ==> s.memory.Get(Y) == 0 && !s.two.finished)
    && !(s.one.finished && s.two.finished && s.one.read == 0 && s.two.read == 0)
  }

  lemma {:induction false} NewestIsOne(buffer: seq<Entry<Var>>, x: Var, otherwise: int)
    requires forall k | 0 <= k < |buffer| :: buffer[k].value == 1
    ensures var v := Newest(buffer, x, otherwise); v == 1 || v == otherwise
  {
    if buffer != [] {
      NewestIsOne(buffer[..|buffer| - 1], x, otherwise);
    }
  }

  lemma NextKeepsValues(atomic: bool, s: State, a: Action)
    requires WellFormed(s) && Values(s) && Enabled(atomic, s, a)
    ensures Values(Next(atomic, s, a))
  {
    var t := a.thread;
    NewestIsOne(s.memory.buffers[t], Own(1 - t), s.memory.Get(Own(1 - t)));
  }

  lemma {:induction false} ExecKeepsInv(atomic: bool, s: State, run: seq<Action>)
    requires WellFormed(s) && Valid(atomic, s, run) && Values(s) && (atomic ==> AtomicInv(s))
    ensures var s' := Exec(atomic, s, run); WellFormed(s') && Values(s') && (atomic ==> AtomicInv(s'))
    decreases |run|
  {
    if run != [] {
      NextKeepsValues(atomic, s, run[0]);
      ExecKeepsInv(atomic, Next(atomic, s, run[0]), run[1..]);
    }
  }

  // ---------------------------------------------------------------- what can be read

  lemma {:induction false} ExecThen(atomic: bool, s: State, run: seq<Action>, a: Action)
    requires WellFormed(s) && Valid(atomic, s, run) && WellFormed(Exec(atomic, s, run))
    requires Enabled(atomic, Exec(atomic, s, run), a)
    ensures Valid(atomic, s, run + [a])
    ensures Exec(atomic, s, run + [a]) == Next(atomic, Exec(atomic, s, run), a)
    decreases |run|
  {
    if run != [] {
      ExecThen(atomic, Next(atomic, s, run[0]), run[1..], a);
      assert (run + [a])[1..] == run[1..] + [a];
    }
  }

  lemma Then(atomic: bool, s: State, a: Action) returns (s': State)
    requires Reachable(atomic, s) && WellFormed(s) && Enabled(atomic, s, a)
    ensures s' == Next(atomic, s, a) && Reachable(atomic, s')
  {
    var run: seq<Action> :| Valid(atomic, START, run) && Exec(atomic, START, run) == s;
    ExecThen(atomic, START, run, a);
    s' := Next(atomic, s, a);
  }

  /** A thread whose only buffered store is to its own variable reads the other one from memory. */
  lemma ReadsMemory(s: State, t: nat)
    requires WellFormed(s) && t < 2 && s.memory.buffers[t] == [Entry(Own(t), 1)]
    ensures s.memory.Load(t, Own(1 - t)) == s.memory.Get(Own(1 - t))
  {
    var x := Own(1 - t);
    assert s.memory.buffers[t][..0] == [];
    assert Newest([], x, s.memory.Get(x)) == s.memory.Get(x);
  }

  /** Thread `first` finishes before the other starts. */
  lemma OneAfterTheOther(atomic: bool, first: nat)
    requires first < 2
    ensures if first == 0 then CanRead(atomic, 0, 1) else CanRead(atomic, 1, 0)
  {
    assert Exec(atomic, START, []) == START;
    var s := Then(atomic, START, Run(first));
    if !atomic {
      s := Then(atomic, s, Flush(first));
    }
    s := Then(atomic, s, Run(first));
    s := Then(atomic, s, Run(1 - first));
    if !atomic {
      ReadsMemory(s, 1 - first);
    }
    s := Then(atomic, s, Run(1 - first));
  }

  lemma BothSeeOne(atomic: bool)
    ensures CanRead(atomic, 1, 1)
  {
    assert Exec(atomic, START, []) == START;
    var s := Then(atomic, START, Run(0));
    s := Then(atomic, s, Run(1));
    if !atomic {
      s := Then(atomic, s, Flush(0));
      s := Then(atomic, s, Flush(1));
    }
    s := Then(atomic, s, Run(0));
    s := Then(atomic, s, Run(1));
  }

  lemma BothStored() returns (s: State)
    ensures Reachable(false, s) && s.one == s.two == Thread(true, false, 0)
    ensures s.memory.main == map[] && WellFormed(s)
    ensures s.memory.buffers[0] == [Entry(X, 1)] && s.memory.buffers[1] == [Entry(Y, 1)]
  {
    assert Exec(false, START, []) == START;
    s := Then(false, START, Run(0));
    s := Then(false, s, Run(1));
  }

  lemma BothMissTheStore()
    ensures CanRead(false, 0, 0)
  {
    var s := BothStored();
    ReadsMemory(s, 0);
    s := Then(false, s, Run(0));
    ReadsMemory(s, 1);
    s := Then(false, s, Run(1));
  }

  /**
   The outcomes of both programs, exactly: `main`'s loop, which stops only at 0 and 0, can stop just with plain
   stores.
   */
  lemma Outcomes(atomic: bool, readY: int, readX: int)
    ensures CanRead(atomic, readY, readX)
        <==> readY in {0, 1} && readX in {0, 1} && !(atomic && readY == 0 && readX == 0)
  {
    if CanRead(atomic, readY, readX) {
      var s :| Reachable(atomic, s) && s.one == Thread(true, true, readY) && s.two == Thread(true, true, readX);
      var run: seq<Action> :| Valid(atomic, START, run) && Exec(atomic, START, run) == s;
      ExecKeepsInv(atomic, START, run);
    }
    OneAfterTheOther(atomic, 0);
    OneAfterTheOther(atomic, 1);
    BothSeeOne(atomic);
    BothMissTheStore();
  }
}
