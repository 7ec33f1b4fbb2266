/**
 The lock-free counter: any number of workers, each performing `atomic_fetch_add(&counter, 1)` a given number of
 times.
 */
module AtomicCounter {

  /** `done[t]` counts the additions worker `t` has made. */
  datatype State = State(counter: int, done: seq<nat>)

  function Start(workers: nat): State {
    State(0, seq(workers, _ => 0))
  }

  predicate Enabled(rounds: nat, s: State, t: nat) {
    t < |s.done| && s.done[t] < rounds
  }

  function FetchAdd(s: State, t: nat): State
    requires t < |s.done|
  {
    State(s.counter + 1, s.done[t := s.done[t] + 1])
  }

  predicate Valid(rounds: nat, s: State, run: seq<nat>)
    decreases |run|
  {
    run == [] || (Enabled(rounds, s, run[0]) && Valid(rounds, FetchAdd(s, run[0]), run[1..]))
  }

  function Exec(rounds: nat, s: State, run: seq<nat>): State
    requires Valid(rounds, s, run)
    decreases |run|
  {
    if run == [] then s else Exec(rounds, FetchAdd(s, run[0]), run[1..])
  }

  function Sum(a: seq<nat>): nat {
    if a == [] then 0 else a[0] + Sum(a[1..])
  }

  lemma {:induction false} SumOfUpdate(a: seq<nat>, t: nat, v: nat)
    requires t < |a|
    ensures Sum(a[t := v]) == Sum(a) - a[t] + v
  {
    if t == 0 {
      assert a[t := v][1..] == a[1..];
    } else {
      assert a[t := v][1..] == a[1..][t - 1 := v];
      SumOfUpdate(a[1..], t - 1, v);
    }
  }

  lemma {:induction false} SumOfEqual(a: seq<nat>, v: nat)
    requires forall t | 0 <= t < |a| :: a[t] == v
    ensures Sum(a) == |a| * v
  {
    if a != [] {
      SumOfEqual(a[1..], v);
    }
  }

  lemma {:induction false} CounterIsSum(rounds: nat, s: State, run: seq<nat>)
    requires Valid(rounds, s, run) && s.counter == Sum(s.done)
    ensures var s' := Exec(rounds, s, run); s'.counter == Sum(s'.done) && |s'.done| == |s.done|
    decreases |run|
  {
    if run != [] {
      SumOfUpdate(s.done, run[0], s.done[run[0]] + 1);
      CounterIsSum(rounds, FetchAdd(s, run[0]), run[1..]);
    }
  }

  /** When every worker has made all its additions, none is missing. */
  lemma {:induction false} FinalCounter(workers: nat, rounds: nat, run: seq<nat>)
    requires Valid(rounds, Start(workers), run)
    ensures var s := Exec(rounds, Start(workers), run);
            (forall t | 0 <= t < |s.done| :: s.done[t] == rounds) ==> s.counter == workers * rounds
  {
    var s := Exec(rounds, Start(workers), run);
    SumOfEqual(Start(workers).done, 0);
    CounterIsSum(rounds, Start(workers), run);
    if forall t | 0 <= t < |s.done| :: s.done[t] == rounds {
      SumOfEqual(s.done, rounds);
    }
  }
}

/**
 Any number of workers incrementing a plain counter under the spin lock, on memory with store buffers.

 `my_lock` is an atomic exchange repeated until it returns false, `my_unlock` an atomic store; between them the
 counter is loaded, incremented and stored with plain accesses. The module proves mutual exclusion and that the
 program refines the atomic counter: every run, seen through the newest value of the counter, is a run of atomic
 additions.
 */
module SpinLock {
  import opened StoreBuffer
  import AtomicCounter

  datatype Var = Locked | Counter

  datatype Pc = AtExchange | AtYield | AtLoad | AtAdd | AtStore | AtUnlock | Done

  datatype Thread = Thread(pc: Pc, i: nat, reg: int)

  datatype State = State(memory: Memory<Var>, threads: seq<Thread>)

  datatype Action = Run(thread: nat) | Flush(thread: nat)

  function Start(workers: nat, rounds: nat): State {
    State(Fresh(workers), seq(workers, _ => Thread(if rounds == 0 then Done else AtExchange, 0, 0)))
  }

  predicate WellFormed(s: State) {
    |s.memory.buffers| == |s.threads|
  }

  predicate Enabled(s: State, a: Action)
    requires WellFormed(s)
  {
    && a.thread < |s.threads|
    && match a
       case Flush(t) => !s.memory.Drained(t)
       case Run(t) =>
         match s.threads[t].pc
         case Done => false
         case AtExchange => s.memory.Drained(t)
         case AtUnlock => s.memory.Drained(t)
         case _ => true
  }

  function Next(rounds: nat, s: State, a: Action): (s': State)
    requires WellFormed(s) && Enabled(s, a)
    ensures WellFormed(s') && |s'.threads| == |s.threads|
  {
    var t := a.thread;
    var th := s.threads[t];
    if a.Flush? then s.(memory := s.memory.Flush(t))
    else
      match th.pc
      case AtExchange =>
        State(s.memory.AtomicStore(t, Locked, 1),
              s.threads[t := th.(pc := if s.memory.Get(Locked) != 0 then AtYield else AtLoad)])
      case AtYield => s.(threads := s.threads[t := th.(pc := AtExchange)])
      case AtLoad => s.(threads := s.threads[t := th.(pc := AtAdd, reg := s.memory.Load(t, Counter))])
      case AtAdd => s.(threads := s.threads[t := th.(pc := AtStore, reg := th.reg + 1)])
      case AtStore => State(s.memory.Store(t, Counter, th.reg), s.threads[t := th.(pc := AtUnlock)])
      case AtUnlock =>
        State(s.memory.AtomicStore(t, Locked, 0),
              s.threads[t := th.(pc := if th.i + 1 < rounds then AtExchange else Done, i := th.i + 1)])
  }

  predicate Valid(rounds: nat, s: State, run: seq<Action>)
    requires WellFormed(s)
    decreases |run|
  {
    run == [] || (Enabled(s, run[0]) && Valid(rounds, Next(rounds, s, run[0]), run[1..]))
  }

  function Exec(rounds: nat, s: State, run: seq<Action>): (s': State)
    requires WellFormed(s) && Valid(rounds, s, run)
    ensures WellFormed(s') && |s'.threads| == |s.threads|
    decreases |run|
  {
    if run == [] then s else Exec(rounds, Next(rounds, s, run[0]), run[1..])
  }

  predicate Critical(th: Thread) {
    th.pc.AtLoad? || th.pc.AtAdd? || th.pc.AtStore? || th.pc.AtUnlock?
  }

  // ---------------------------------------------------------------- seen as an atomic counter

  /** Additions that have taken effect: an iteration's counts from the moment its store is issued. */
  function Additions(th: Thread): nat {
    th.i + if th.pc.AtUnlock? then 1 else 0
  }

  /** The newest value of the counter: a store still buffered by thread `t` or a later one, or else memory. */
  function NewestCounter(memory: Memory<Var>, t: nat): int
    requires t <= |memory.buffers|
    decreases |memory.buffers| - t
  {
    if t == |memory.buffers| then memory.Get(Counter)
    else if !memory.Drained(t) then memory.Load(t, Counter)
    else NewestCounter(memory, t + 1)
  }

  function Abstract(s: State): AtomicCounter.State {
    AtomicCounter.State(
      NewestCounter(s.memory, 0),
      seq(|s.threads|, t requires 0 <= t < |s.threads| => Additions(s.threads[t])))
  }

  lemma {:induction false} NoBufferedCounter(memory: Memory<Var>, t: nat)
    requires t <= |memory.buffers|
    requires forall u | t <= u < |memory.buffers| :: memory.Drained(u)
    ensures NewestCounter(memory, t) == memory.Get(Counter)
    decreases |memory.buffers| - t
  {
    if t < |memory.buffers| {
      NoBufferedCounter(memory, t + 1);
    }
  }

  lemma {:induction false} OneBufferedCounter(memory: Memory<Var>, t: nat, owner: nat, value: int)
    requires t <= owner < |memory.buffers| && memory.buffers[owner] == [Entry(Counter, value)]
    requires forall u | t <= u < |memory.buffers| && u != owner :: memory.Drained(u)
    ensures NewestCounter(memory, t) == value
    decreases |memory.buffers| - t
  {
    if t < owner {
      OneBufferedCounter(memory, t + 1, owner, value);
    }
  }

  // ---------------------------------------------------------------- invariant

  /** `total` is the number of additions so far. */
  predicate ThreadInv(rounds: nat, s: State, total: int, t: nat)
    requires WellFormed(s) && t < |s.threads|
  {
    var th, buffer := s.threads[t], s.memory.buffers[t];
    && th.i <= rounds
    && (th.pc == Done <==> th.i == rounds)
    && (Critical(th) ==> s.memory.Get(Locked) == 1)
    && (!th.pc.AtUnlock? ==> buffer == [])
    && (th.pc.AtLoad? || th.pc.AtAdd? || th.pc.AtStore? ==> s.memory.Get(Counter) == total)
    && (th.pc.AtAdd? ==> th.reg == total)
    && (th.pc.AtStore? ==> th.reg == total + 1)
    && (th.pc.AtUnlock? ==> buffer == [Entry(Counter, total)] || (buffer == [] && s.memory.Get(Counter) == total))
  }

  predicate Inside(s: State, t: int) {
    0 <= t < |s.threads| && Critical(s.threads[t])
  }

  ghost predicate Exclusive(s: State) {
    forall t, u | t < u :: !(Inside(s, t) && Inside(s, u))
  }

  ghost predicate Inv(rounds: nat, s: State) {
    var total := AtomicCounter.Sum(Abstract(s).done);
    && WellFormed(s)
    && (forall t | 0 <= t < |s.threads| :: ThreadInv(rounds, s, total, t))
    && Exclusive(s)
    && ((forall t | 0 <= t < |s.threads| :: !s.threads[t].pc.AtUnlock?) ==> s.memory.Get(Counter) == total)
    && (s.memory.Get(Locked) != 0 ==> exists t :: Inside(s, t))
  }

  /** The newest counter always equals the number of additions. */
  lemma NewestIsTotal(rounds: nat, s: State)
    requires Inv(rounds, s)
    ensures Abstract(s).counter == AtomicCounter.Sum(Abstract(s).done)
  {
    var total := AtomicCounter.Sum(Abstract(s).done);
    if t :| 0 <= t < |s.threads| && s.memory.buffers[t] != [] {
      assert ThreadInv(rounds, s, total, t);
      forall u | 0 <= u < |s.threads| && u != t
        ensures s.memory.Drained(u)
      {
        assert ThreadInv(rounds, s, total, u);
        assert t < u ==> !(Inside(s, t) && Inside(s, u));
        assert u < t ==> !(Inside(s, u) && Inside(s, t));
      }
      OneBufferedCounter(s.memory, 0, t, total);
    } else {
      NoBufferedCounter(s.memory, 0);
      if t :| 0 <= t < |s.threads| && s.threads[t].pc.AtUnlock? {
        assert ThreadInv(rounds, s, total, t);
      }
    }
  }

  /**
   Only issuing the store adds: it moves the abstraction by one atomic addition, every other step leaves the sum
   alone.
   */
  lemma NextAdditions(rounds: nat, s: State, a: Action)
    requires WellFormed(s) && Enabled(s, a)
    ensures var done, done' := Abstract(s).done, Abstract(Next(rounds, s, a)).done;
            if a.Run? && s.threads[a.thread].pc.AtStore? then
              done' == done[a.thread := done[a.thread] + 1] && AtomicCounter.Sum(done') == AtomicCounter.Sum(done) + 1
            else
              done' == done
  {
    var done, done' := Abstract(s).done, Abstract(Next(rounds, s, a)).done;
    if a.Run? && s.threads[a.thread].pc.AtStore? {
      AtomicCounter.SumOfUpdate(done, a.thread, done[a.thread] + 1);
      assert done' == done[a.thread := done[a.thread] + 1];
    } else {
      assert done' == done;
    }
  }

  lemma NextKeepsThreadInv(rounds: nat, s: State, a: Action, t: nat)
    requires Inv(rounds, s) && Enabled(s, a) && t < |s.threads|
    ensures var s' := Next(rounds, s, a); ThreadInv(rounds, s', AtomicCounter.Sum(Abstract(s').done), t)
  {
    NextAdditions(rounds, s, a);
    var total := AtomicCounter.Sum(Abstract(s).done);
    assert ThreadInv(rounds, s, total, t);
    assert ThreadInv(rounds, s, total, a.thread);
    if s.memory.Get(Locked) != 1 {
      forall u | 0 <= u < |s.threads|
        ensures !s.threads[u].pc.AtUnlock?
      {
        assert ThreadInv(rounds, s, total, u);
      }
    }
    assert t < a.thread ==> !(Inside(s, t) && Inside(s, a.thread));
    assert a.thread < t ==> !(Inside(s, a.thread) && Inside(s, t));
  }

  lemma NextKeepsExclusive(rounds: nat, s: State, a: Action)
    requires Inv(rounds, s) && Enabled(s, a)
    ensures Exclusive(Next(rounds, s, a))
  {
    var s', total := Next(rounds, s, a), AtomicCounter.Sum(Abstract(s).done);
    forall t: nat, u: nat | t < u
      ensures !(Inside(s', t) && Inside(s', u))
    {
      assert t < |s.threads| ==> ThreadInv(rounds, s, total, t);
      assert u < |s.threads| ==> ThreadInv(rounds, s, total, u);
      assert !(Inside(s, t) && Inside(s, u));
    }
  }

  lemma NextKeepsMemory(rounds: nat, s: State, a: Action)
    requires Inv(rounds, s) && Enabled(s, a)
    ensures var s' := Next(rounds, s, a);
            (forall t | 0 <= t < |s'.threads| :: !s'.threads[t].pc.AtUnlock?) ==>
              s'.memory.Get(Counter) == AtomicCounter.Sum(Abstract(s').done)
  {
    var s', t := Next(rounds, s, a), a.thread;
    var total := AtomicCounter.Sum(Abstract(s).done);
    NextAdditions(rounds, s, a);
    assert ThreadInv(rounds, s, total, t);
    if forall u | 0 <= u < |s'.threads| :: !s'.threads[u].pc.AtUnlock? {
      assert !s'.threads[t].pc.AtUnlock?;
      if !s.threads[t].pc.AtUnlock? {
        forall u | 0 <= u < |s.threads|
          ensures !s.threads[u].pc.AtUnlock?
        {
          assert u != t ==> s'.threads[u] == s.threads[u];
        }
      }
    }
  }

  lemma NextKeepsLockHeld(rounds: nat, s: State, a: Action)
    requires Inv(rounds, s) && Enabled(s, a)
    ensures var s' := Next(rounds, s, a); s'.memory.Get(Locked) != 0 ==> exists t :: Inside(s', t)
  {
    var s' := Next(rounds, s, a);
    assert ThreadInv(rounds, s, AtomicCounter.Sum(Abstract(s).done), a.thread);
    if s'.memory.Get(Locked) != 0 && !Inside(s', a.thread) {
      assert s.memory.Get(Locked) != 0;
      var t :| Inside(s, t);
      assert Inside(s', t);
    }
  }

  lemma NextKeepsInv(rounds: nat, s: State, a: Action)
    requires Inv(rounds, s) && Enabled(s, a)
    ensures Inv(rounds, Next(rounds, s, a))
  {
    var s' := Next(rounds, s, a);
    forall t | 0 <= t < |s'.threads|
      ensures ThreadInv(rounds, s', AtomicCounter.Sum(Abstract(s').done), t)
    {
      NextKeepsThreadInv(rounds, s, a, t);
    }
    NextKeepsExclusive(rounds, s, a);
    NextKeepsMemory(rounds, s, a);
    NextKeepsLockHeld(rounds, s, a);
  }

  // ---------------------------------------------------------------- main results

  lemma StartInv(workers: nat, rounds: nat)
    ensures Inv(rounds, Start(workers, rounds))
    ensures Abstract(Start(workers, rounds)) == AtomicCounter.Start(workers)
  {
    var s := Start(workers, rounds);
    assert Abstract(s).done == AtomicCounter.Start(workers).done;
    AtomicCounter.SumOfEqual(Abstract(s).done, 0);
    NoBufferedCounter(s.memory, 0);
  }

  lemma {:induction false} ExecKeepsInv(rounds: nat, s: State, run: seq<Action>)
    requires Inv(rounds, s) && Valid(rounds, s, run)
    ensures Inv(rounds, Exec(rounds, s, run))
    decreases |run|
  {
    if run != [] {
      NextKeepsInv(rounds, s, run[0]);
      ExecKeepsInv(rounds, Next(rounds, s, run[0]), run[1..]);
    }
  }

  /** At no time are two workers between their lock and their unlock. */
  lemma MutualExclusion(workers: nat, rounds: nat, run: seq<Action>, t: nat, u: nat)
    requires Valid(rounds, Start(workers, rounds), run) && t < u < workers
    ensures var s := Exec(rounds, Start(workers, rounds), run); !(Critical(s.threads[t]) && Critical(s.threads[u]))
  {
    var s := Exec(rounds, Start(workers, rounds), run);
    StartInv(workers, rounds);
    ExecKeepsInv(rounds, Start(workers, rounds), run);
    assert !(Inside(s, t) && Inside(s, u));
  }

  /** Simulation: every run of the locked workers shows the states of a run of atomic additions. */
  lemma {:induction false} Refines(rounds: nat, s: State, run: seq<Action>) returns (additions: seq<nat>)
    requires Inv(rounds, s) && Valid(rounds, s, run)
    ensures AtomicCounter.Valid(rounds, Abstract(s), additions)
    ensures AtomicCounter.Exec(rounds, Abstract(s), additions) == Abstract(Exec(rounds, s, run))
    decreases |run|
  {
    if run == [] {
      additions := [];
    } else {
      var a := run[0];
      var s' := Next(rounds, s, a);
      NextKeepsInv(rounds, s, a);
      NextAdditions(rounds, s, a);
      NewestIsTotal(rounds, s);
      NewestIsTotal(rounds, s');
      additions := Refines(rounds, s', run[1..]);
      if a.Run? && s.threads[a.thread].pc.AtStore? {
        assert ThreadInv(rounds, s, AtomicCounter.Sum(Abstract(s).done), a.thread);
        ghost var rest := additions;
        additions := [a.thread] + rest;
        assert additions[1..] == rest;
        assert AtomicCounter.FetchAdd(Abstract(s), a.thread) == Abstract(s');
      }
    }
  }

  /** When all workers are done, memory itself holds one addition for every iteration of every worker. */
  lemma {:induction false} FinalCounter(workers: nat, rounds: nat, run: seq<Action>)
    requires Valid(rounds, Start(workers, rounds), run)
    ensures var s := Exec(rounds, Start(workers, rounds), run);
            (forall t | 0 <= t < workers :: s.threads[t].pc == Done) ==> s.memory.Get(Counter) == workers * rounds
  {
    var s := Exec(rounds, Start(workers, rounds), run);
    StartInv(workers, rounds);
    ExecKeepsInv(rounds, Start(workers, rounds), run);
    if forall t | 0 <= t < workers :: s.threads[t].pc == Done {
      var done := Abstract(s).done;
      forall t | 0 <= t < workers
        ensures done[t] == rounds
      {
        assert ThreadInv(rounds, s, AtomicCounter.Sum(done), t);
      }
      AtomicCounter.SumOfEqual(done, rounds);
    }
  }

  // ---------------------------------------------------------------- the workers can finish

  /** How far a worker is from being done, if it does not have to try for the lock again. */
  function Remaining(rounds: nat, th: Thread, buffered: nat): int {
    10 * (rounds - th.i) + buffered + match th.pc
      case AtYield => 8
      case AtExchange => 7
      case AtLoad => 6
      case AtAdd => 5
      case AtStore => 4
      case AtUnlock => 2
      case Done => 0
  }

  /** The same for all workers; one that has done more iterations than it should does not count. */
  function Measures(rounds: nat, s: State): (m: seq<nat>)
    requires WellFormed(s)
    ensures |m| == |s.threads|
  {
    seq(|s.threads|, t requires 0 <= t < |s.threads| =>
      var m := Remaining(rounds, s.threads[t], |s.memory.buffers[t]|);
      if m < 0 then 0 else m)
  }

  function Measure(rounds: nat, s: State): nat
    requires WellFormed(s)
  {
    AtomicCounter.Sum(Measures(rounds, s))
  }

  /** A step that gets its worker on: a flush, or its next instruction unless that is a try for a lock that is held. */
  predicate GetsOn(s: State, a: Action)
    requires WellFormed(s) && Enabled(s, a)
  {
    a.Run? && s.threads[a.thread].pc == AtExchange ==> s.memory.Get(Locked) == 0
  }

  lemma GettingOnShrinksMeasure(rounds: nat, s: State, a: Action)
    requires Inv(rounds, s) && Enabled(s, a) && GetsOn(s, a)
    ensures Measure(rounds, Next(rounds, s, a)) < Measure(rounds, s)
  {
    var t, s' := a.thread, Next(rounds, s, a);
    var m, m' := Measures(rounds, s), Measures(rounds, s');
    assert ThreadInv(rounds, s, AtomicCounter.Sum(Abstract(s).done), t);
    assert m'[t] < m[t];
    assert m' == m[t := m'[t]];
    AtomicCounter.SumOfUpdate(m, t, m'[t]);
  }

  /** As long as not everybody is done, somebody can get on: whoever is inside, or anybody when nobody is. */
  lemma SomebodyGetsOn(rounds: nat, s: State, unfinished: nat) returns (a: Action)
    requires Inv(rounds, s) && unfinished < |s.threads| && s.threads[unfinished].pc != Done
    ensures Enabled(s, a) && GetsOn(s, a)
  {
    var total := AtomicCounter.Sum(Abstract(s).done);
    var t := unfinished;
    if u :| Inside(s, u) {
      t := u;
    }
    assert ThreadInv(rounds, s, total, t);
    a := if s.memory.Drained(t) then Run(t) else Flush(t);
  }

  /** From wherever a run has got to, letting the workers go on in a suitable order makes them all finish. */
  lemma CanAlwaysFinish(rounds: nat, s: State) returns (run: seq<Action>)
    requires Inv(rounds, s)
    ensures Valid(rounds, s, run)
    ensures forall t | 0 <= t < |s.threads| :: Exec(rounds, s, run).threads[t].pc == Done
    decreases Measure(rounds, s)
  {
    if t :| 0 <= t < |s.threads| && s.threads[t].pc != Done {
      var a := SomebodyGetsOn(rounds, s, t);
      NextKeepsInv(rounds, s, a);
      GettingOnShrinksMeasure(rounds, s, a);
      var rest := CanAlwaysFinish(rounds, Next(rounds, s, a));
      run := [a] + rest;
      assert run[1..] == rest;
    } else {
      run := [];
    }
  }

  /** Some run does end with all workers done, and then the counter is complete. */
  lemma SomeRunFinishes(workers: nat, rounds: nat) returns (run: seq<Action>)
    ensures Valid(rounds, Start(workers, rounds), run)
    ensures var s := Exec(rounds, Start(workers, rounds), run);
            && (forall t | 0 <= t < workers :: s.threads[t].pc == Done)
            && s.memory.Get(Counter) == workers * rounds
  {
    StartInv(workers, rounds);
    run := CanAlwaysFinish(rounds, Start(workers, rounds));
    FinalCounter(workers, rounds, run);
  }
}
