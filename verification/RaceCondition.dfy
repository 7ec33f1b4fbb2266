/**
 Two unsynchronised workers that each add one to a shared counter `n` times.

 `counter += 1` is three machine steps (read, increment, write), and a schedule picks which worker makes the next step.
 The module proves which final values the counter can have: exactly 0 for no iterations, exactly 1 and 2 for one
 iteration each, and exactly every integer from 2 to 2n otherwise.
 */
module RaceCondition {

  datatype Tid = A | B

  datatype Pc = Read | Increment | Write

  /** What one worker keeps in its own registers; `i` counts the iterations it has finished. */
  datatype Worker = Worker(pc: Pc, i: nat, reg: int)

  datatype State = State(counter: int, a: Worker, b: Worker) {
    function Of(t: Tid): Worker {
      if t == A then a else b
    }
  }

  const START := State(0, Worker(Read, 0, 0), Worker(Read, 0, 0))

  /** One machine step of worker `t`; a worker that has done its `n` iterations stays put. */
  function Step(n: nat, s: State, t: Tid): State {
    var w := s.Of(t);
    if w.i >= n then s
    else
      var w' := match w.pc
        case Read => w.(pc := Increment, reg := s.counter)
        case Increment => w.(pc := Write, reg := w.reg + 1)
        case Write => w.(pc := Read, i := w.i + 1);
      var counter' := if w.pc == Write then w.reg else s.counter;
      if t == A then State(counter', w', s.b) else State(counter', s.a, w')
  }

  function Exec(n: nat, s: State, schedule: seq<Tid>): State
    decreases |schedule|
  {
    if schedule == [] then s else Exec(n, Step(n, s, schedule[0]), schedule[1..])
  }

  predicate Finished(n: nat, s: State) {
    s.a.i == n && s.b.i == n
  }

  ghost predicate IsFinalValue(n: nat, v: int) {
    exists schedule: seq<Tid> ::
      var s := Exec(n, START, schedule);
      Finished(n, s) && s.counter == v
  }

  // ---------------------------------------------------------------- bounds

  /** A register read in iteration two or later has seen at least one write, so its write leaves at least 2. */
  predicate RegisterInRange(s: State, w: Worker) {
    var writes := s.a.i + s.b.i;
    match w.pc
    case Read => true
    case Increment => (if w.i > 0 then 1 else 0) <= w.reg <= writes
    case Write => (if w.i > 0 then 2 else 1) <= w.reg <= writes + 1
  }

  predicate Inv(n: nat, s: State) {
    && s.a.i <= n && s.b.i <= n
    && 0 <= s.counter <= s.a.i + s.b.i
    && (s.a.i + s.b.i > 0 ==> s.counter >= 1)
    && (s.a.i >= 2 && s.b.i >= 2 ==> s.counter >= 2)
    && RegisterInRange(s, s.a)
    && RegisterInRange(s, s.b)
  }

  lemma {:induction false} ExecKeepsInv(n: nat, s: State, schedule: seq<Tid>)
    requires Inv(n, s)
    ensures Inv(n, Exec(n, s, schedule))
    decreases |schedule|
  {
    if schedule != [] {
      ExecKeepsInv(n, Step(n, s, schedule[0]), schedule[1..]);
    }
  }

  // ---------------------------------------------------------------- witnesses

  lemma {:induction false} ExecConcat(n: nat, s: State, p: seq<Tid>, q: seq<Tid>)
    ensures Exec(n, s, p + q) == Exec(n, Exec(n, s, p), q)
    decreases |p|
  {
    if p == [] {
      assert p + q == q;
    } else {
      assert (p + q)[0] == p[0] && (p + q)[1..] == p[1..] + q;
      ExecConcat(n, Step(n, s, p[0]), p[1..], q);
    }
  }

  function With(s: State, t: Tid, w: Worker, counter: int): State {
    if t == A then State(counter, w, s.b) else State(counter, s.a, w)
  }

  /** Worker `t`, running alone from the top of its loop, adds one per iteration. */
  lemma {:induction false} RunAlone(n: nat, s: State, t: Tid, k: nat) returns (p: seq<Tid>)
    requires s.Of(t).pc == Read && s.Of(t).i + k <= n
    ensures var e := Exec(n, s, p); e == With(s, t, Worker(Read, s.Of(t).i + k, e.Of(t).reg), s.counter + k)
    decreases k
  {
    p := [];
    if k > 0 {
      var read := Step(n, s, t);
      var incremented := Step(n, read, t);
      var one := Step(n, incremented, t);
      var q := RunAlone(n, one, t, k - 1);
      p := [t] + ([t] + ([t] + q));
      ExecConcat(n, incremented, [t], q);
      ExecConcat(n, read, [t], [t] + q);
      ExecConcat(n, s, [t], [t] + ([t] + q));
      assert Exec(n, incremented, [t]) == one;
      assert Exec(n, read, [t]) == incremented;
      assert Exec(n, s, [t]) == read;
    }
  }

  /** Extends schedule `p` by one step of `t`. */
  lemma Then(n: nat, p: seq<Tid>, t: Tid) returns (q: seq<Tid>)
    ensures Exec(n, START, q) == Step(n, Exec(n, START, p), t)
  {
    q := p + [t];
    ExecConcat(n, START, p, [t]);
    assert Exec(n, Exec(n, START, p), [t]) == Step(n, Exec(n, START, p), t);
  }

  /** Extends schedule `p` by `k` undisturbed iterations of `t`. */
  lemma ThenAlone(n: nat, p: seq<Tid>, t: Tid, k: nat) returns (q: seq<Tid>)
    requires var s := Exec(n, START, p); s.Of(t).pc == Read && s.Of(t).i + k <= n
    ensures var s := Exec(n, START, p);
            var e := Exec(n, START, q);
            e == With(s, t, Worker(Read, s.Of(t).i + k, e.Of(t).reg), s.counter + k)
  {
    var r := RunAlone(n, Exec(n, START, p), t, k);
    ExecConcat(n, START, p, r);
    q := p + r;
  }

  /**
   The losing schedule: after `x` and `y` undisturbed iterations, A's read goes stale while B runs all but one of
   its iterations, and B's last read goes stale while A runs the rest of its own. Only two of the disturbed
   iterations count.
   */
  lemma {:induction false} LosingSchedule(n: nat, x: nat, y: nat) returns (p: seq<Tid>)
    requires x < n && y < n
    ensures Finished(n, Exec(n, START, p)) && Exec(n, START, p).counter == x + y + 2
  {
    p := ThenAlone(n, [], A, x);
    p := ThenAlone(n, p, B, y);
    p := Then(n, p, A);
    p := ThenAlone(n, p, B, n - 1 - y);
    p := Then(n, p, A);
    p := Then(n, p, A);
    p := Then(n, p, B);
    p := ThenAlone(n, p, A, n - 1 - x);
    p := Then(n, p, B);
    p := Then(n, p, B);
  }

  lemma OneIterationLost() returns (p: seq<Tid>)
    ensures Finished(1, Exec(1, START, p)) && Exec(1, START, p).counter == 1
  {
    p := Then(1, [], A);
    p := ThenAlone(1, p, B, 1);
    p := Then(1, p, A);
    p := Then(1, p, A);
  }

  // ---------------------------------------------------------------- main result

  /** Over all schedules, the values the counter can end with are these and no others. */
  lemma {:induction false} FinalValues(n: nat, v: int)
    ensures IsFinalValue(n, v) <==> if n == 0 then v == 0 else if n == 1 then 1 <= v <= 2 else 2 <= v <= 2 * n
  {
    if IsFinalValue(n, v) {
      var p: seq<Tid> :| Finished(n, Exec(n, START, p)) && Exec(n, START, p).counter == v;
      ExecKeepsInv(n, START, p);
    } else if n == 0 {
      assert Exec(0, START, []) == START;
    } else if n == 1 && v == 1 {
      var p := OneIterationLost();
    } else if 2 <= v <= 2 * n {
      var x := if v - 2 < n then v - 2 else n - 1;
      var p := LosingSchedule(n, x, v - 2 - x);
    }
  }

  // ---------------------------------------------------------------- the program

  /** The global variable both threads increment. */
  class Counter {
    var value: int

    constructor ()
      ensures value == 0
    {
      value := 0;
    }
  }

  /** A running `worker`: its loop index, the register it uses, and where it stands in `counter += 1`. */
  class Thread {
    var pc: Pc
    var i: nat
    var reg: int

    constructor ()
      ensures View() == Worker(Read, 0, 0)
    {
      pc, i, reg := Read, 0, 0;
    }

    function View(): Worker
      reads this
    {
      Worker(pc, i, reg)
    }

    method StepIn(n: nat, counter: Counter)
      modifies this, counter
      ensures var s := Step(n, State(old(counter.value), old(View()), Worker(Read, 0, 0)), A);
              counter.value == s.counter && View() == s.a
    {
      if i < n {
        match pc {
          case Read =>
            reg := counter.value;
            pc := Increment;
          case Increment =>
            reg := reg + 1;
            pc := Write;
          case Write =>
            counter.value := reg;
            i := i + 1;
            pc := Read;
        }
      }
    }
  }

  /** Runs both workers under `schedule` and reports the counter, and whether both loops have ended. */
  method RunWorkers(n: nat, schedule: seq<Tid>) returns (counter: int, finished: bool)
    ensures finished == Finished(n, Exec(n, START, schedule))
    ensures counter == Exec(n, START, schedule).counter
    ensures finished ==> (if n < 2 then n else 2) <= counter <= 2 * n
  {
    var c := new Counter();
    var a := new Thread();
    var b := new Thread();
    for k := 0 to |schedule|
      invariant Exec(n, START, schedule[..k]) == State(c.value, a.View(), b.View())
    {
      var thread := if schedule[k] == A then a else b;
      thread.StepIn(n, c);
      ExecConcat(n, START, schedule[..k], [schedule[k]]);
      assert schedule[..k + 1] == schedule[..k] + [schedule[k]];
      assert Exec(n, Exec(n, START, schedule[..k]), [schedule[k]])
          == Step(n, Exec(n, START, schedule[..k]), schedule[k]);
    }
    assert schedule[..|schedule|] == schedule;
    ExecKeepsInv(n, START, schedule);
    return c.value, a.i == n && b.i == n;
  }
}
