/**
 Two threads that take turns printing "ping" and "pong", handing over with one mutex and one condition variable.

 A run is any interleaving of the threads' steps and of spurious wakeups. The module proves that the turns never get out
 of order, that no wakeup is lost, and that every run ends: the number of steps is bounded in terms of the number of
 spurious wakeups, and a run that cannot go on has printed all `n` pings and all `n` pongs.
 */
module PingPong {

  /** Names a thread, and also the word that thread writes into `str` and prints. */
  datatype Word = Ping | Pong {
    function Other(): Word {
      if this == Ping then Pong else Ping
    }
  }

  datatype Pc =
    | AtLock    // about to take the mutex at the top of an iteration
    | AtCheck   // holds the mutex, about to compare `str`
    | AtWait    // holds the mutex, about to call pthread_cond_wait
    | Asleep    // inside pthread_cond_wait, the mutex released
    | AtRelock  // woken, about to take the mutex again
    | AtYield   // only when unlocking early: mutex released, not yet waiting
    | AtSprintf
    | AtPrint
    | AtSignal
    | AtUnlock
    | Done

  datatype Thread = Thread(pc: Pc, i: nat)

  datatype Mutex = Free | HeldBy(owner: Word)

  datatype State = State(str: Word, mutex: Mutex, log: seq<Word>, ping: Thread, pong: Thread) {
    function Of(t: Word): Thread {
      if t == Ping then ping else pong
    }

    function With(t: Word, pc: Pc): State {
      if t == Ping then this.(ping := ping.(pc := pc)) else this.(pong := pong.(pc := pc))
    }
  }

  datatype Action = Run(thread: Word) | SpuriousWakeup(thread: Word)

  function Start(n: nat): State {
    var thread := Thread(if n == 0 then Done else AtLock, 0);
    State(Pong, Free, [], thread, thread)
  }

  predicate Enabled(s: State, a: Action) {
    match a
    case SpuriousWakeup(t) => s.Of(t).pc == Asleep
    case Run(t) =>
      match s.Of(t).pc
      case Done => false
      case Asleep => false
      case AtLock => s.mutex == Free
      case AtRelock => s.mutex == Free
      case AtYield => s.mutex == Free
      case _ => true
  }

  /**
   The effect of an enabled action. With `early`, ping unlocks before it falls asleep, as its comment warns against.
   */
  function Next(n: nat, early: bool, s: State, a: Action): State
    requires Enabled(s, a)
  {
    var t := a.thread;
    if a.SpuriousWakeup? then s.With(t, AtRelock)
    else
      match s.Of(t).pc
      case AtLock => s.With(t, AtCheck).(mutex := HeldBy(t))
      case AtRelock => s.With(t, AtCheck).(mutex := HeldBy(t))
      case AtYield => s.With(t, AtWait).(mutex := HeldBy(t))
      case AtCheck =>
        if s.str == t.Other() then s.With(t, AtSprintf)
        else if early && t == Ping then s.With(t, AtYield).(mutex := Free)
        else s.With(t, AtWait)
      case AtWait => s.With(t, Asleep).(mutex := Free)
      case AtSprintf => s.With(t, AtPrint).(str := t)
      case AtPrint => s.With(t, AtSignal).(log := s.log + [t])
      case AtSignal =>
        var s' := s.With(t, AtUnlock);
        if s'.Of(t.Other()).pc == Asleep then s'.With(t.Other(), AtRelock) else s'
      case AtUnlock =>
        var i := s.Of(t).i + 1;
        var thread := Thread(if i < n then AtLock else Done, i);
        if t == Ping then s.(ping := thread, mutex := Free) else s.(pong := thread, mutex := Free)
  }

  predicate Valid(n: nat, early: bool, s: State, run: seq<Action>)
    decreases |run|
  {
    run == [] || (Enabled(s, run[0]) && Valid(n, early, Next(n, early, s, run[0]), run[1..]))
  }

  function Exec(n: nat, early: bool, s: State, run: seq<Action>): State
    requires Valid(n, early, s, run)
    decreases |run|
  {
    if run == [] then s else Exec(n, early, Next(n, early, s, run[0]), run[1..])
  }

  predicate AllDone(s: State) {
    s.ping.pc == Done && s.pong.pc == Done
  }

  /** No thread can take a step of its own; only a spurious wakeup could happen. */
  predicate Stuck(s: State) {
    !Enabled(s, Run(Ping)) && !Enabled(s, Run(Pong))
  }

  // ---------------------------------------------------------------- invariant

  predicate Critical(pc: Pc) {
    pc.AtCheck? || pc.AtWait? || pc.AtSprintf? || pc.AtPrint? || pc.AtSignal? || pc.AtUnlock?
  }

  predicate Announcing(pc: Pc) {
    pc.AtPrint? || pc.AtSignal?
  }

  function Written(th: Thread): nat {
    th.i + if (th.pc.AtPrint? || th.pc.AtSignal? || th.pc.AtUnlock?) then 1 else 0
  }

  function Printed(th: Thread): nat {
    th.i + if (th.pc.AtSignal? || th.pc.AtUnlock?) then 1 else 0
  }

  /** The first words of ping, pong, ping, pong, ... */
  predicate Alternates(log: seq<Word>) {
    forall k | 0 <= k < |log| :: log[k] == if k % 2 == 0 then Ping else Pong
  }

  predicate ThreadInv(n: nat, s: State, t: Word) {
    var th := s.Of(t);
    && (s.mutex == HeldBy(t) <==> Critical(th.pc))
    && th.i <= n
    && (th.pc == Done <==> th.i == n)
    && th.pc != AtYield
    && (th.pc == AtSprintf ==> s.str == t.Other())
    && (th.pc == AtWait ==> s.str == t)
    && ((th.pc.AtPrint? || th.pc.AtSignal? || th.pc.AtUnlock?) ==> s.str == t)
    // whoever sleeps although its turn has come is about to be signalled
    && (th.pc == Asleep && s.str == t.Other() ==> Announcing(s.Of(t.Other()).pc))
  }

  predicate ControlInv(n: nat, s: State) {
    && ThreadInv(n, s, Ping)
    && ThreadInv(n, s, Pong)
    && Written(s.ping) == Written(s.pong) + (if s.str == Ping then 1 else 0)
  }

  predicate LogInv(s: State) {
    && |s.log| == Printed(s.ping) + Printed(s.pong)
    && Alternates(s.log)
  }

  predicate Inv(n: nat, s: State) {
    ControlInv(n, s) && LogInv(s)
  }

  lemma NextKeepsThreadInv(n: nat, s: State, a: Action, t: Word)
    requires ControlInv(n, s) && Enabled(s, a)
    ensures ThreadInv(n, Next(n, false, s, a), t)
  {
    var s' := Next(n, false, s, a);
    if a.SpuriousWakeup? {
    } else if a.thread == t {
      assert s'.Of(t.Other()) == s.Of(t.Other()) || s.Of(t).pc == AtSignal;
    } else {
      assert s'.Of(t) == s.Of(t) || s.Of(a.thread).pc == AtSignal;
    }
  }

  lemma {:induction false} NextKeepsControlInv(n: nat, s: State, a: Action)
    requires ControlInv(n, s) && Enabled(s, a)
    ensures ControlInv(n, Next(n, false, s, a))
  {
    NextKeepsThreadInv(n, s, a, Ping);
    NextKeepsThreadInv(n, s, a, Pong);
  }

  lemma {:induction false} NextKeepsLogInv(n: nat, s: State, a: Action)
    requires Inv(n, s) && Enabled(s, a)
    ensures LogInv(Next(n, false, s, a))
  {
    if a.Run? && s.Of(a.thread).pc == AtPrint {
      assert |s.log| % 2 == if a.thread == Ping then 0 else 1;
    }
  }

  // ---------------------------------------------------------------- progress

  /** How far thread `t` is from its next print, its turn being to come or not. */
  function Distance(s: State, t: Word): nat {
    var myTurn := s.str == t.Other();
    match s.Of(t).pc
    case AtSignal => 10
    case AtUnlock => 9
    case AtLock => 8
    case AtYield => 8
    case AtRelock => if myTurn then 4 else 8
    case AtCheck => if myTurn then 3 else 7
    case AtWait => 6
    case Asleep => 5
    case AtSprintf => 2
    case AtPrint => 1
    case Done => 0
  }

  /** Bounds the steps still to come when nobody wakes spuriously. */
  function Measure(n: nat, s: State): int {
    10 * (2 * n - |s.log|) + Distance(s, Ping) + Distance(s, Pong)
  }

  lemma NextShrinksMeasure(n: nat, s: State, a: Action)
    requires Inv(n, s) && Enabled(s, a)
    ensures var m' := Measure(n, Next(n, false, s, a));
            if a.Run? then m' < Measure(n, s) else m' <= Measure(n, s) + 3
  {
  }

  /** No wakeup is lost: an unfinished state always has a step other than a spurious wakeup. */
  lemma StuckMeansDone(n: nat, s: State)
    requires Inv(n, s)
    ensures Stuck(s) <==> AllDone(s)
  {
  }

  function SpuriousWakeups(run: seq<Action>): nat {
    if run == [] then 0 else (if run[0].SpuriousWakeup? then 1 else 0) + SpuriousWakeups(run[1..])
  }

  lemma {:induction false} ExecKeepsInv(n: nat, s: State, run: seq<Action>)
    requires Inv(n, s) && Valid(n, false, s, run)
    ensures var s' := Exec(n, false, s, run);
            && Inv(n, s')
            && Measure(n, s') + |run| <= Measure(n, s) + 4 * SpuriousWakeups(run)
    decreases |run|
  {
    if run != [] {
      NextKeepsControlInv(n, s, run[0]);
      NextKeepsLogInv(n, s, run[0]);
      NextShrinksMeasure(n, s, run[0]);
      ExecKeepsInv(n, Next(n, false, s, run[0]), run[1..]);
    }
  }

  // ---------------------------------------------------------------- main results

  function Rounds(n: nat): (log: seq<Word>)
    ensures |log| == 2 * n
  {
    if n == 0 then [] else Rounds(n - 1) + [Ping, Pong]
  }

  lemma {:induction false} RoundsAlternate(n: nat)
    ensures Alternates(Rounds(n))
  {
    if n > 0 {
      RoundsAlternate(n - 1);
    }
  }

  lemma LogIsBeginning(n: nat, s: State)
    requires Inv(n, s)
    ensures s.log <= Rounds(n)
  {
    RoundsAlternate(n);
    assert |s.log| <= 2 * n;
  }

  lemma StrTellsWhoseTurn(n: nat, s: State)
    requires Inv(n, s) && s.ping.pc != AtPrint && s.pong.pc != AtPrint
    ensures s.str == Pong <==> multiset(s.log)[Ping] == multiset(s.log)[Pong]
  {
    AlternatingCounts(s.log);
    assert Printed(s.ping) == Written(s.ping) && Printed(s.pong) == Written(s.pong);
  }

  /**
   Whatever the interleaving and the spurious wakeups, the output so far is a beginning of `n` rounds of ping and pong,
   and `str` tells whose turn it is, except while its writer has yet to print.
   */
  lemma {:induction false} TurnsStayInOrder(n: nat, run: seq<Action>)
    requires Valid(n, false, Start(n), run)
    ensures var s := Exec(n, false, Start(n), run);
            && s.log <= Rounds(n)
            && (s.ping.pc != AtPrint && s.pong.pc != AtPrint ==>
                  (s.str == Pong <==> multiset(s.log)[Ping] == multiset(s.log)[Pong]))
            && !(Critical(s.ping.pc) && Critical(s.pong.pc))
  {
    var s := Exec(n, false, Start(n), run);
    ExecKeepsInv(n, Start(n), run);
    LogIsBeginning(n, s);
    if s.ping.pc != AtPrint && s.pong.pc != AtPrint {
      StrTellsWhoseTurn(n, s);
    }
  }

  lemma {:induction false} AlternatingCounts(log: seq<Word>)
    requires Alternates(log)
    ensures multiset(log)[Ping] == (|log| + 1) / 2 && multiset(log)[Pong] == |log| / 2
  {
    if log != [] {
      var shorter := log[..|log| - 1];
      AlternatingCounts(shorter);
      assert log == shorter + [log[|log| - 1]];
    }
  }

  /** Every run is finite but for spurious wakeups, and the only way to come to a halt is to have printed everything. */
  lemma {:induction false} EveryRunFinishes(n: nat, run: seq<Action>)
    requires Valid(n, false, Start(n), run)
    ensures |run| <= 20 * n + 16 + 4 * SpuriousWakeups(run)
    ensures var s := Exec(n, false, Start(n), run);
            Stuck(s) ==> AllDone(s) && s.log == Rounds(n)
  {
    var s := Exec(n, false, Start(n), run);
    ExecKeepsInv(n, Start(n), run);
    StuckMeansDone(n, s);
    RoundsAlternate(n);
    assert Stuck(s) ==> |s.log| == 2 * n;
  }

  /** From wherever a run has got to, letting the threads go on without spurious wakeups completes the output. */
  lemma {:induction false} CanAlwaysFinish(n: nat, s: State) returns (run: seq<Action>)
    requires Inv(n, s)
    ensures Valid(n, false, s, run) && SpuriousWakeups(run) == 0
    ensures AllDone(Exec(n, false, s, run)) && Exec(n, false, s, run).log == Rounds(n)
    decreases Measure(n, s)
  {
    StuckMeansDone(n, s);
    if AllDone(s) {
      RoundsAlternate(n);
      run := [];
    } else {
      var a := if Enabled(s, Run(Ping)) then Run(Ping) else Run(Pong);
      NextKeepsControlInv(n, s, a);
      NextKeepsLogInv(n, s, a);
      NextShrinksMeasure(n, s, a);
      var rest := CanAlwaysFinish(n, Next(n, false, s, a));
      run := [a] + rest;
      assert run[1..] == rest;
    }
  }

  /** A thread that finds its turn not come can be woken for nothing any number of times, and all is still printed. */
  lemma {:induction false} WakesForNothing(n: nat, s: State, t: Word, k: nat) returns (run: seq<Action>)
    requires Inv(n, s) && s.Of(t).pc == AtCheck && s.str == t
    ensures Valid(n, false, s, run) && SpuriousWakeups(run) == k
    ensures AllDone(Exec(n, false, s, run)) && Exec(n, false, s, run).log == Rounds(n)
    decreases k
  {
    if k == 0 {
      run := CanAlwaysFinish(n, s);
    } else {
      run := WakesForNothing(n, s, t, k - 1);
      run := WakingOnce(n, s, t, run);
    }
  }

  /** Waiting, waking up for nothing and taking the mutex again leads back to the same state. */
  lemma WakingOnce(n: nat, s: State, t: Word, rest: seq<Action>) returns (run: seq<Action>)
    requires Inv(n, s) && s.Of(t).pc == AtCheck && s.str == t && Valid(n, false, s, rest)
    ensures Valid(n, false, s, run) && Exec(n, false, s, run) == Exec(n, false, s, rest)
    ensures SpuriousWakeups(run) == SpuriousWakeups(rest) + 1
  {
    var s1 := Next(n, false, s, Run(t));
    var s2 := Next(n, false, s1, Run(t));
    var s3 := Next(n, false, s2, SpuriousWakeup(t));
    assert Next(n, false, s3, Run(t)) == s;
    var run3 := Prepended(n, s3, Run(t), rest);
    var run2 := Prepended(n, s2, SpuriousWakeup(t), run3);
    var run1 := Prepended(n, s1, Run(t), run2);
    run := Prepended(n, s, Run(t), run1);
  }

  lemma Prepended(n: nat, s: State, a: Action, rest: seq<Action>) returns (run: seq<Action>)
    requires Enabled(s, a) && Valid(n, false, Next(n, false, s, a), rest)
    ensures Valid(n, false, s, run) && Exec(n, false, s, run) == Exec(n, false, Next(n, false, s, a), rest)
    ensures SpuriousWakeups(run) == SpuriousWakeups(rest) + if a.SpuriousWakeup? then 1 else 0
  {
    run := [a] + rest;
    assert run[1..] == rest;
  }

  /** Complete runs exist with any number of spurious wakeups, unless there is nothing to print. */
  lemma {:induction false} AnyNumberOfWakeups(n: nat, k: nat)
    ensures (exists run :: Valid(n, false, Start(n), run) && SpuriousWakeups(run) == k
                           && AllDone(Exec(n, false, Start(n), run)))
            <==> n > 0 || k == 0
  {
    if n > 0 {
      var s := Next(n, false, Start(n), Run(Pong));
      NextKeepsControlInv(n, Start(n), Run(Pong));
      var rest := WakesForNothing(n, s, Pong, k);
      var run := Prepended(n, Start(n), Run(Pong), rest);
    } else if k == 0 {
      var run := [];
      assert Valid(n, false, Start(n), run) && SpuriousWakeups(run) == k && AllDone(Exec(n, false, Start(n), run));
    } else {
      assert forall a :: !Enabled(Start(n), a);
      assert forall run | Valid(n, false, Start(n), run) :: run == [];
    }
  }

  // ---------------------------------------------------------------- why waiting must be atomic

  ghost predicate Reachable(n: nat, early: bool, s: State) {
    exists run :: Valid(n, early, Start(n), run) && Exec(n, early, Start(n), run) == s
  }

  lemma {:induction false} ExecThen(n: nat, early: bool, s: State, run: seq<Action>, a: Action)
    requires Valid(n, early, s, run) && Enabled(Exec(n, early, s, run), a)
    ensures Valid(n, early, s, run + [a])
    ensures Exec(n, early, s, run + [a]) == Next(n, early, Exec(n, early, s, run), a)
    decreases |run|
  {
    if run != [] {
      ExecThen(n, early, Next(n, early, s, run[0]), run[1..], a);
      assert (run + [a])[1..] == run[1..] + [a];
    }
  }

  lemma Then(n: nat, early: bool, s: State, t: Word) returns (s': State)
    requires Reachable(n, early, s) && Enabled(s, Run(t))
    ensures s' == Next(n, early, s, Run(t)) && Reachable(n, early, s')
  {
    var run :| Valid(n, early, Start(n), run) && Exec(n, early, Start(n), run) == s;
    ExecThen(n, early, Start(n), run, Run(t));
    s' := Next(n, early, s, Run(t));
  }

  lemma ThenAnnounce(n: nat, early: bool, s: State, t: Word) returns (s': State)
    requires Reachable(n, early, s) && s.Of(t).pc == AtLock && s.mutex == Free && s.str == t.Other()
    ensures Reachable(n, early, s') && s' == s.With(t, AtPrint).(str := t, mutex := HeldBy(t))
  {
    s' := Then(n, early, s, t);
    s' := Then(n, early, s', t);
    s' := Then(n, early, s', t);
  }

  /** An undisturbed iteration of `t`, whose turn it is, while the other thread neither holds the mutex nor sleeps. */
  lemma ThenTurn(n: nat, early: bool, s: State, t: Word) returns (s': State)
    requires Reachable(n, early, s)
    requires s.Of(t).pc == AtLock && s.mutex == Free && s.str == t.Other() && s.Of(t.Other()).pc != Asleep
    ensures Reachable(n, early, s')
    ensures s'.str == t && s'.mutex == Free && s'.Of(t.Other()) == s.Of(t.Other())
    ensures s'.Of(t) == Thread(if s.Of(t).i + 1 < n then AtLock else Done, s.Of(t).i + 1)
  {
    s' := ThenAnnounce(n, early, s, t);
    s' := Then(n, early, s', t);
    s' := Then(n, early, s', t);
    s' := Then(n, early, s', t);
  }

  /** Waiting must release the mutex and fall asleep in one step: unlocking first can leave both threads asleep. */
  lemma {:induction false} UnlockingEarlyCanDeadlock(n: nat) returns (s: State)
    requires n >= 2
    ensures Reachable(n, true, s) && Stuck(s) && s.ping.pc == Asleep && s.pong.pc == Asleep
  {
    assert Exec(n, true, Start(n), []) == Start(n);
    s := ThenTurn(n, true, Start(n), Ping);
    s := Then(n, true, s, Ping);
    s := Then(n, true, s, Ping);
    s := ThenTurn(n, true, s, Pong);
    s := Then(n, true, s, Pong);
    s := Then(n, true, s, Pong);
    s := Then(n, true, s, Pong);
    s := Then(n, true, s, Ping);
    s := Then(n, true, s, Ping);
  }

  /** With at most one iteration ping finds its turn come at its only check, so that it never unlocks early. */
  lemma {:induction false} OnePingNeverWaits(n: nat, s: State, run: seq<Action>)
    requires n <= 1 && Inv(n, s) && Valid(n, true, s, run)
    ensures Valid(n, false, s, run) && Exec(n, false, s, run) == Exec(n, true, s, run)
    decreases |run|
  {
    if run != [] {
      assert Next(n, false, s, run[0]) == Next(n, true, s, run[0]);
      NextKeepsControlInv(n, s, run[0]);
      NextKeepsLogInv(n, s, run[0]);
      OnePingNeverWaits(n, Next(n, true, s, run[0]), run[1..]);
    }
  }

  /** Unlocking early can bring the threads to a halt with work left exactly if there are two iterations or more. */
  lemma {:induction false} EarlyDeadlocksExactly(n: nat)
    ensures (exists s :: Reachable(n, true, s) && Stuck(s) && !AllDone(s)) <==> n >= 2
  {
    if n >= 2 {
      var s := UnlockingEarlyCanDeadlock(n);
    } else {
      forall s | Reachable(n, true, s) && Stuck(s)
        ensures AllDone(s)
      {
        var run :| Valid(n, true, Start(n), run) && Exec(n, true, Start(n), run) == s;
        OnePingNeverWaits(n, Start(n), run);
        ExecKeepsInv(n, Start(n), run);
        StuckMeansDone(n, s);
      }
    }
  }
}
