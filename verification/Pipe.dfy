/**
 A generator that writes the numbers 0, 1, 2, ... into a pipe, and painters that read them from it and print them.

 The painters are either threads that share the descriptors of the one process, or forked processes that each hold
 copies of both ends of the pipe. A run is any interleaving of their steps, of signals that kill a process at any
 moment, and of the key press that ends the main process. A record is smaller than PIPE_BUF, so that reading or
 writing one is one step (POSIX.1-2017, `write`).

 The module proves that numbers read and numbers queued always make up exactly the numbers written, that every
 painter prints in increasing order what it read, what the two messages about vanished partners really tell, that
 nothing is ever deadlocked, and that every run is finite.
 */
module Pipe {

  /**
   With Processes, `closeWriteEnd` tells whether a painter closes its inherited copy of the write end, as it should.
   */
  datatype Mode = Threads | Processes(closeWriteEnd: bool)

  datatype Config = Config(mode: Mode, painters: nat, limit: nat, capacity: nat) {
    predicate Valid() {
      0 < painters && 0 < capacity
    }
  }

  datatype PainterPc =
    | Unborn
    | AtClose                // about to close the write end inherited by fork
    | AtRead
    | AtPrint(number: nat)
    | AtGone                 // saw the end of the numbers, about to say so
    | Finished
    | Killed

  datatype Painter = Painter(pc: PainterPc, readEnd: bool, writeEnd: bool) {
    predicate Alive() {
      pc.AtClose? || pc.AtRead? || pc.AtPrint? || pc.AtGone?
    }
  }

  datatype MainPc =
    | AtCreate(next: nat)    // about to start painter number `next`
    | AtCloseRead
    | AtWrite(number: nat)
    | AtAllDead              // got EPIPE, about to say so
    | AtCloseWrite
    | AtKey                  // waiting for a key
    | Quit
    | Terminated             // killed by a signal

  datatype Main = Main(pc: MainPc, readEnd: bool, writeEnd: bool) {
    predicate Over() {
      pc.Quit? || pc.Terminated?
    }
  }

  datatype Line =
    | Number(painter: nat, number: nat)
    | NumbersAreGone(painter: nat)
    | AllPaintersAreDead

  /** `taken` records which painter read which number, in the order of the reads; `screen` is what was printed. */
  datatype State = State(main: Main, painters: seq<Painter>, queue: seq<nat>, taken: seq<Line>, screen: seq<Line>)

  datatype Action = StepMain | StepPainter(i: nat) | PressKey | KillMain | KillPainter(i: nat)

  function Start(c: Config): State {
    State(Main(AtCreate(0), true, true), seq(c.painters, i => Painter(Unborn, false, false)), [], [], [])
  }

  predicate ReadEndClosed(s: State) {
    !s.main.readEnd && forall i | 0 <= i < |s.painters| :: !s.painters[i].readEnd
  }

  predicate WriteEndClosed(s: State) {
    !s.main.writeEnd && forall i | 0 <= i < |s.painters| :: !s.painters[i].writeEnd
  }

  /** A write waits while the pipe is full, and a read while it is empty, unless the other end is closed everywhere. */
  predicate Enabled(c: Config, s: State, a: Action) {
    match a
    case StepMain =>
      if s.main.pc.AtWrite? then |s.queue| < c.capacity || ReadEndClosed(s)
      else !s.main.pc.AtKey? && !s.main.Over()
    case StepPainter(i) =>
      && i < |s.painters| && s.painters[i].Alive()
      && (s.painters[i].pc.AtRead? ==> s.queue != [] || WriteEndClosed(s))
    case PressKey => s.main.pc == AtKey
    case KillMain => !s.main.Over()
    case KillPainter(i) => c.mode.Processes? && i < |s.painters| && s.painters[i].Alive()
  }

  /** A new thread shares the descriptors of its process; a forked child gets copies of those its parent has open. */
  function Newborn(c: Config, main: Main): Painter {
    if c.mode.Threads? then Painter(AtRead, false, false)
    else Painter(if c.mode.closeWriteEnd then AtClose else AtRead, main.readEnd, main.writeEnd)
  }

  /** The next number to write, or the end of the loop in generate_numbers. */
  function Generate(c: Config, number: nat): MainPc {
    if number < c.limit then AtWrite(number) else AtCloseWrite
  }

  function NextMain(c: Config, s: State): State
    requires Enabled(c, s, StepMain) && |s.painters| == c.painters
  {
    match s.main.pc
    case AtCreate(i) =>
      if i < c.painters then
        var pc := if i + 1 < c.painters then AtCreate(i + 1)
                  else if c.mode.Processes? then AtCloseRead
                  else Generate(c, 0);
        s.(painters := s.painters[i := Newborn(c, s.main)], main := s.main.(pc := pc))
      else s
    case AtCloseRead => s.(main := s.main.(pc := Generate(c, 0), readEnd := false))
    case AtWrite(number) =>
      if ReadEndClosed(s) then s.(main := s.main.(pc := AtAllDead))
      else s.(main := s.main.(pc := Generate(c, number + 1)), queue := s.queue + [number])
    case AtAllDead => s.(main := s.main.(pc := AtCloseWrite), screen := s.screen + [AllPaintersAreDead])
    case AtCloseWrite => s.(main := s.main.(pc := AtKey, writeEnd := false))
  }

  function NextPainter(c: Config, s: State, i: nat): State
    requires Enabled(c, s, StepPainter(i))
  {
    var p := s.painters[i];
    match p.pc
    case AtClose => s.(painters := s.painters[i := p.(pc := AtRead, writeEnd := false)])
    case AtRead =>
      if s.queue == [] then s.(painters := s.painters[i := p.(pc := AtGone)])
      else s.(painters := s.painters[i := p.(pc := AtPrint(s.queue[0]))],
              queue := s.queue[1..],
              taken := s.taken + [Number(i, s.queue[0])])
    case AtPrint(number) =>
      s.(painters := s.painters[i := p.(pc := AtRead)], screen := s.screen + [Number(i, number)])
    case AtGone =>
      s.(painters := s.painters[i := Painter(Finished, false, false)], screen := s.screen + [NumbersAreGone(i)])
  }

  /** The end of the main process closes its descriptors and takes its threads with it, but not its children. */
  function End(c: Config, s: State, pc: MainPc): State {
    var painters :=
      if c.mode.Threads? then seq(|s.painters|, i => Painter(Killed, false, false)) else s.painters;
    s.(main := Main(pc, false, false), painters := painters)
  }

  function Next(c: Config, s: State, a: Action): State
    requires Enabled(c, s, a) && |s.painters| == c.painters
  {
    match a
    case StepMain => NextMain(c, s)
    case StepPainter(i) => NextPainter(c, s, i)
    case PressKey => End(c, s, Quit)
    case KillMain => End(c, s, Terminated)
    case KillPainter(i) => s.(painters := s.painters[i := Painter(Killed, false, false)])
  }

  predicate ValidRun(c: Config, s: State, run: seq<Action>)
    decreases |run|
  {
    && |s.painters| == c.painters
    && (run == [] || (Enabled(c, s, run[0]) && ValidRun(c, Next(c, s, run[0]), run[1..])))
  }

  function Exec(c: Config, s: State, run: seq<Action>): State
    requires ValidRun(c, s, run)
    decreases |run|
  {
    if run == [] then s else Exec(c, Next(c, s, run[0]), run[1..])
  }

  /** The numbers that `lines` give to painter `i`, in order. */
  function By(lines: seq<Line>, i: nat): seq<nat> {
    if lines == [] then []
    else
      var last := lines[|lines| - 1];
      By(lines[..|lines| - 1], i) + if last.Number? && last.painter == i then [last.number] else []
  }

  // ---------------------------------------------------------------- invariant

  /** Numbers read and numbers queued are the numbers written so far, each exactly once and in order. */
  predicate QueueInv(c: Config, s: State) {
    && |s.queue| <= c.capacity
    && (forall k | 0 <= k < |s.taken| ::
          s.taken[k].Number? && s.taken[k].painter < c.painters && s.taken[k].number == k)
    && (forall k | 0 <= k < |s.queue| :: s.queue[k] == |s.taken| + k)
  }

  function Written(s: State): nat {
    |s.taken| + |s.queue|
  }

  predicate MainInv(c: Config, s: State) {
    var pc := s.main.pc;
    && (s.main.writeEnd <==> !pc.AtKey? && !s.main.Over())
    && (s.main.readEnd <==> if c.mode.Threads? then !s.main.Over() else pc.AtCreate? || pc.AtCloseRead?)
    && (pc.AtCreate? ==> pc.next < c.painters)
    && (pc.AtCreate? || pc.AtCloseRead? ==> Written(s) == 0)
    && (pc.AtWrite? ==> pc.number == Written(s) < c.limit)
    && (pc.AtCloseWrite? || pc.AtKey? || pc.Quit? ==> Written(s) == c.limit || AllPaintersAreDead in s.screen)
    && Written(s) <= c.limit
    && (pc.AtCloseRead? ==> c.mode.Processes?)
  }

  /** Only the death of every painter makes a write fail. */
  predicate AllDeadInv(c: Config, s: State) {
    s.main.pc.AtAllDead? || AllPaintersAreDead in s.screen ==>
      && c.mode.Processes? && !s.main.pc.AtCreate? && 0 < c.limit
      && forall i | 0 <= i < |s.painters| :: s.painters[i].pc == Killed
  }

  predicate EndsInv(c: Config, s: State, i: nat)
    requires i < |s.painters|
  {
    var p := s.painters[i];
    && (p.readEnd <==> c.mode.Processes? && p.Alive())
    && (p.writeEnd <==> c.mode.Processes? && p.Alive() && (p.pc.AtClose? || !c.mode.closeWriteEnd))
    && (p.pc.AtClose? ==> c.mode.Processes? && c.mode.closeWriteEnd)
    && (c.mode.Threads? && s.main.Over() ==> !p.Alive())
    && (c.mode.Threads? && p.pc.Killed? ==> s.main.Over())
    && (c.mode == Processes(false) ==> !p.pc.AtGone? && !p.pc.Finished?)
    && (p.pc.Unborn? ==> s.main.pc.Terminated? || (s.main.pc.AtCreate? && s.main.pc.next <= i))
    && (s.main.pc.AtCreate? && s.main.pc.next <= i ==> p.pc.Unborn?)
  }

  /** What painter `i` has printed is what it has read, but for a number in its hand or lost when it was killed. */
  predicate OutputInv(s: State, i: nat)
    requires i < |s.painters|
  {
    var printed, taken := By(s.screen, i), By(s.taken, i);
    match s.painters[i].pc
    case AtPrint(number) => taken == printed + [number]
    case Killed => printed <= taken && |taken| <= |printed| + 1
    case _ => taken == printed
  }

  /** No number is left in the pipe, and none can come any more. */
  predicate EndReached(s: State) {
    s.queue == [] && WriteEndClosed(s)
  }

  predicate SaidGone(c: Config, s: State, i: nat) {
    i < |s.painters| && (s.painters[i].pc.Finished? || (c.mode.Threads? && s.main.Over()))
  }

  /** Whoever saw the end of the numbers saw the end of all of them. */
  predicate GoneInv(c: Config, s: State) {
    && (forall i | 0 <= i < |s.painters| :: s.painters[i].pc.AtGone? || s.painters[i].pc.Finished? ==> EndReached(s))
    && (forall k | 0 <= k < |s.screen| :: s.screen[k].NumbersAreGone? ==>
          EndReached(s) && SaidGone(c, s, s.screen[k].painter))
    && (forall i | 0 <= i < |s.painters| :: s.painters[i].pc.Finished? ==> NumbersAreGone(i) in s.screen)
  }

  predicate Inv(c: Config, s: State) {
    && |s.painters| == c.painters
    && QueueInv(c, s)
    && MainInv(c, s)
    && AllDeadInv(c, s)
    && (forall i | 0 <= i < c.painters :: EndsInv(c, s, i) && OutputInv(s, i))
    && GoneInv(c, s)
  }

  lemma NextKeepsQueueInv(c: Config, s: State, a: Action)
    requires Inv(c, s) && Enabled(c, s, a)
    ensures QueueInv(c, Next(c, s, a))
  {
  }

  lemma NextKeepsMainInv(c: Config, s: State, a: Action)
    requires Inv(c, s) && Enabled(c, s, a)
    ensures MainInv(c, Next(c, s, a))
  {
    assert AllPaintersAreDead in s.screen ==> AllPaintersAreDead in Next(c, s, a).screen;
  }

  lemma NextKeepsAllDeadInv(c: Config, s: State, a: Action)
    requires Inv(c, s) && Enabled(c, s, a)
    ensures AllDeadInv(c, Next(c, s, a))
  {
    if s.main.pc.AtAllDead? || AllPaintersAreDead in s.screen {
      assert Next(c, s, a).painters == s.painters;
    } else if a.StepMain? && s.main.pc.AtWrite? && ReadEndClosed(s) {
      forall i | 0 <= i < |s.painters| ensures s.painters[i].pc == Killed {
        assert EndsInv(c, s, i);
      }
    }
  }

  lemma MainKeepsEndsInv(c: Config, s: State, i: nat)
    requires Inv(c, s) && Enabled(c, s, StepMain) && i < c.painters
    ensures EndsInv(c, NextMain(c, s), i)
  {
    assert EndsInv(c, s, i);
  }

  lemma {:induction false} NextKeepsEndsInv(c: Config, s: State, a: Action, i: nat)
    requires Inv(c, s) && Enabled(c, s, a) && i < c.painters
    ensures EndsInv(c, Next(c, s, a), i)
  {
    assert EndsInv(c, s, i);
    if a.StepMain? {
      MainKeepsEndsInv(c, s, i);
    }
  }

  lemma ByAppend(lines: seq<Line>, line: Line, i: nat)
    ensures By(lines + [line], i) == By(lines, i) + if line.Number? && line.painter == i then [line.number] else []
  {
    assert (lines + [line])[..|lines|] == lines;
  }

  lemma PainterKeepsOutputInv(c: Config, s: State, j: nat, i: nat)
    requires Enabled(c, s, StepPainter(j)) && i < |s.painters|
    requires OutputInv(s, i)
    ensures OutputInv(NextPainter(c, s, j), i)
  {
    match s.painters[j].pc
    case AtRead => if s.queue != [] { ByAppend(s.taken, Number(j, s.queue[0]), i); }
    case AtPrint(number) => ByAppend(s.screen, Number(j, number), i);
    case AtGone => ByAppend(s.screen, NumbersAreGone(j), i);
    case _ =>
  }

  lemma NextKeepsOutputInv(c: Config, s: State, a: Action, i: nat)
    requires |s.painters| == c.painters && Enabled(c, s, a) && i < c.painters
    requires OutputInv(s, i) && EndsInv(c, s, i)
    ensures OutputInv(Next(c, s, a), i)
  {
    match a
    case StepPainter(j) => PainterKeepsOutputInv(c, s, j, i);
    case StepMain => if s.main.pc.AtAllDead? { ByAppend(s.screen, AllPaintersAreDead, i); }
    case _ =>
  }

  lemma {:induction false} NextKeepsGoneInv(c: Config, s: State, a: Action)
    requires Inv(c, s) && Enabled(c, s, a)
    ensures GoneInv(c, Next(c, s, a))
  {
    var s' := Next(c, s, a);
    if EndReached(s) {
      assert EndReached(s') by {
        assert forall i | 0 <= i < |s.painters| :: !s.painters[i].writeEnd;
      }
    }
  }


  // ---------------------------------------------------------------- progress

  function Weight(pc: PainterPc): nat {
    match pc
    case Unborn => 5
    case AtClose => 4
    case AtRead => 3
    case AtPrint(_) => 4
    case AtGone => 2
    case _ => 0
  }

  function Weights(painters: seq<Painter>): nat {
    if painters == [] then 0 else Weight(painters[0].pc) + Weights(painters[1..])
  }

  function MainWeight(c: Config, pc: MainPc): int {
    match pc
    case AtCreate(_) => 3 * c.limit + 5
    case AtCloseRead => 3 * c.limit + 4
    case AtWrite(number) => 3 * (c.limit - number) + 3
    case AtAllDead => 3
    case AtCloseWrite => 2
    case AtKey => 1
    case _ => 0
  }

  /** Bounds the steps still to come. */
  function Measure(c: Config, s: State): int {
    MainWeight(c, s.main.pc) + 2 * |s.queue| + Weights(s.painters)
  }

  lemma {:induction false} WeightsUpdate(painters: seq<Painter>, i: nat, p: Painter)
    requires i < |painters|
    ensures Weights(painters[i := p]) == Weights(painters) - Weight(painters[i].pc) + Weight(p.pc)
  {
    if i == 0 {
      assert painters[i := p][1..] == painters[1..];
    } else {
      WeightsUpdate(painters[1..], i - 1, p);
      assert painters[i := p][1..] == painters[1..][i - 1 := p];
    }
  }

  lemma {:induction false} WeightsOfEqual(painters: seq<Painter>, pc: PainterPc)
    requires forall i | 0 <= i < |painters| :: painters[i].pc == pc
    ensures Weights(painters) == Weight(pc) * |painters|
  {
    if painters != [] {
      WeightsOfEqual(painters[1..], pc);
    }
  }

  lemma PainterShrinksMeasure(c: Config, s: State, i: nat)
    requires Enabled(c, s, StepPainter(i))
    ensures Measure(c, NextPainter(c, s, i)) < Measure(c, s)
  {
    WeightsUpdate(s.painters, i, NextPainter(c, s, i).painters[i]);
  }

  lemma MainShrinksMeasure(c: Config, s: State)
    requires |s.painters| == c.painters && MainInv(c, s) && Enabled(c, s, StepMain)
    requires s.main.pc.AtCreate? ==> s.painters[s.main.pc.next].pc.Unborn?
    ensures Measure(c, NextMain(c, s)) < Measure(c, s)
  {
    if s.main.pc.AtCreate? {
      WeightsUpdate(s.painters, s.main.pc.next, Newborn(c, s.main));
    }
  }

  lemma {:induction false} NextShrinksMeasure(c: Config, s: State, a: Action)
    requires Inv(c, s) && Enabled(c, s, a)
    ensures Measure(c, Next(c, s, a)) < Measure(c, s)
  {
    match a
    case StepMain =>
      assert s.main.pc.AtCreate? ==> EndsInv(c, s, s.main.pc.next);
      MainShrinksMeasure(c, s);
    case StepPainter(i) => PainterShrinksMeasure(c, s, i);
    case KillPainter(i) => WeightsUpdate(s.painters, i, Painter(Killed, false, false));
    case _ => if c.mode.Threads? { WeightsOfEqual(Next(c, s, a).painters, Killed); }
  }

  lemma StartInv(c: Config)
    requires c.Valid()
    ensures Inv(c, Start(c)) && Measure(c, Start(c)) == 3 * c.limit + 5 * c.painters + 5
  {
    WeightsOfEqual(Start(c).painters, Unborn);
  }

  lemma NextKeepsInv(c: Config, s: State, a: Action)
    requires Inv(c, s) && Enabled(c, s, a)
    ensures Inv(c, Next(c, s, a))
  {
    NextKeepsQueueInv(c, s, a);
    NextKeepsMainInv(c, s, a);
    NextKeepsAllDeadInv(c, s, a);
    NextKeepsGoneInv(c, s, a);
    forall i | 0 <= i < c.painters ensures EndsInv(c, Next(c, s, a), i) && OutputInv(Next(c, s, a), i) {
      NextKeepsEndsInv(c, s, a, i);
      NextKeepsOutputInv(c, s, a, i);
    }
  }

  lemma {:induction false} ExecKeepsInv(c: Config, s: State, run: seq<Action>)
    requires Inv(c, s) && ValidRun(c, s, run)
    ensures Inv(c, Exec(c, s, run)) && Measure(c, Exec(c, s, run)) + |run| <= Measure(c, s)
    decreases |run|
  {
    if run != [] {
      NextKeepsInv(c, s, run[0]);
      NextShrinksMeasure(c, s, run[0]);
      ExecKeepsInv(c, Next(c, s, run[0]), run[1..]);
    }
  }

  /** Nobody can take a step; only the key or a signal could still change something. */
  predicate Stuck(c: Config, s: State) {
    !Enabled(c, s, StepMain) && forall i | 0 <= i < |s.painters| :: !Enabled(c, s, StepPainter(i))
  }

  lemma StuckMainIsThrough(c: Config, s: State)
    requires c.Valid() && Inv(c, s) && Stuck(c, s)
    ensures s.main.pc.AtKey? || s.main.Over()
  {
    if s.main.pc.AtWrite? {
      var j := 0;
      if c.mode.Processes? {
        j :| 0 <= j < |s.painters| && s.painters[j].readEnd;
      } else {
        assert !s.painters[0].pc.AtGone? && !s.painters[0].pc.Finished?;
      }
      assert EndsInv(c, s, j) && !Enabled(c, s, StepPainter(j));
    }
  }

  lemma StuckWriteEndIsClosed(c: Config, s: State)
    requires c.Valid() && Inv(c, s) && Stuck(c, s) && c.mode != Processes(false)
    ensures WriteEndClosed(s)
  {
    StuckMainIsThrough(c, s);
    forall i | 0 <= i < |s.painters| ensures !s.painters[i].writeEnd {
      assert EndsInv(c, s, i) && !Enabled(c, s, StepPainter(i));
    }
  }

  /**
   Nothing is ever deadlocked. A state in which nobody can take a step is one in which nobody has anything left to do,
   unless the painters forgot to close the write end: then every painter that is alive waits for ever.
   */
  lemma {:induction false} StuckMeansThrough(c: Config, s: State)
    requires c.Valid() && Inv(c, s)
    ensures Stuck(c, s) <==>
            && (s.main.pc.AtKey? || s.main.Over())
            && forall i | 0 <= i < |s.painters| ::
                 !s.painters[i].Alive() || (c.mode == Processes(false) && s.painters[i].pc.AtRead? && s.queue == [])
  {
    if Stuck(c, s) {
      StuckMainIsThrough(c, s);
      forall i | 0 <= i < |s.painters| && s.painters[i].Alive()
        ensures c.mode == Processes(false) && s.painters[i].pc.AtRead? && s.queue == []
      {
        assert EndsInv(c, s, i) && !Enabled(c, s, StepPainter(i));
        if c.mode != Processes(false) {
          StuckWriteEndIsClosed(c, s);
        }
      }
    } else if Enabled(c, s, StepMain) {
    } else {
      var i :| 0 <= i < |s.painters| && Enabled(c, s, StepPainter(i));
      assert EndsInv(c, s, i);
    }
  }

  // ---------------------------------------------------------------- main results

  function Upto(n: nat): (numbers: seq<nat>)
    ensures |numbers| == n
  {
    seq(n, k requires 0 <= k => k)
  }

  function Numbers(lines: seq<Line>): (numbers: seq<nat>)
    requires forall k | 0 <= k < |lines| :: lines[k].Number?
  {
    seq(|lines|, k requires 0 <= k < |lines| => lines[k].number)
  }

  predicate Increasing(numbers: seq<nat>) {
    forall j, k | 0 <= j < k < |numbers| :: numbers[j] < numbers[k]
  }

  lemma {:induction false} TakenInOrder(taken: seq<Line>, i: nat)
    requires forall k | 0 <= k < |taken| :: taken[k].Number? && taken[k].number == k
    ensures Increasing(By(taken, i)) && forall k | 0 <= k < |By(taken, i)| :: By(taken, i)[k] < |taken|
  {
    if taken != [] {
      TakenInOrder(taken[..|taken| - 1], i);
    }
  }

  /**
   In every run, whoever is killed whenever: the numbers read so far followed by the numbers in the pipe are the numbers
   written so far, and what a painter has printed is increasing and is all that it has read but for at most one number.
   */
  lemma {:induction false} NumbersStayInOrder(c: Config, run: seq<Action>, i: nat)
    requires c.Valid() && i < c.painters && ValidRun(c, Start(c), run)
    ensures var s := Exec(c, Start(c), run);
            && (forall k | 0 <= k < |s.taken| :: s.taken[k].Number? && s.taken[k].painter < c.painters)
            && Numbers(s.taken) + s.queue == Upto(Written(s))
            && |s.queue| <= c.capacity
            && Written(s) <= c.limit
            && Increasing(By(s.screen, i))
            && By(s.screen, i) <= By(s.taken, i) && |By(s.taken, i)| <= |By(s.screen, i)| + 1
  {
    StartInv(c);
    ExecKeepsInv(c, Start(c), run);
    var s := Exec(c, Start(c), run);
    assert OutputInv(s, i);
    TakenInOrder(s.taken, i);
    QueueIsPartition(c, s);
    PrefixIncreases(By(s.screen, i), By(s.taken, i));
  }

  lemma QueueIsPartition(c: Config, s: State)
    requires QueueInv(c, s)
    ensures forall k | 0 <= k < |s.taken| :: s.taken[k].Number? && s.taken[k].painter < c.painters
    ensures Numbers(s.taken) + s.queue == Upto(Written(s))
  {
    var numbers, all := Numbers(s.taken), Upto(Written(s));
    assert |numbers| == |s.taken| && |numbers + s.queue| == |all|;
    forall k | 0 <= k < |all|
      ensures (numbers + s.queue)[k] == all[k]
    {
      assert if k < |numbers| then numbers[k] == k else s.queue[k - |numbers|] == k;
    }
  }

  lemma PrefixIncreases(a: seq<nat>, b: seq<nat>)
    requires a <= b && Increasing(b)
    ensures Increasing(a)
  {
    forall j, k | 0 <= j < k < |a|
      ensures a[j] < a[k]
    {
      assert a[j] == b[j] && a[k] == b[k];
    }
  }

  /**
   A write fails exactly when no read end is left: when the painters are processes and every one of them was killed.
   */
  lemma {:induction false} WriteFailsExactly(c: Config, run: seq<Action>)
    requires c.Valid() && ValidRun(c, Start(c), run)
    requires Exec(c, Start(c), run).main.pc.AtWrite?
    ensures var s := Exec(c, Start(c), run);
            ReadEndClosed(s) <==> c.mode.Processes? && forall i | 0 <= i < |s.painters| :: s.painters[i].pc == Killed
  {
    StartInv(c);
    ExecKeepsInv(c, Start(c), run);
    var s := Exec(c, Start(c), run);
    forall i | 0 <= i < |s.painters|
      ensures !s.painters[i].readEnd <==> c.mode.Processes? ==> s.painters[i].pc == Killed
    {
      assert EndsInv(c, s, i);
    }
  }

  /** A write waits exactly while the pipe is full and some painter that could read from it has not been killed. */
  lemma {:induction false} WriteWaitsExactly(c: Config, run: seq<Action>)
    requires c.Valid() && ValidRun(c, Start(c), run)
    requires Exec(c, Start(c), run).main.pc.AtWrite?
    ensures var s := Exec(c, Start(c), run);
            !Enabled(c, s, StepMain) <==>
            && |s.queue| == c.capacity
            && (c.mode.Threads? || exists i | 0 <= i < |s.painters| :: !s.painters[i].pc.Killed?)
  {
    StartInv(c);
    ExecKeepsInv(c, Start(c), run);
    WriteFailsExactly(c, run);
  }

  /**
   However far the numbers have got: when all painters are killed before the last is written, the generator says so.
   */
  lemma {:induction false} AllCanDie(c: Config, s: State) returns (run: seq<Action>)
    requires c.Valid() && Inv(c, s) && c.mode.Processes? && 0 < c.limit
    requires s.main.pc.AtCreate? || s.main.pc.AtCloseRead? || s.main.pc.AtWrite? || s.main.pc.AtAllDead?
    ensures ValidRun(c, s, run) && AllPaintersAreDead in Exec(c, s, run).screen
    decreases Measure(c, s)
  {
    var a := StepMain;
    if s.main.pc.AtWrite? {
      if i :| 0 <= i < |s.painters| && s.painters[i].Alive() {
        a := KillPainter(i);
      } else {
        forall i | 0 <= i < |s.painters|
          ensures !s.painters[i].readEnd
        {
          assert EndsInv(c, s, i);
        }
        assert ReadEndClosed(s);
      }
    }
    NextKeepsInv(c, s, a);
    NextShrinksMeasure(c, s, a);
    MeasureIsNat(c, Next(c, s, a));
    var s', rest := Next(c, s, a), [];
    if s.main.pc.AtAllDead? {
      assert s'.screen[|s.screen|] == AllPaintersAreDead;
    } else {
      rest := AllCanDie(c, s');
    }
    run := [a] + rest;
    assert run[1..] == rest;
  }

  /** The message about dead painters can come up exactly if the painters are processes and there are numbers. */
  lemma {:induction false} AllDeadExactly(c: Config)
    requires c.Valid()
    ensures (exists run :: ValidRun(c, Start(c), run) && AllPaintersAreDead in Exec(c, Start(c), run).screen)
            <==> c.mode.Processes? && 0 < c.limit
  {
    StartInv(c);
    if c.mode.Processes? && 0 < c.limit {
      var run := AllCanDie(c, Start(c));
    }
    forall run | ValidRun(c, Start(c), run) && AllPaintersAreDead in Exec(c, Start(c), run).screen
      ensures c.mode.Processes? && 0 < c.limit
    {
      ExecKeepsInv(c, Start(c), run);
    }
  }

  /**
   A painter sees the end of the numbers exactly when the pipe is empty, the main process has closed its write end or is
   gone, and every forked painter has closed the write end it inherited.
   */
  lemma {:induction false} ReadEndsExactly(c: Config, run: seq<Action>, i: nat)
    requires c.Valid() && ValidRun(c, Start(c), run)
    requires var s := Exec(c, Start(c), run);
             i < |s.painters| && s.painters[i].pc.AtRead?
    ensures var s := Exec(c, Start(c), run);
            s.queue == [] ==>
              (Enabled(c, s, StepPainter(i)) <==>
               && (s.main.pc.AtKey? || s.main.Over())
               && c.mode != Processes(false)
               && forall j | 0 <= j < |s.painters| :: !s.painters[j].pc.AtClose?)
  {
    StartInv(c);
    ExecKeepsInv(c, Start(c), run);
    var s := Exec(c, Start(c), run);
    forall j | 0 <= j < |s.painters|
      ensures c.mode != Processes(false) ==> (s.painters[j].writeEnd <==> s.painters[j].pc.AtClose?)
    {
      assert EndsInv(c, s, j);
    }
    assert EndsInv(c, s, i);
  }

  /**
   What the messages tell. "numbers are gone" means that the pipe is empty for good and, unless the generator was
   killed, that each of the numbers was read; "all painters are dead" means that every painter was killed.
   */
  lemma {:induction false} MessagesTellTheTruth(c: Config, run: seq<Action>, i: nat)
    requires c.Valid() && ValidRun(c, Start(c), run)
    ensures var s := Exec(c, Start(c), run);
            && (NumbersAreGone(i) in s.screen ==>
                  s.queue == [] && WriteEndClosed(s) && (s.main.pc.Terminated? || |s.taken| == c.limit))
            && (AllPaintersAreDead in s.screen ==>
                  c.mode.Processes? && forall j | 0 <= j < |s.painters| :: s.painters[j].pc == Killed)
  {
    StartInv(c);
    ExecKeepsInv(c, Start(c), run);
    var s := Exec(c, Start(c), run);
    if NumbersAreGone(i) in s.screen {
      var k :| 0 <= k < |s.screen| && s.screen[k] == NumbersAreGone(i);
      assert SaidGone(c, s, s.screen[k].painter);
    }
  }

  /** Every run is finite, signals and all. */
  lemma {:induction false} EveryRunEnds(c: Config, run: seq<Action>)
    requires c.Valid() && ValidRun(c, Start(c), run)
    ensures |run| <= 3 * c.limit + 5 * c.painters + 5
  {
    StartInv(c);
    ExecKeepsInv(c, Start(c), run);
    MeasureIsNat(c, Exec(c, Start(c), run));
  }

  lemma MeasureIsNat(c: Config, s: State)
    requires Inv(c, s)
    ensures 0 <= Measure(c, s)
  {
  }

  /** Nobody is killed; as the key press kills threads, it has to wait until they are through. */
  predicate Undisturbed(c: Config, run: seq<Action>) {
    forall k | 0 <= k < |run| ::
      !run[k].KillMain? && !run[k].KillPainter? && (run[k].PressKey? ==> c.mode.Processes?)
  }

  predicate NobodyKilled(c: Config, s: State) {
    && !s.main.pc.Terminated? && (s.main.pc.Quit? ==> c.mode.Processes?)
    && forall i | 0 <= i < |s.painters| :: !s.painters[i].pc.Killed?
  }

  lemma {:induction false} UndisturbedKillsNobody(c: Config, s: State, run: seq<Action>)
    requires NobodyKilled(c, s) && ValidRun(c, s, run) && Undisturbed(c, run)
    ensures NobodyKilled(c, Exec(c, s, run))
    decreases |run|
  {
    if run != [] {
      var s' := Next(c, s, run[0]);
      assert Undisturbed(c, [run[0]]) by { assert run[0] == [run[0]][0]; }
      assert NobodyKilled(c, s');
      assert Undisturbed(c, run[1..]);
      UndisturbedKillsNobody(c, s', run[1..]);
    }
  }

  /**
   When nobody is killed, a run that cannot go on has written and read all the numbers, each painter has printed exactly
   the numbers it read, and the painters have all finished if and only if they did not forget to close the write end;
   otherwise they all wait for ever.
   */
  lemma {:induction false} EveryNumberIsPrinted(c: Config, run: seq<Action>, i: nat)
    requires c.Valid() && ValidRun(c, Start(c), run) && Undisturbed(c, run) && i < c.painters
    requires Stuck(c, Exec(c, Start(c), run))
    ensures var s := Exec(c, Start(c), run);
            && |s.painters| == c.painters && |s.taken| == c.limit
            && By(s.screen, i) == By(s.taken, i)
            && s.painters[i].pc == (if c.mode == Processes(false) then AtRead else Finished)
            && (NumbersAreGone(i) in s.screen <==> c.mode != Processes(false))
            && AllPaintersAreDead !in s.screen
  {
    StartInv(c);
    ExecKeepsInv(c, Start(c), run);
    UndisturbedKillsNobody(c, Start(c), run);
    var s := Exec(c, Start(c), run);
    StuckMeansThrough(c, s);
    assert EndsInv(c, s, i) && OutputInv(s, i);
    assert !s.painters[i].pc.Killed?;
  }

  /** From wherever a run has got to, letting everyone go on leads to a state in which nobody can take a step. */
  lemma {:induction false} CanAlwaysFinish(c: Config, s: State) returns (run: seq<Action>)
    requires c.Valid() && Inv(c, s)
    ensures ValidRun(c, s, run) && Undisturbed(c, run)
    ensures Stuck(c, Exec(c, s, run))
    decreases Measure(c, s)
  {
    if Stuck(c, s) {
      run := [];
    } else {
      var a := StepMain;
      if !Enabled(c, s, StepMain) {
        var i :| 0 <= i < |s.painters| && Enabled(c, s, StepPainter(i));
        a := StepPainter(i);
      }
      NextKeepsInv(c, s, a);
      NextShrinksMeasure(c, s, a);
      MeasureIsNat(c, Next(c, s, a));
      var rest := CanAlwaysFinish(c, Next(c, s, a));
      run := [a] + rest;
      assert run[1..] == rest;
    }
  }
}
