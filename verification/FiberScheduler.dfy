/**
 One fiber under a scheduler loop, and two plain contexts handing control back and forth, run on the machine of
 `Amd64`.

 Where a context goes on after a switch is decided by the return address the machine pops, nothing else, and what it
 still knows is what it finds in its registers. The fiber's body is a loop that prints a line and yields, `pauses`
 times, then prints a last line and returns; it keeps its counter, and `run_fiber` the pointer to its fiber, in
 callee-saved registers across the switches. In between each side computes whatever it likes within its own stack.
 The module proves what the programs print and how often they switch.
 */
module FiberScheduler {
  import opened Amd64
  import opened ContextSwitch

  // Code addresses: where the helper, or the function of a plain context, starts, and what follows calls of the switch.
  const START_HELPER := 0x2000
  const AFTER_PREPARE := 0x2050   // in `prepare_rsp`
  const AFTER_SCHEDULE := 0x2100  // in the loop of `main`
  const AFTER_FINISH := 0x2200    // at the end of `run_fiber`
  const AFTER_YIELD := 0x3000     // in the body of the fiber

  // The fields of a fiber object, by their offsets.
  const CONTEXT_OFFSET := 8
  const FINISHED_OFFSET := 16

  const MAIN: nat := 0
  const FIBER: nat := 1

  datatype Line = Started | FiberLine(number: int) | Suspended(steps: nat) | Exiting

  /** What the fiber and the scheduler print while the fiber runs `turns` times. */
  function Turns(turns: nat): (lines: seq<Line>)
    ensures |lines| == 2 * turns
    ensures forall k | 0 <= k < turns :: lines[2 * k] == FiberLine(k) && lines[2 * k + 1] == Suspended(k + 1)
  {
    if turns == 0 then [] else Turns(turns - 1) + [FiberLine(turns - 1), Suspended(turns)]
  }

  /** The return address from which turn `turn` of a fiber with this many pauses starts. */
  function ResumePoint(pauses: nat, turn: nat): int {
    if turn == 0 then START_HELPER
    else if turn <= pauses then AFTER_YIELD
    else AFTER_FINISH
  }

  function PreparedCoroutines(m: Machine, stack: int): Coroutines {
    var live := Frame(m.saved, m.rsp, AFTER_PREPARE);
    Coroutines(MAIN, live, [live, FirstFrame(stack, START_HELPER)])
  }

  /** The word at `a` belongs to no context, and is not where one keeps its stack pointer. */
  ghost predicate Shared(cs: seq<Context>, a: int) {
    forall d | 0 <= d < |cs| :: !cs[d].Owns(a) && cs[d].slot != a
  }

  /** Only words of the running context have changed, its saved stack pointer included. */
  ghost predicate WritesOwn(cs: seq<Context>, current: nat, mem: Memory, mem': Memory)
    requires current < |cs|
  {
    forall a | a != cs[current].slot && !cs[current].Owns(a) :: Word(mem', a) == Word(mem, a)
  }

  /** Preparing writes inside the fiber's block, clear of main's stack. */
  lemma PreparingStaysClear(m: Machine, main: Context, fiberSlot: int, base: int, size: int)
    requires base % 16 == 0 && size > 64
    requires GoodLayout([main, Context(base, base + size, fiberSlot)])
    requires HasRoom(main, m.rsp)
    ensures var top := AlignDown(base + size - 1);
            && base + 64 <= top < base + size
            && (top - 64 > m.rsp - 8 || m.rsp - 8 > top)
            && (fiberSlot + 8 <= base || base + size <= fiberSlot)
  {
    var cs := [main, Context(base, base + size, fiberSlot)];
    assert cs[0].high <= cs[1].low || cs[1].high <= cs[0].low;
    assert cs[1].slot + 8 <= cs[1].low || cs[1].high <= cs[1].slot;
  }

  /** After preparing, main runs as before and the fiber is suspended at the start of its helper. */
  lemma {:induction false} PreparedRefines(m: Machine, main: Context, fiberSlot: int, base: int, size: int, mem: Memory)
    requires base % 16 == 0 && size > 64
    requires GoodLayout([main, Context(base, base + size, fiberSlot)])
    requires HasRoom(main, m.rsp)
    requires FrameAt(mem, AlignDown(base + size - 1) - 64) == FirstFrame(base + size - 1, START_HELPER)
    requires forall a | !Writes(base + size - 1, true, a) :: Word(mem, a) == Word(m.mem[m.rsp - 8 := AFTER_PREPARE], a)
    ensures var stack := base + size - 1;
            var mem' := mem[fiberSlot := AlignDown(stack) - 64];
            && Refines([main, Context(base, base + size, fiberSlot)],
                       System(MAIN, Machine(AFTER_PREPARE, m.rsp, m.saved, mem')), PreparedCoroutines(m, stack))
            && Word(mem', AlignDown(stack)) == Word(mem, AlignDown(stack))
  {
    var stack, fiber := base + size - 1, Context(base, base + size, fiberSlot);
    var sp := AlignDown(stack) - 64;
    PreparingStaysClear(m, main, fiberSlot, base, size);
    assert SavedAs(fiber, mem[fiberSlot := sp], FirstFrame(stack, START_HELPER)) by {
      assert FrameAt(mem[fiberSlot := sp], sp) == FrameAt(mem, sp);
    }
  }

  /** A shared word keeps what it held before. */
  lemma PreparedKeepsShared(m: Machine, main: Context, fiberSlot: int, base: int, size: int, mem: Memory, a: int)
    requires base % 16 == 0 && size > 64 && HasRoom(main, m.rsp)
    requires Shared([main, Context(base, base + size, fiberSlot)], a)
    requires forall a | !Writes(base + size - 1, true, a) :: Word(mem, a) == Word(m.mem[m.rsp - 8 := AFTER_PREPARE], a)
    ensures Word(mem, a) == Word(m.mem, a)
  {
    var cs := [main, Context(base, base + size, fiberSlot)];
    assert !cs[0].Owns(a) && !cs[1].Owns(a);
  }

  /** The coroutines after the running one has switched to `target`, to go on at `returnTo` later. */
  function HandOver(co: Coroutines, target: nat, returnTo: int): Coroutines
    requires co.current < |co.suspended| && target < |co.suspended|
  {
    Coroutines(target, co.suspended[target], co.suspended[co.current := co.live.(rip := returnTo)])
  }

  /** The fiber object has not finished when main sets it up. */
  function WithNewFiber(m: Machine, fiberPointer: int): Machine {
    m.(mem := m.mem[fiberPointer + FINISHED_OFFSET := 0])
  }

  /** prepare_rsp(&(fiber.context), stack, &fiber), on a machine that has just been started */
  method PrepareFiber(m: Machine, main: Context, fiberPointer: int, base: int, size: int) returns (cpu: Cpu)
    requires base % 16 == 0 && LargeEnough(size, true)
    requires GoodLayout([main, Context(base, base + size, fiberPointer + CONTEXT_OFFSET)])
    requires Shared([main, Context(base, base + size, fiberPointer + CONTEXT_OFFSET)], fiberPointer + FINISHED_OFFSET)
    requires HasRoom(main, m.rsp)
    ensures fresh(cpu)
    ensures Refines([main, Context(base, base + size, fiberPointer + CONTEXT_OFFSET)], System(MAIN, cpu.View()),
                    PreparedCoroutines(m, base + size - 1))
    ensures Word(cpu.mem, AlignDown(base + size - 1)) == fiberPointer
    ensures Word(cpu.mem, fiberPointer + FINISHED_OFFSET) == Word(m.mem, fiberPointer + FINISHED_OFFSET)
  {
    var slot := fiberPointer + CONTEXT_OFFSET;
    PreparingStaysClear(m, main, slot, base, size);
    cpu := new Cpu(m);
    cpu.rdi, cpu.rsi, cpu.rdx := base + size - 1, START_HELPER, fiberPointer;
    cpu.CallTo(PREPARE_ROUTINE, AFTER_PREPARE);
    cpu.PrepareRspWithArgument();
    PreparedRefines(m, main, slot, base, size, cpu.mem);
    PreparedKeepsShared(m, main, slot, base, size, cpu.mem, fiberPointer + FINISHED_OFFSET);
    cpu.mem := cpu.mem[slot := cpu.rax];
  }

  /** prepare_rsp(&fun_rsp, stack, func), the version without an argument */
  method PrepareContext(m: Machine, main: Context, funSlot: int, base: int, size: int) returns (cpu: Cpu)
    requires base % 16 == 0 && LargeEnough(size, false)
    requires GoodLayout([main, Context(base, base + size, funSlot)])
    requires HasRoom(main, m.rsp)
    ensures fresh(cpu)
    ensures Refines([main, Context(base, base + size, funSlot)], System(MAIN, cpu.View()),
                    PreparedCoroutines(m, base + size - 1))
  {
    PreparingStaysClear(m, main, funSlot, base, size);
    cpu := new Cpu(m);
    cpu.rdi, cpu.rsi := base + size - 1, START_HELPER;
    cpu.CallTo(PREPARE_ROUTINE, AFTER_PREPARE);
    cpu.PrepareRsp();
    PreparedRefines(m, main, funSlot, base, size, cpu.mem);
    cpu.mem := cpu.mem[funSlot := cpu.rax];
  }

  class Program {
    const pauses: nat
    const stack: int         // the address handed to prepare_rsp
    const withArgument: bool // whether the context is a fiber, which gets a pointer to itself
    const fiberPointer: int  // the address of the fiber object, passed as the seventh argument
    const cpu: Cpu
    ghost const cs: seq<Context>
    const slots: seq<int>    // where main's and the fiber's stack pointers are saved
    var current: nat
    var steps: nat
    var switches: nat
    var log: seq<Line>
    ghost var co: Coroutines

    ghost predicate Valid()
      reads this, cpu
    {
      && |cs| == 2 && |slots| == 2
      && slots[MAIN] == cs[MAIN].slot && slots[FIBER] == cs[FIBER].slot
      && Refines(cs, System(current, cpu.View()), co)
      && cs[FIBER].Owns(AlignDown(stack))
      && (withArgument ==> Shared(cs, fiberPointer + FINISHED_OFFSET))
    }

    /** scheduler.current_fiber->finished */
    predicate Finished()
      reads cpu
    {
      withArgument && Word(cpu.mem, fiberPointer + FINISHED_OFFSET) != 0
    }

    /** What the body keeps in registers at the beginning of turn `turn`. */
    predicate Keeps(saved: CalleeSaved, turn: nat) {
      saved.rbx == turn && (withArgument ==> saved.r12 == fiberPointer)
    }

    /** The fiber is suspended where turn `steps` starts; before the first turn its argument lies on its stack. */
    ghost predicate FiberReady()
      requires Valid()
      reads this, cpu
    {
      && current == MAIN
      && co.suspended[FIBER].rip == ResumePoint(pauses, steps)
      && (steps == 0 ==> co.suspended[FIBER] == FirstFrame(stack, START_HELPER)
                         && (withArgument ==> Word(cpu.mem, AlignDown(stack)) == fiberPointer))
      && (0 < steps <= pauses ==> Keeps(co.suspended[FIBER].saved, steps))
    }

    /**
     `main` up to its loop. The machine starts anywhere on a stack of its own with room for a call; the fiber's stack is
     any 16-aligned block in which preparing it stays, and its last byte is passed as the stack, as `main` does.
     */
    constructor (pauses: nat, m: Machine, main: Context, fiberPointer: int, base: int, size: int)
      requires base % 16 == 0 && LargeEnough(size, true)
      requires GoodLayout([main, Context(base, base + size, fiberPointer + CONTEXT_OFFSET)])
      requires Shared([main, Context(base, base + size, fiberPointer + CONTEXT_OFFSET)], fiberPointer + FINISHED_OFFSET)
      requires HasRoom(main, m.rsp)
      ensures Valid() && FiberReady() && fresh(cpu)
      ensures this.pauses == pauses && withArgument && this.fiberPointer == fiberPointer
      ensures cs == [main, Context(base, base + size, fiberPointer + CONTEXT_OFFSET)]
      ensures steps == 0 && !Finished() && switches == 0 && log == [Started]
      ensures co.live == Frame(m.saved, m.rsp, AFTER_PREPARE)
    {
      var stack := base + size - 1;
      var cpu := PrepareFiber(WithNewFiber(m, fiberPointer), main, fiberPointer, base, size);
      this.pauses, this.stack, this.cpu := pauses, stack, cpu;
      this.withArgument, this.fiberPointer := true, fiberPointer;
      this.cs := [main, Context(base, base + size, fiberPointer + CONTEXT_OFFSET)];
      this.slots := [main.slot, fiberPointer + CONTEXT_OFFSET];
      this.current, this.steps, this.switches, this.log := MAIN, 0, 0, [Started];
      this.co := PreparedCoroutines(WithNewFiber(m, fiberPointer), stack);
    }

    /** The same for the program with two plain contexts, whose function takes no argument. */
    constructor WithoutArgument(pauses: nat, m: Machine, main: Context, funSlot: int, base: int, size: int)
      requires base % 16 == 0 && LargeEnough(size, false)
      requires GoodLayout([main, Context(base, base + size, funSlot)])
      requires HasRoom(main, m.rsp)
      ensures Valid() && FiberReady() && fresh(cpu)
      ensures this.pauses == pauses && !withArgument
      ensures cs == [main, Context(base, base + size, funSlot)]
      ensures steps == 0 && switches == 0 && log == [Started]
      ensures co.live == Frame(m.saved, m.rsp, AFTER_PREPARE)
    {
      var stack := base + size - 1;
      var cpu := PrepareContext(m, main, funSlot, base, size);
      this.pauses, this.stack, this.cpu := pauses, stack, cpu;
      this.withArgument, this.fiberPointer := false, 0;
      this.cs, this.slots := [main, Context(base, base + size, funSlot)], [main.slot, funSlot];
      this.current, this.steps, this.switches, this.log := MAIN, 0, 0, [Started];
      this.co := PreparedCoroutines(m, stack);
    }

    /** The running context calls switch_to_and_save_current(&its own slot, the other's saved rsp). */
    method SwitchTo(target: nat, returnTo: int)
      requires Valid() && target < 2 && target != current && HasRoom(cs[current], cpu.rsp)
      modifies this`current, this`co, this`switches, cpu
      ensures Valid() && switches == old(switches) + 1
      ensures current == target && co == HandOver(old(co), target, returnTo)
      ensures WritesOwn(cs, old(current), old(cpu.mem), cpu.mem)
      ensures HasRoom(cs[current], cpu.rsp)
    {
      ghost var before := System(current, cpu.View());
      OthersApart(cs, MAIN, FIBER);
      cpu.rsi := Word(cpu.mem, slots[target]);
      cpu.rdi := slots[current];
      cpu.CallTo(SWITCH_ROUTINE, returnTo);
      cpu.SwitchToAndSaveCurrent();
      ghost var e := ContextSwitch.SwitchTo(target, returnTo, cpu.View());
      SwitchRefines(cs, before, co, e);
      SwitchSaves(cs, before, e);
      current := target;
      switches := switches + 1;
      co := CoStep(co, e);
    }

    /** The running context computes: here, it scribbles over a word of its stack and over all registers but two. */
    method Compute(rbx: int, r12: int)
      requires Valid() && HasRoom(cs[current], cpu.rsp)
      modifies this`co, cpu
      ensures Valid() && HasRoom(cs[current], cpu.rsp)
      ensures WritesOwn(cs, current, old(cpu.mem), cpu.mem)
      ensures co.suspended == old(co.suspended) && co.current == old(co.current)
      ensures cpu.rbx == rbx && cpu.r12 == r12
    {
      ghost var before := System(current, cpu.View());
      cpu.rbx, cpu.r12 := rbx, r12;
      cpu.rbp, cpu.r13, cpu.r14, cpu.r15 := *, *, *, *;
      var value: int := *;
      cpu.mem := cpu.mem[cpu.rsp - 8 := value];
      forall d | 0 <= d < |cs| && d != current
        ensures cpu.rsp - 8 != cs[d].slot && !cs[d].Owns(cpu.rsp - 8)
      {
        OthersApart(cs, current, d);
      }
      ghost var e := ContextSwitch.Compute(cpu.View());
      ComputeRefines(cs, before, co, e);
      co := CoStep(co, e);
    }

    /** fiber->finished = true */
    method SetFinished(fiber: int)
      requires Valid() && withArgument && fiber == fiberPointer
      modifies cpu`mem
      ensures Valid() && Finished()
    {
      ghost var before := System(current, cpu.View());
      cpu.mem := cpu.mem[fiber + FINISHED_OFFSET := 1];
      ComputeRefines(cs, before, co, ContextSwitch.Compute(cpu.View()));
    }

    /** The fiber from wherever the machine is now until it switches back. */
    method FiberTurn()
      requires Valid() && current == FIBER && HasRoom(cs[FIBER], cpu.rsp)
      requires steps <= pauses && cpu.rip == ResumePoint(pauses, steps) && !Finished()
      requires steps == 0 ==>
                 (cpu.rsp + 8) % 16 == 0 && (withArgument ==> Word(cpu.mem, cpu.rsp + 8) == fiberPointer)
      requires steps > 0 ==> Keeps(cpu.Saved(), steps)
      modifies this`current, this`co, this`switches, this`log, cpu
      ensures Valid() && current == MAIN
      ensures withArgument ==> (Finished() <==> steps >= pauses)
      ensures switches == old(switches) + 1 && log == old(log) + [FiberLine(steps)]
      ensures co.suspended[FIBER].rip == ResumePoint(pauses, steps + 1)
      ensures steps < pauses ==> Keeps(co.suspended[FIBER].saved, steps + 1)
      ensures co.live == old(co).suspended[MAIN] && HasRoom(cs[MAIN], cpu.rsp)
    {
      // where the body finds its counter, and run_fiber its fiber
      var turn, fiber := cpu.rbx, cpu.r12;
      if cpu.rip == START_HELPER {
        turn, fiber := 0, Word(cpu.mem, cpu.rsp + 8);
      }
      log := log + [FiberLine(turn)];
      Compute(turn + 1, fiber);
      if turn < pauses {
        SwitchTo(MAIN, AFTER_YIELD);
      } else {
        // the body has returned to run_fiber
        if withArgument {
          SetFinished(cpu.r12);
        }
        SwitchTo(MAIN, AFTER_FINISH);
      }
    }

    /** The body of `main`'s loop: schedule the fiber until it hands back. */
    method Schedule()
      requires Valid() && FiberReady() && HasRoom(cs[MAIN], cpu.rsp) && steps <= pauses && !Finished()
      modifies this, cpu
      ensures Valid() && FiberReady() && HasRoom(cs[MAIN], cpu.rsp)
      ensures steps == old(steps) + 1 && switches == old(switches) + 2
      ensures withArgument ==> (Finished() <==> steps > pauses)
      ensures log == old(log) + [FiberLine(old(steps)), Suspended(steps)]
      ensures cpu.rip == AFTER_SCHEDULE
    {
      var rbx: int, r12: int := *, *;
      Compute(rbx, r12);
      SwitchTo(FIBER, AFTER_SCHEDULE);
      FiberTurn();
      steps := steps + 1;
      log := log + [Suspended(steps)];
    }

    /** `main` of the program with two plain contexts: it switches a fixed number of times. */
    method RunPlain()
      requires Valid() && FiberReady() && HasRoom(cs[MAIN], cpu.rsp) && !withArgument
      requires steps == 0 && switches == 0 && log == [Started]
      modifies this, cpu
      ensures steps == pauses + 1 && switches == 2 * (pauses + 1)
      ensures log == [Started] + Turns(pauses + 1) + [Exiting]
    {
      for turn := 0 to pauses + 1
        invariant Valid() && FiberReady() && HasRoom(cs[MAIN], cpu.rsp)
        invariant steps == turn && switches == 2 * steps
        invariant log == [Started] + Turns(steps)
      {
        Schedule();
      }
      log := log + [Exiting];
    }

    /** `main`'s loop, from right after the fiber was prepared. */
    method Run()
      requires Valid() && FiberReady() && HasRoom(cs[MAIN], cpu.rsp) && withArgument
      requires steps == 0 && !Finished() && switches == 0 && log == [Started]
      modifies this, cpu
      ensures Finished() && steps == pauses + 1
      ensures switches == 2 * (pauses + 1)
      ensures log == [Started] + Turns(pauses + 1) + [Exiting]
    {
      while !Finished()
        invariant Valid() && FiberReady() && HasRoom(cs[MAIN], cpu.rsp)
        invariant steps <= pauses + 1 && (Finished() <==> steps == pauses + 1)
        invariant switches == 2 * steps
        invariant log == [Started] + Turns(steps)
        decreases pauses + 1 - steps
      {
        Schedule();
      }
      log := log + [Exiting];
    }
  }
}
