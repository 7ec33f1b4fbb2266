/**
 The part of an AMD64 processor that stack switching touches, and the two assembly routines that do it.

 Memory holds 8-byte words at addresses that are multiples of 8. `Switched` and `Prepared` say what the routines
 do to the machine as a whole; the class executes them instruction by instruction.
 */
module Amd64 {

  /**
   The registers a called function must preserve, apart from the stack pointer (System V AMD64 ABI, section 3.2.1).
   */
  datatype CalleeSaved = CalleeSaved(rbx: int, rbp: int, r12: int, r13: int, r14: int, r15: int)

  const ZEROED := CalleeSaved(0, 0, 0, 0, 0, 0)

  type Memory = map<int, int>

  /** A word that was never written has an unknown value, here 0. */
  function Word(mem: Memory, address: int): int {
    if address in mem then mem[address] else 0
  }

  datatype Machine = Machine(rip: int, rsp: int, saved: CalleeSaved, mem: Memory)

  // ---------------------------------------------------------------- frames on a stack

  /**
   What a suspended context continues with: its registers, its stack pointer after returning, and where it returns
   to.
   */
  datatype Frame = Frame(saved: CalleeSaved, rsp: int, rip: int)

  const FRAME_SIZE := 56

  /** Where `switch_to_and_save_current` and `prepare_rsp_asm` are loaded; any addresses do. */
  const SWITCH_ROUTINE := 0x1000
  const PREPARE_ROUTINE := 0x1100

  /** No word outside [low, high) differs. */
  ghost predicate OnlyChanges(low: int, high: int, mem: Memory, mem': Memory) {
    forall a | !(low <= a < high) :: Word(mem', a) == Word(mem, a)
  }

  /** The frame whose lowest word, the saved r15, is at `sp`. */
  function FrameAt(mem: Memory, sp: int): Frame {
    Frame(CalleeSaved(Word(mem, sp + 32), Word(mem, sp + 40), Word(mem, sp + 24), Word(mem, sp + 16), Word(mem, sp + 8),
                      Word(mem, sp)),
          sp + FRAME_SIZE, Word(mem, sp + 48))
  }

  /** `call` with the given return address. */
  function Call(m: Machine, target: int, returnTo: int): Machine {
    Machine(target, m.rsp - 8, m.saved, m.mem[m.rsp - 8 := returnTo])
  }

  /**
   What `switch_to_and_save_current(slot, toRsp)`, entered in `m`, has done by the time it has returned: the
   registers and the return address lie in a frame whose address is in `slot`, no other word has changed, and the
   machine goes on with the frame at `toRsp`.
   */
  ghost predicate Switched(m: Machine, slot: int, toRsp: int, m': Machine) {
    && Word(m'.mem, slot) == m.rsp - 48
    && FrameAt(m'.mem, m.rsp - 48) == Frame(m.saved, m.rsp + 8, Word(m.mem, m.rsp))
    && (forall a | a != slot && !(m.rsp - 48 <= a < m.rsp) :: Word(m'.mem, a) == Word(m.mem, a))
    && FrameAt(m'.mem, toRsp) == Frame(m'.saved, m'.rsp, m'.rip)
  }

  // ---------------------------------------------------------------- forging a first frame

  /** `and address, -16` */
  function AlignDown(address: int): (aligned: int)
    ensures aligned % 16 == 0 && aligned <= address < aligned + 16
  {
    address - address % 16
  }

  /** What a context prepared on `stack` starts with. */
  function FirstFrame(stack: int, fun: int): Frame {
    Frame(ZEROED, AlignDown(stack) - 8, fun)
  }

  /** The words `prepare_rsp_asm` writes below (and, for the fiber version, at) the top of the new stack. */
  predicate Writes(stack: int, withArgument: bool, a: int) {
    var top := AlignDown(stack);
    (withArgument && a == top) || top - 64 <= a <= top - 16
  }

  /** What `prepare_rsp_asm(stack, fun)` has done to memory; it returns `AlignDown(stack) - 64`. */
  ghost predicate Prepared(mem: Memory, stack: int, fun: int, mem': Memory) {
    && FrameAt(mem', AlignDown(stack) - 64) == FirstFrame(stack, fun)
    && (forall a | !Writes(stack, false, a) :: Word(mem', a) == Word(mem, a))
  }

  /** The same with the argument that the fiber version leaves for the function. */
  ghost predicate PreparedWithArgument(mem: Memory, stack: int, helper: int, argument: int, mem': Memory) {
    && FrameAt(mem', AlignDown(stack) - 64) == FirstFrame(stack, helper)
    && Word(mem', AlignDown(stack)) == argument
    && (forall a | !Writes(stack, true, a) :: Word(mem', a) == Word(mem, a))
  }

  // ---------------------------------------------------------------- the processor

  class Cpu {
    var rip: int
    var rsp: int
    var rbx: int
    var rbp: int
    var r12: int
    var r13: int
    var r14: int
    var r15: int
    var rax: int
    var rdx: int
    var rsi: int
    var rdi: int
    var r10: int
    var mem: Memory

    constructor (m: Machine)
      ensures View() == m
    {
      rip, rsp, mem := m.rip, m.rsp, m.mem;
      rbx, rbp, r12, r13, r14, r15 := m.saved.rbx, m.saved.rbp, m.saved.r12, m.saved.r13, m.saved.r14, m.saved.r15;
      rax, rdx, rsi, rdi, r10 := 0, 0, 0, 0, 0;
    }

    function Saved(): CalleeSaved
      reads this
    {
      CalleeSaved(rbx, rbp, r12, r13, r14, r15)
    }

    function View(): Machine
      reads this
    {
      Machine(rip, rsp, Saved(), mem)
    }

    method Push(value: int)
      modifies this`rsp, this`mem
      ensures rsp == old(rsp) - 8 && mem == old(mem)[rsp := value]
    {
      rsp := rsp - 8;
      mem := mem[rsp := value];
    }

    method Pop() returns (value: int)
      modifies this`rsp
      ensures value == Word(mem, old(rsp)) && rsp == old(rsp) + 8
    {
      value := Word(mem, rsp);
      rsp := rsp + 8;
    }

    method CallTo(target: int, returnTo: int)
      modifies this`rsp, this`mem, this`rip
      ensures View() == Call(old(View()), target, returnTo)
    {
      Push(returnTo);
      rip := target;
    }

    method Ret()
      modifies this`rsp, this`rip
      ensures rip == Word(mem, old(rsp)) && rsp == old(rsp) + 8
    {
      rip := Pop();
    }

    method PushCalleeSaved()
      modifies this`rsp, this`mem
      ensures rsp == old(rsp) - 48 && FrameAt(mem, rsp).saved == Saved()
      ensures OnlyChanges(rsp, old(rsp), old(mem), mem)
    {
      Push(rbp);
      Push(rbx);
      Push(r12);
      Push(r13);
      Push(r14);
      Push(r15);
    }

    method PopCalleeSaved()
      modifies this`rsp, this`rbx, this`rbp, this`r12, this`r13, this`r14, this`r15
      ensures rsp == old(rsp) + 48 && Saved() == FrameAt(mem, old(rsp)).saved
    {
      r15 := Pop();
      r14 := Pop();
      r13 := Pop();
      r12 := Pop();
      rbx := Pop();
      rbp := Pop();
    }

    /** switch_to_and_save_current(rdi = where to save rsp, rsi = the rsp to continue with) */
    method SwitchToAndSaveCurrent()
      requires rdi + 8 <= rsp - 48 || rsp + 8 <= rdi
      modifies this
      ensures Switched(old(View()), old(rdi), old(rsi), View())
    {
      PushCalleeSaved();
      mem := mem[rdi := rsp];
      rsp := rsi;
      PopCalleeSaved();
      Ret();
    }

    method PushZeros()
      modifies this`rsp, this`mem
      ensures rsp == old(rsp) - 48 && FrameAt(mem, rsp).saved == ZEROED
      ensures OnlyChanges(rsp, old(rsp), old(mem), mem)
    {
      Push(0);
      Push(0);
      Push(0);
      Push(0);
      Push(0);
      Push(0);
    }

    /** prepare_rsp_asm(rdi = stack, rsi = fun) */
    method PrepareRsp()
      requires AlignDown(rdi) - 64 > rsp || rsp >= AlignDown(rdi) - 8
      modifies this`rip, this`rsp, this`rax, this`r10, this`mem
      ensures rax == AlignDown(rdi) - 64 && Prepared(old(mem), rdi, rsi, mem)
      ensures rip == Word(old(mem), old(rsp)) && rsp == old(rsp) + 8
    {
      r10 := rsp;
      rsp := rdi;
      rsp := AlignDown(rsp);
      rsp := rsp - 8;
      Push(rsi);
      PushZeros();
      rax := rsp;
      rsp := r10;
      Ret();
    }

    /** prepare_rsp_asm(rdi = stack, rsi = helper, rdx = helper_arg), the fiber version */
    method PrepareRspWithArgument()
      requires AlignDown(rdi) - 64 > rsp || (rsp >= AlignDown(rdi) - 8 && rsp != AlignDown(rdi))
      modifies this`rip, this`rsp, this`rax, this`r10, this`mem
      ensures rax == AlignDown(rdi) - 64 && PreparedWithArgument(old(mem), rdi, rsi, rdx, mem)
      ensures rip == Word(old(mem), old(rsp)) && rsp == old(rsp) + 8
    {
      r10 := rsp;
      rsp := rdi;
      rsp := AlignDown(rsp);
      mem := mem[rsp := rdx];
      rsp := rsp - 8;
      Push(rsi);
      PushZeros();
      rax := rsp;
      rsp := r10;
      Ret();
    }
  }
}
