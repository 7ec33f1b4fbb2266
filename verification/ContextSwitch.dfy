/**
 Contexts that switch between each other, each on a stack of its own.

 Whatever the running context computes, as long as it leaves the other contexts' stacks and saved stack pointers alone,
 the machine refines coroutines: a context that is resumed goes on with exactly what it had when it called the switch.
 */
module ContextSwitch {
  import opened Amd64

  /** A context owns the stack words in [low, high); its stack pointer is saved in the variable at `slot`. */
  datatype Context = Context(low: int, high: int, slot: int) {
    predicate Owns(a: int) {
      low <= a < high
    }
  }

  ghost predicate GoodLayout(cs: seq<Context>) {
    && (forall i, j | 0 <= i < j < |cs| ::
          (cs[i].high <= cs[j].low || cs[j].high <= cs[i].low) && cs[i].slot != cs[j].slot)
    && (forall i, j | 0 <= i < |cs| && 0 <= j < |cs| :: cs[j].slot + 8 <= cs[i].low || cs[i].high <= cs[j].slot)
  }

  /** Each event carries the machine it leads to. */
  datatype Event =
    | Compute(after: Machine)                              // the running context executes code of its own
    | SwitchTo(target: nat, returnTo: int, after: Machine) // it calls the switch; `returnTo` follows the call

  // ---------------------------------------------------------------- the machine

  datatype System = System(current: nat, m: Machine)

  /** The other contexts' stacks and slots hold the same words. */
  ghost predicate LeavesOthersAlone(cs: seq<Context>, current: nat, mem: Memory, mem': Memory) {
    forall d, a | 0 <= d < |cs| && d != current && (cs[d].Owns(a) || a == cs[d].slot) :: Word(mem', a) == Word(mem, a)
  }

  predicate HasRoom(c: Context, rsp: int) {
    c.low + FRAME_SIZE <= rsp <= c.high
  }

  ghost predicate Allowed(cs: seq<Context>, s: System, e: Event)
    requires s.current < |cs|
  {
    match e
    case Compute(after) => LeavesOthersAlone(cs, s.current, s.m.mem, after.mem)
    case SwitchTo(target, returnTo, after) =>
      && target < |cs| && target != s.current && HasRoom(cs[s.current], s.m.rsp)
      && var toRsp := Word(s.m.mem, cs[target].slot);
         Switched(Call(s.m, SWITCH_ROUTINE, returnTo), cs[s.current].slot, toRsp, after)
  }

  function Step(s: System, e: Event): System {
    System(if e.SwitchTo? then e.target else s.current, e.after)
  }

  ghost predicate Valid(cs: seq<Context>, s: System, run: seq<Event>)
    requires s.current < |cs|
    decreases |run|
  {
    run == [] || (Allowed(cs, s, run[0]) && Valid(cs, Step(s, run[0]), run[1..]))
  }

  ghost function Exec(cs: seq<Context>, s: System, run: seq<Event>): (s': System)
    requires s.current < |cs| && Valid(cs, s, run)
    ensures s'.current < |cs|
    decreases |run|
  {
    if run == [] then s else Exec(cs, Step(s, run[0]), run[1..])
  }

  // ---------------------------------------------------------------- coroutines

  /** `live` is what the running coroutine has now, `suspended[d]` what coroutine `d` had when it handed over. */
  datatype Coroutines = Coroutines(current: nat, live: Frame, suspended: seq<Frame>)

  function CoStep(co: Coroutines, e: Event): Coroutines
    requires co.current < |co.suspended| && (e.SwitchTo? ==> e.target < |co.suspended|)
  {
    match e
    case Compute(after) => co.(live := Frame(after.saved, after.rsp, after.rip))
    case SwitchTo(target, returnTo, _) =>
      Coroutines(target, co.suspended[target], co.suspended[co.current := co.live.(rip := returnTo)])
  }

  predicate CoValid(co: Coroutines, run: seq<Event>)
    requires co.current < |co.suspended|
    decreases |run|
  {
    run == [] || ((run[0].SwitchTo? ==> run[0].target < |co.suspended|) && CoValid(CoStep(co, run[0]), run[1..]))
  }

  function CoExec(co: Coroutines, run: seq<Event>): (co': Coroutines)
    requires co.current < |co.suspended| && CoValid(co, run)
    ensures co'.current < |co'.suspended| == |co.suspended|
    decreases |run|
  {
    if run == [] then co else CoExec(CoStep(co, run[0]), run[1..])
  }

  // ---------------------------------------------------------------- refinement

  ghost predicate SavedAs(c: Context, mem: Memory, f: Frame) {
    var sp := Word(mem, c.slot);
    c.low <= sp && sp + FRAME_SIZE <= c.high && FrameAt(mem, sp) == f
  }

  ghost predicate Refines(cs: seq<Context>, s: System, co: Coroutines) {
    && GoodLayout(cs)
    && |co.suspended| == |cs|
    && s.current == co.current < |cs|
    && co.live == Frame(s.m.saved, s.m.rsp, s.m.rip)
    && (forall d | 0 <= d < |cs| && d != s.current :: SavedAs(cs[d], s.m.mem, co.suspended[d]))
  }

  lemma SavedAsKept(c: Context, mem: Memory, mem': Memory, f: Frame)
    requires SavedAs(c, mem, f)
    requires forall a | c.Owns(a) || a == c.slot :: Word(mem', a) == Word(mem, a)
    ensures SavedAs(c, mem', f)
  {
  }

  /** A switch writes only its own slot and 56 bytes of its own stack, and leaves its frame there. */
  lemma {:induction false} SwitchSaves(cs: seq<Context>, s: System, e: Event)
    requires GoodLayout(cs) && s.current < |cs| && e.SwitchTo? && Allowed(cs, s, e)
    ensures var mem, c := Step(s, e).m.mem, cs[s.current];
            && SavedAs(c, mem, Frame(s.m.saved, s.m.rsp, e.returnTo))
            && (forall a | a != c.slot && !c.Owns(a) :: Word(mem, a) == Word(s.m.mem, a))
  {
    var c, m := cs[s.current], Call(s.m, SWITCH_ROUTINE, e.returnTo);
    assert c.slot + 8 <= c.low || c.high <= c.slot;
    assert Word(m.mem, m.rsp) == e.returnTo;
  }

  lemma {:induction false} SwitchRefines(cs: seq<Context>, s: System, co: Coroutines, e: Event)
    requires Refines(cs, s, co) && e.SwitchTo? && Allowed(cs, s, e)
    ensures Refines(cs, Step(s, e), CoStep(co, e))
  {
    var mem := Step(s, e).m.mem;
    SwitchSaves(cs, s, e);
    forall d | 0 <= d < |cs| && d != s.current
      ensures SavedAs(cs[d], mem, co.suspended[d])
    {
      OthersApart(cs, s.current, d);
      SavedAsKept(cs[d], s.m.mem, mem, co.suspended[d]);
    }
  }

  lemma OthersApart(cs: seq<Context>, c: nat, d: nat)
    requires GoodLayout(cs) && c < |cs| && d < |cs| && c != d
    ensures cs[c].slot != cs[d].slot && !cs[c].Owns(cs[d].slot) && !cs[d].Owns(cs[c].slot)
    ensures forall a | cs[d].Owns(a) :: !cs[c].Owns(a)
  {
    var i, j := if c < d then c else d, if c < d then d else c;
    assert (cs[i].high <= cs[j].low || cs[j].high <= cs[i].low) && cs[i].slot != cs[j].slot;
  }

  lemma {:induction false} ComputeRefines(cs: seq<Context>, s: System, co: Coroutines, e: Event)
    requires Refines(cs, s, co) && e.Compute? && Allowed(cs, s, e)
    ensures Refines(cs, Step(s, e), CoStep(co, e))
  {
    forall d | 0 <= d < |cs| && d != s.current
      ensures SavedAs(cs[d], e.after.mem, co.suspended[d])
    {
      assert SavedAs(cs[d], s.m.mem, co.suspended[d]);
    }
  }

  /**
   Any run of the machine is the same run of coroutines; in particular the running context has what coroutine `live`
   has.
   */
  lemma {:induction false} RunRefines(cs: seq<Context>, s: System, co: Coroutines, run: seq<Event>)
    requires Refines(cs, s, co) && Valid(cs, s, run)
    ensures CoValid(co, run) && Refines(cs, Exec(cs, s, run), CoExec(co, run))
    decreases |run|
  {
    if run != [] {
      if run[0].SwitchTo? {
        SwitchRefines(cs, s, co, run[0]);
      } else {
        ComputeRefines(cs, s, co, run[0]);
      }
      RunRefines(cs, Step(s, run[0]), CoStep(co, run[0]), run[1..]);
    }
  }

  /** Nobody else changes what a suspended coroutine will continue with. */
  lemma {:induction false} StaysSuspended(co: Coroutines, run: seq<Event>, c: nat)
    requires co.current < |co.suspended| && c < |co.suspended| && c != co.current && CoValid(co, run)
    requires forall k | 0 <= k < |run| :: run[k].SwitchTo? ==> run[k].target != c
    ensures CoExec(co, run).suspended[c] == co.suspended[c] && CoExec(co, run).current != c
    decreases |run|
  {
    if run != [] {
      StaysSuspended(CoStep(co, run[0]), run[1..], c);
    }
  }

  /**
   The guarantee a caller of the switch gets: context `s.current` leaves with one switch, others run for as long as
   they like, and the switch that comes back returns just after the first one, all callee-saved registers and rsp as
   they were.
   */
  lemma {:induction false} ResumesAsItLeft(cs: seq<Context>, s: System, co: Coroutines, leave: Event,
                                         others: seq<Event>, back: Event)
    requires Refines(cs, s, co) && leave.SwitchTo? && Allowed(cs, s, leave)
    requires Valid(cs, Step(s, leave), others)
    requires forall k | 0 <= k < |others| :: others[k].SwitchTo? ==> others[k].target != s.current
    requires back.SwitchTo? && back.target == s.current && Allowed(cs, Exec(cs, Step(s, leave), others), back)
    ensures var m := Step(Exec(cs, Step(s, leave), others), back).m;
            m.rip == leave.returnTo && m.rsp == s.m.rsp && m.saved == s.m.saved
  {
    var s1, co1 := Step(s, leave), CoStep(co, leave);
    SwitchRefines(cs, s, co, leave);
    RunRefines(cs, s1, co1, others);
    StaysSuspended(co1, others, s.current);
    SwitchRefines(cs, Exec(cs, s1, others), CoExec(co1, others), back);
  }

  // ---------------------------------------------------------------- prepared contexts

  /**
   A prepared context is suspended where its function starts: all callee-saved registers zero, rsp + 8 a multiple of
   16 as at any function entry (System V AMD64 ABI, section 3.2.2), and in the fiber version the argument at rsp +
   8, where a seventh argument is passed (section 3.2.3).
   */
  lemma PreparedIsSuspended(mem: Memory, stack: int, fun: int, argument: int, mem': Memory, c: Context)
    requires Prepared(mem, stack, fun, mem') || PreparedWithArgument(mem, stack, fun, argument, mem')
    requires c.low <= AlignDown(stack) - 64 && AlignDown(stack) - 8 <= c.high
    requires Word(mem', c.slot) == AlignDown(stack) - 64
    ensures var f := FirstFrame(stack, fun);
            && SavedAs(c, mem', f)
            && f.saved == ZEROED && f.rip == fun && (f.rsp + 8) % 16 == 0
            && (PreparedWithArgument(mem, stack, fun, argument, mem') ==> Word(mem', f.rsp + 8) == argument)
  {
  }

  ghost predicate WritesInside(stack: int, withArgument: bool, base: int, size: int) {
    forall a | Writes(stack, withArgument, a) :: base <= a && a + 8 <= base + size
  }

  predicate LargeEnough(size: int, withArgument: bool) {
    size > 64 && (withArgument ==> size % 16 == 0 || size % 16 >= 8)
  }

  /**
   With the stack address computed as `main` does, the last byte of a 16-aligned block, preparing stays inside the block
   just when the block is at least 65 bytes and, with an argument, does not end 1 to 7 bytes past a multiple of 16.
   */
  lemma {:induction false} WritesInsideAllocation(base: int, size: int, withArgument: bool)
    requires base % 16 == 0 && size > 0
    ensures WritesInside(base + size - 1, withArgument, base, size)
        <==> LargeEnough(size, withArgument)
  {
    var stack := base + size - 1;
    var top := AlignDown(stack);
    assert stack % 16 == (size - 1) % 16;
    assert Writes(stack, withArgument, top - 64);
    assert withArgument ==> Writes(stack, withArgument, top);
  }
}
