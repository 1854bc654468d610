/**
 * Executing one decoded instruction (`Control::execute`, src/vm/control.rs).
 *
 * NOP, STORE, LOAD, OUT, JZER, JUMP, ADD, SUB, MUL, DIV and SVC have arms; IN
 * is unimplemented and every other operation has no handler, so both fault.
 * Printing a value on the CRT is an `Output` step, and the halt supervisor
 * call, which ends the host process, is a `Halted` step.
 */
module Control {
  import opened Wrappers
  import opened Words
  import opened Ops
  import opened Instructions
  import opened Registers
  import opened Memory
  import opened Machines

  /** Device numbers (src/vm/io.rs). */
  const CRT: Word := 0
  const KEYBOARD: Word := 1

  /**
   * The service number of the halt supervisor call. The supervisor module is
   * not part of this model; 11 is the number TTK-91 gives to HALT.
   */
  const HALT_SERVICE: Word := 11

  /** What one instruction did besides changing the state. */
  datatype Step = Continue | Output(value: Word) | Halted | Faulted(fault: Fault)

  /** `self.registers.set(rj, value)`, a panic becoming a fault. */
  function SetRegister(s: State, rj: Byte, value: Word): (Step, State)
  {
    match Write(s.regs, rj, value)
    case None => (Faulted(InvalidRegister), s)
    case Some(regs) => (Continue, s.(regs := regs))
  }

  /** ADD, SUB, MUL, DIV: `rj := rj op operand`, the operand fetched first. */
  function Arithmetic(s: State, ins: Instruction): (Step, State)
    requires ins.opcode in {ADD, SUB, MUL, DIV}
  {
    var (a, s1) := FetchValueSpec(s, ins);
    if a.Err? then (Faulted(a.error), s1)
    else
      match Read(s1.regs, ins.rj)
      case None => (Faulted(InvalidRegister), s1)
      case Some(b) =>
        match ins.opcode
        case ADD => SetRegister(s1, ins.rj, WrapAdd(b, a.value))
        case SUB => SetRegister(s1, ins.rj, WrapSub(b, a.value))
        case MUL => SetRegister(s1, ins.rj, WrapMul(b, a.value))
        case DIV =>
          if a.value == 0 then (Faulted(DivisionByZero), s1)
          else SetRegister(s1, ins.rj, b / a.value)
  }

  /** `execute`: the step taken and the state after it. */
  function ExecuteSpec(s: State, ins: Instruction): (Step, State)
  {
    match ins.opcode
    case NOP => (Continue, s)
    case IN => (Faulted(Unimplemented), s)
    case STORE =>
      (match Read(s.regs, ins.rj)
       case None => (Faulted(InvalidRegister), s)
       case Some(source) =>
         var (dest, s1) := FetchValueSpec(s, ins);
         if dest.Err? then (Faulted(dest.error), s1)
         else
           var (ok, m) := WriteSpec(s1.mmu, dest.value, source);
           if ok then (Continue, s1.(mmu := m)) else (Faulted(AddressOutOfBounds), s1))
    case LOAD =>
      var (v, s1) := FetchValueSpec(s, ins);
      if v.Err? then (Faulted(v.error), s1) else SetRegister(s1, ins.rj, v.value)
    case OUT =>
      var (device, s1) := FetchValueSpec(s, ins);
      if device.Err? then (Faulted(device.error), s1)
      else if device.value != CRT && device.value != KEYBOARD then (Faulted(NoSuchDevice), s1)
      else
        (match Read(s1.regs, ins.rj)
         case None => (Faulted(InvalidRegister), s1)
         case Some(x) => if device.value == CRT then (Output(x), s1) else (Faulted(InvalidDevice), s1))
    case JZER =>
      (match Read(s.regs, ins.rj)
       case None => (Faulted(InvalidRegister), s)
       case Some(x) =>
         if x != 0 then (Continue, s)
         else
           var (target, s1) := FetchValueSpec(s, ins);
           if target.Err? then (Faulted(target.error), s1)
           else (Continue, s1.(regs := s1.regs[PC := target.value])))
    case JUMP =>
      (match Read(s.regs, ins.rj)
       case None => (Faulted(InvalidRegister), s)
       case Some(x) => (Continue, s.(regs := s.regs[PC := x])))
    case ADD => Arithmetic(s, ins)
    case SUB => Arithmetic(s, ins)
    case MUL => Arithmetic(s, ins)
    case DIV => Arithmetic(s, ins)
    case SVC =>
      var (service, s1) := FetchValueSpec(s, ins);
      if service.Err? then (Faulted(service.error), s1)
      else if service.value == HALT_SERVICE then (Halted, s1)
      else (Faulted(UnknownService), s1)
    case _ => (Faulted(NoHandler(ins.opcode)), s)
  }

  /** Whether `execute` has an arm for the operation. */
  predicate Handled(op: Op)
  {
    op in {NOP, IN, STORE, LOAD, OUT, JZER, JUMP, ADD, SUB, MUL, DIV, SVC}
  }

  /** The operand `fetch_value` yields, when it yields one. */
  function Operand(s: State, ins: Instruction): Option<Word>
  {
    var (r, _) := FetchValueSpec(s, ins);
    if r.Ok? then Some(r.value) else None
  }

  /** NOP changes nothing at all. */
  lemma NopUnchanged(s: State, ins: Instruction)
    requires ins.opcode == NOP
    ensures ExecuteSpec(s, ins) == (Continue, s)
  {
  }

  /** Only the jumps touch PC. */
  lemma {:induction false} ExecuteKeepsPc(s: State, ins: Instruction)
    requires ins.opcode != JUMP && ins.opcode != JZER
    ensures ExecuteSpec(s, ins).1.regs[PC] == s.regs[PC]
  {
    FetchValueFrame(s, ins);
    match ins.opcode
    case ADD => ArithmeticFrame(s, ins);
    case SUB => ArithmeticFrame(s, ins);
    case MUL => ArithmeticFrame(s, ins);
    case DIV => ArithmeticFrame(s, ins);
    case _ =>
  }

  /** No instruction touches IR, TR or SR. */
  lemma {:induction false} ExecuteControlFrame(s: State, ins: Instruction)
    ensures var s' := ExecuteSpec(s, ins).1;
      s'.regs[IR] == s.regs[IR] && s'.regs[TR] == s.regs[TR] && s'.regs[SR] == s.regs[SR]
  {
    FetchValueFrame(s, ins);
    match ins.opcode
    case ADD => ArithmeticFrame(s, ins);
    case SUB => ArithmeticFrame(s, ins);
    case MUL => ArithmeticFrame(s, ins);
    case DIV => ArithmeticFrame(s, ins);
    case _ =>
  }

  /** No instruction changes the limit or the size of memory. */
  lemma {:induction false} ExecuteMemoryFrame(s: State, ins: Instruction)
    ensures var s' := ExecuteSpec(s, ins).1;
      s'.mmu.limit == s.mmu.limit && |s'.mmu.cells| == |s.mmu.cells|
  {
    FetchValueFrame(s, ins);
    match ins.opcode
    case ADD => ArithmeticFrame(s, ins);
    case SUB => ArithmeticFrame(s, ins);
    case MUL => ArithmeticFrame(s, ins);
    case DIV => ArithmeticFrame(s, ins);
    case _ =>
  }

  /** The arithmetic instructions change only Rj among the registers. */
  lemma {:induction false} ArithmeticFrame(s: State, ins: Instruction)
    requires ins.opcode in {ADD, SUB, MUL, DIV}
    ensures var s' := Arithmetic(s, ins).1;
      && (forall k :: 0 <= k < 12 && k != ins.rj ==> s'.regs[k] == s.regs[k])
      && s'.mmu.limit == s.mmu.limit && s'.mmu.cells == s.mmu.cells
  {
    FetchValueFrame(s, ins);
  }

  /** Only STORE writes memory: every other instruction leaves every cell as it was. */
  lemma {:induction false} OnlyStoreWrites(s: State, ins: Instruction)
    requires ins.opcode != STORE
    ensures ExecuteSpec(s, ins).1.mmu.cells == s.mmu.cells
  {
    FetchValueFrame(s, ins);
  }

  /**
   * LOAD puts the operand into Rj and changes no other register and no memory
   * cell; only MAR and MBR record the operand's reads.
   */
  lemma {:induction false} LoadSetsRegister(s: State, ins: Instruction)
    requires ins.opcode == LOAD && ins.rj <= 7 && Operand(s, ins).Some?
    ensures var (step, s') := ExecuteSpec(s, ins);
      step == Continue && s'.regs == s.regs[ins.rj := Operand(s, ins).value]
      && s'.mmu.cells == s.mmu.cells && s'.mmu == FetchValueSpec(s, ins).1.mmu
  {
    FetchValueFrame(s, ins);
  }

  /**
   * STORE writes Rj at the address the operand names — in immediate mode the
   * effective address itself — and changes no register; an operand at or past
   * the limit faults.
   */
  lemma {:induction false} StoreWritesMemory(s: State, ins: Instruction)
    requires ins.opcode == STORE && ins.rj <= 7 && Operand(s, ins).Some?
    ensures var (step, s') := ExecuteSpec(s, ins);
      var dest := Operand(s, ins).value;
      && s'.regs == s.regs
      && (dest < s.mmu.limit ==>
            step == Continue && s'.mmu.cells == s.mmu.cells[dest := Read(s.regs, ins.rj).value]
            && s'.mmu.mar == dest && s'.mmu.mbr == Read(s.regs, ins.rj).value)
      && (dest >= s.mmu.limit ==> step == Faulted(AddressOutOfBounds))
  {
    FetchValueFrame(s, ins);
  }

  /** STORE in immediate mode writes to `reg[ri] + addr` itself. */
  lemma {:induction false} StoreImmediate(s: State, ins: Instruction)
    requires ins.opcode == STORE && ins.mode == Immediate && ins.rj <= 7 && ins.ri <= 7
    requires WrapAdd(Read(s.regs, ins.ri).value, ins.addr) < s.mmu.limit
    ensures ExecuteSpec(s, ins).1.mmu.cells
      == s.mmu.cells[WrapAdd(Read(s.regs, ins.ri).value, ins.addr) := Read(s.regs, ins.rj).value]
  {
  }

  /** The value an arithmetic instruction computes from Rj and the operand, wrapping at 2^32. */
  function ArithmeticResult(op: Op, b: Word, a: Word): Option<Word>
    requires op in {ADD, SUB, MUL, DIV}
  {
    match op
    case ADD => Some(WrapAdd(b, a))
    case SUB => Some(WrapSub(b, a))
    case MUL => Some(WrapMul(b, a))
    case DIV => if a == 0 then None else Some(b / a)
  }

  /**
   * ADD, SUB, MUL and DIV replace Rj by Rj combined with the operand and change
   * nothing else; DIV by a zero operand faults and changes no register.
   */
  lemma {:induction false} ArithmeticSetsRegister(s: State, ins: Instruction)
    requires ins.opcode in {ADD, SUB, MUL, DIV} && ins.rj <= 7 && Operand(s, ins).Some?
    ensures var (step, s') := ExecuteSpec(s, ins);
      var b, a := Read(s.regs, ins.rj).value, Operand(s, ins).value;
      && s'.mmu == FetchValueSpec(s, ins).1.mmu
      && (ArithmeticResult(ins.opcode, b, a).Some? ==>
            step == Continue && s'.regs == s.regs[ins.rj := ArithmeticResult(ins.opcode, b, a).value])
      && (ArithmeticResult(ins.opcode, b, a).None? ==> step == Faulted(DivisionByZero) && s'.regs == s.regs)
  {
    FetchValueFrame(s, ins);
  }

  /** With no wrap-around the arithmetic is the ordinary one, and DIV rounds down. */
  lemma ArithmeticPlain(b: Word, a: Word)
    ensures b + a < WORD_MOD ==> ArithmeticResult(ADD, b, a) == Some(b + a)
    ensures a <= b ==> ArithmeticResult(SUB, b, a) == Some(b - a)
    ensures b * a < WORD_MOD ==> ArithmeticResult(MUL, b, a) == Some(b * a)
    ensures a > 0 ==> ArithmeticResult(DIV, b, a).value * a <= b < (ArithmeticResult(DIV, b, a).value + 1) * a
  {
  }

  /** JUMP sets PC to Rj whatever the mode, index register and address field say. */
  lemma {:induction false} JumpSetsPc(s: State, ins: Instruction)
    requires ins.opcode == JUMP && ins.rj <= 7
    ensures ExecuteSpec(s, ins) == (Continue, s.(regs := s.regs[PC := Read(s.regs, ins.rj).value]))
  {
  }

  /**
   * JZER jumps to the operand when Rj is zero. Otherwise it changes nothing and
   * never computes the operand, so even an operand that would fault is harmless.
   */
  lemma {:induction false} JzerBranches(s: State, ins: Instruction)
    requires ins.opcode == JZER && ins.rj <= 7
    ensures Read(s.regs, ins.rj).value != 0 ==> ExecuteSpec(s, ins) == (Continue, s)
    ensures Read(s.regs, ins.rj).value == 0 && Operand(s, ins).Some? ==>
      var s1 := FetchValueSpec(s, ins).1;
      ExecuteSpec(s, ins) == (Continue, s1.(regs := s1.regs[PC := Operand(s, ins).value]))
  {
  }

  /**
   * OUT on device 0 emits Rj and changes no register or memory cell; any other
   * device number faults.
   */
  lemma {:induction false} OutputToCrt(s: State, ins: Instruction)
    requires ins.opcode == OUT && ins.rj <= 7 && Operand(s, ins).Some?
    ensures var (step, s') := ExecuteSpec(s, ins);
      && (Operand(s, ins).value == CRT ==> step == Output(Read(s.regs, ins.rj).value))
      && (Operand(s, ins).value != CRT ==> step.Faulted?)
      && s'.regs == s.regs && s'.mmu.cells == s.mmu.cells
  {
    FetchValueFrame(s, ins);
  }

  /** The halt supervisor call halts; any other service number faults. */
  lemma {:induction false} SupervisorCall(s: State, ins: Instruction)
    requires ins.opcode == SVC && Operand(s, ins).Some?
    ensures ExecuteSpec(s, ins).0 == if Operand(s, ins).value == HALT_SERVICE then Halted else Faulted(UnknownService)
  {
  }

  /**
   * When computing the operand faults — an index register above 7, or a direct
   * or indirect read at or past the limit — every instruction that needs the
   * operand ends with that fault, in the state the failed fetch left (MAR and
   * MBR of any read that succeeded). STORE and JZER read Rj first, and JZER
   * needs the operand only when Rj is zero.
   */
  lemma {:induction false} OperandFaults(s: State, ins: Instruction)
    requires FetchValueSpec(s, ins).0.Err?
    requires || ins.opcode in {LOAD, ADD, SUB, MUL, DIV, OUT, SVC}
             || (ins.opcode == STORE && ins.rj <= 7)
             || (ins.opcode == JZER && Read(s.regs, ins.rj) == Some(0))
    ensures ExecuteSpec(s, ins) == (Faulted(FetchValueSpec(s, ins).0.error), FetchValueSpec(s, ins).1)
  {
  }

  /**
   * A register number above 7 in the Rj field faults. STORE, JZER and JUMP
   * read Rj before anything else and so change nothing; LOAD and the
   * arithmetic instructions fetch the operand first and fault in the state
   * that fetch left.
   */
  lemma {:induction false} BadRjFaults(s: State, ins: Instruction)
    requires ins.rj > 7
    ensures ins.opcode in {STORE, JZER, JUMP} ==> ExecuteSpec(s, ins) == (Faulted(InvalidRegister), s)
    ensures ins.opcode in {LOAD, ADD, SUB, MUL, DIV} && Operand(s, ins).Some? ==>
      ExecuteSpec(s, ins) == (Faulted(InvalidRegister), FetchValueSpec(s, ins).1)
  {
    FetchValueFrame(s, ins);
  }

  /**
   * IN and every operation without an arm (MOD, the logic and shift
   * operations, COMP, CALL, EXIT, the stack operations and the conditional
   * jumps other than JZER) fault without changing anything.
   */
  lemma {:induction false} UnsupportedFaults(s: State, ins: Instruction)
    requires ins.opcode == IN || !Handled(ins.opcode)
    ensures ExecuteSpec(s, ins).1 == s
    ensures ExecuteSpec(s, ins).0 == Faulted(if ins.opcode == IN then Unimplemented else NoHandler(ins.opcode))
  {
  }
}
