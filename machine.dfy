/**
 * The state of the emulated TTK-91 machine (src/vm.rs): a register file and
 * an MMU, how a fresh machine looks, how an object module is loaded into it,
 * and how an instruction's operand is computed in the three addressing modes.
 *
 * Every panic of the source is a `Fault` here. The state paired with a fault
 * is the state at the moment of the panic, MAR and MBR included.
 */
module Machines {
  import opened Wrappers
  import opened Words
  import opened Ops
  import opened Instructions
  import opened Registers
  import opened Memory
  import opened ObjectModules

  datatype State = State(regs: Regs, mmu: Mmu)

  /** Each way executing the machine panics. */
  datatype Fault =
    | Undecodable(error: DecodeError)  // `Instruction::from_u32` unwrapping an unassigned opcode or mode 3
    | InvalidRegister                  // a register number above 7
    | AddressOutOfBounds               // an MMU access at or past the limit
    | DivisionByZero
    | Unimplemented                    // IN
    | NoSuchDevice                     // `Device::from_u32(..).unwrap()` on a number that names no device
    | InvalidDevice                    // a device other than the CRT
    | UnknownService                   // a supervisor call other than halt
    | NoHandler(op: Op)                // an operation without an arm in `execute`
    | BadSlice                         // the loader's slice is out of range or of another length

  /** `Machine::new(memory_size)`. */
  function NewSpec(memorySize: USize): (s: State)
    ensures s.regs == AllZero()
    ensures s.mmu == Fresh(memorySize)
  {
    State(AllZero(), Fresh(memorySize))
  }

  /** `MMU::read` inside a machine, a panic becoming a fault. */
  function MemRead(s: State, addr: USize): (Result<Word, Fault>, State)
  {
    var (v, m) := ReadSpec(s.mmu, addr);
    if v.None? then (Err(AddressOutOfBounds), s.(mmu := m)) else (Ok(v.value), s.(mmu := m))
  }

  /** The effective address: the base register plus the address field, wrapping at 2^32. */
  function EffectiveAddress(regs: Regs, ins: Instruction): Option<Word>
  {
    match Read(regs, ins.ri)
    case None => None
    case Some(base) => Some(WrapAdd(base, ins.addr))
  }

  /**
   * `fetch_value`: the effective address itself (Immediate), the word stored
   * there (Direct) or the word stored where that one points (Indirect).
   */
  function FetchValueSpec(s: State, ins: Instruction): (Result<Word, Fault>, State)
  {
    match EffectiveAddress(s.regs, ins)
    case None => (Err(InvalidRegister), s)
    case Some(ea) =>
      match ins.mode
      case Immediate => (Ok(ea), s)
      case Direct => MemRead(s, ea)
      case Indirect =>
        var (p, s1) := MemRead(s, ea);
        if p.Err? then (p, s1) else MemRead(s1, p.value)
  }

  /** Computing an operand never changes a register, the limit or a memory cell. */
  lemma {:induction false} FetchValueFrame(s: State, ins: Instruction)
    ensures var s' := FetchValueSpec(s, ins).1;
      s'.regs == s.regs && s'.mmu.limit == s.mmu.limit && s'.mmu.cells == s.mmu.cells
  {
  }

  /**
   * The operand in each mode, with `ea = reg[ri] + addr`: R0 as base gives the
   * address field itself, and each memory read in bounds leaves its address
   * and value in MAR and MBR.
   */
  lemma {:induction false} FetchValueModes(s: State, ins: Instruction)
    requires ins.ri <= 7
    ensures var ea := WrapAdd(Read(s.regs, ins.ri).value, ins.addr);
      var (r, s') := FetchValueSpec(s, ins);
      && (ins.ri == 0 ==> ea == ins.addr)
      && (ins.mode == Immediate ==> r == Ok(ea) && s' == s)
      && (ins.mode == Direct ==>
            if ea < s.mmu.limit
            then r == Ok(s.mmu.cells[ea]) && s'.mmu == s.mmu.(mar := ea, mbr := s.mmu.cells[ea])
            else r == Err(AddressOutOfBounds))
      && (ins.mode == Indirect ==>
            if ea < s.mmu.limit && s.mmu.cells[ea] < s.mmu.limit
            then r == Ok(s.mmu.cells[s.mmu.cells[ea]])
              && s'.mmu == s.mmu.(mar := s.mmu.cells[ea], mbr := s.mmu.cells[s.mmu.cells[ea]])
            else r == Err(AddressOutOfBounds))
  {
  }

  /** A register number above 7 in the index field makes every mode fault. */
  lemma FetchValueBadIndex(s: State, ins: Instruction)
    requires ins.ri > 7
    ensures FetchValueSpec(s, ins) == (Err(InvalidRegister), s)
  {
  }

  /**
   * `load_object_module`: copies the code words into memory at
   * `code.start..code.end + 1`, sets FP to `code.end`, then does the same for
   * the data block and SP. The copies go straight into the backing array. The
   * flag is false where the source panics, with the state reached by then.
   */
  function LoadSpec(s: State, om: ObjectModule): (bool, State)
  {
    match SliceCopy(s.mmu.cells, om.code.start, USizeSucc(om.code.end), om.code.instructions)
    case None => (false, s)
    case Some(cells) =>
      var s1 := State(s.regs[FP := TruncateToWord(om.code.end)], s.mmu.(cells := cells));
      match SliceCopy(cells, om.data.start, USizeSucc(om.data.end), om.data.data)
      case None => (false, s1)
      case Some(cells') =>
        (true, State(s1.regs[SP := TruncateToWord(om.data.end)], s1.mmu.(cells := cells')))
  }

  /** The slice a block is copied into fits in memory and has as many words as the block. */
  predicate BlockFits(cells: nat, start: USize, end: USize, words: nat)
  {
    start <= USizeSucc(end) <= cells && USizeSucc(end) - start == words
  }

  /** Loading succeeds exactly when both blocks fit in memory and match their offsets. */
  lemma {:induction false} LoadOkIff(s: State, om: ObjectModule)
    ensures LoadSpec(s, om).0 <==>
      BlockFits(|s.mmu.cells|, om.code.start, om.code.end, |om.code.instructions|)
      && BlockFits(|s.mmu.cells|, om.data.start, om.data.end, |om.data.data|)
  {
  }

  /**
   * For blocks whose end is not the largest `usize`, fitting means ending below
   * the memory size and holding `end - start + 1` words, the count the parser reads.
   */
  lemma BlockFitsPlain(cells: nat, start: USize, end: USize, words: nat)
    requires end + 1 < USIZE_MOD
    ensures BlockFits(cells, start, end, words) <==>
      end < cells && start <= end + 1 && words == USizeSpan(start, end)
  {
  }

  /**
   * After a successful load the data block is in place, the code block is in
   * place wherever the data does not overlap it, FP and SP hold the (truncated)
   * block ends, and everything else — other registers, MAR, MBR, the limit and
   * every cell outside both blocks — is as before.
   */
  lemma {:induction false} LoadPlacesBlocks(s: State, om: ObjectModule)
    requires LoadSpec(s, om).0
    ensures var s' := LoadSpec(s, om).1;
      var codeStop, dataStop := USizeSucc(om.code.end), USizeSucc(om.data.end);
      && |s'.mmu.cells| == |s.mmu.cells|
      && s'.mmu.cells[om.data.start..dataStop] == om.data.data
      && (forall a :: om.code.start <= a < codeStop && !(om.data.start <= a < dataStop) ==>
            s'.mmu.cells[a] == om.code.instructions[a - om.code.start])
      && (forall a :: 0 <= a < |s.mmu.cells| && !(om.code.start <= a < codeStop) && !(om.data.start <= a < dataStop) ==>
            s'.mmu.cells[a] == s.mmu.cells[a])
      && s'.regs[FP] == TruncateToWord(om.code.end) && s'.regs[SP] == TruncateToWord(om.data.end)
      && (forall k :: 0 <= k < 12 && k != FP && k != SP ==> s'.regs[k] == s.regs[k])
      && s'.mmu.mar == s.mmu.mar && s'.mmu.mbr == s.mmu.mbr && s'.mmu.limit == s.mmu.limit
  {
    var code := SliceCopy(s.mmu.cells, om.code.start, USizeSucc(om.code.end), om.code.instructions).value;
    forall a | om.code.start <= a < USizeSucc(om.code.end)
      ensures code[a] == om.code.instructions[a - om.code.start]
    {
      assert code[om.code.start..USizeSucc(om.code.end)][a - om.code.start] == code[a];
    }
  }

  /** When the blocks do not overlap, the whole code block is in place too. */
  lemma {:induction false} LoadDisjoint(s: State, om: ObjectModule)
    requires LoadSpec(s, om).0
    requires USizeSucc(om.code.end) <= om.data.start || USizeSucc(om.data.end) <= om.code.start
    ensures LoadSpec(s, om).1.mmu.cells[om.code.start..USizeSucc(om.code.end)] == om.code.instructions
  {
    LoadPlacesBlocks(s, om);
    var cells := LoadSpec(s, om).1.mmu.cells;
    var codeStop := USizeSucc(om.code.end);
    assert forall i :: 0 <= i < |om.code.instructions| ==>
      cells[om.code.start..codeStop][i] == cells[om.code.start + i];
  }
}
