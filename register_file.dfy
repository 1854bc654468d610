/**
 * The register file (src/vm/register_file.rs): eight general registers, of
 * which R6 is the stack pointer and R7 the frame pointer, and the four control
 * unit registers PC, IR, TR and SR.
 *
 * Indexed access by register number is the only way instructions reach the
 * general registers. Reading R0 always yields 0; writing R0 succeeds and stores
 * into a backing field that no indexed read ever shows.
 */
module Registers {
  import opened Wrappers
  import opened Words

  /** Positions in the snapshot of the register file. */
  const SP: nat := 6
  const FP: nat := 7
  const PC: nat := 8
  const IR: nat := 9
  const TR: nat := 10
  const SR: nat := 11

  /** The twelve fields in declaration order: r0..r5, sp, fp, pc, ir, tr, sr. */
  type Regs = s: seq<Word> | |s| == 12 witness [0, 0, 0, 0, 0, 0, 0, 0, 0, 0, 0, 0]

  function AllZero(): (r: Regs)
    ensures forall k :: 0 <= k < 12 ==> r[k] == 0
  {
    [0, 0, 0, 0, 0, 0, 0, 0, 0, 0, 0, 0]
  }

  /** `Index::index`: R0 reads as the constant 0, R1..R7 read their field, any other number fails. */
  function Read(regs: Regs, index: Byte): Option<Word>
  {
    if index == 0 then Some(0)
    else if index <= 7 then Some(regs[index])
    else None
  }

  /** `IndexMut::index_mut` then an assignment: registers 0..7 write their own field, any other number fails. */
  function Write(regs: Regs, index: Byte, value: Word): Option<Regs>
  {
    if index <= 7 then Some(regs[index := value]) else None
  }

  /** R0 reads as zero whatever its backing field holds. */
  lemma ReadZero(regs: Regs)
    ensures Read(regs, 0) == Some(0)
  {
  }

  /** Writing R0 succeeds and fills the backing field, yet R0 still reads as zero. */
  lemma WriteZeroInvisible(regs: Regs, value: Word)
    ensures Write(regs, 0, value).Some?
    ensures Write(regs, 0, value).value[0] == value
    ensures Read(Write(regs, 0, value).value, 0) == Some(0)
  {
  }

  /** R1..R7 read back exactly what was written to them. */
  lemma ReadAfterWrite(regs: Regs, index: Byte, value: Word)
    requires 1 <= index <= 7
    ensures Write(regs, index, value).Some?
    ensures Read(Write(regs, index, value).value, index) == Some(value)
  {
  }

  /** R6 is the `sp` field and R7 the `fp` field, for reading and for writing. */
  lemma StackAndFramePointer(regs: Regs, value: Word)
    ensures Read(regs, 6) == Some(regs[SP]) && Read(regs, 7) == Some(regs[FP])
    ensures Write(regs, 6, value) == Some(regs[SP := value])
    ensures Write(regs, 7, value) == Some(regs[FP := value])
  {
  }

  /** A write changes only the addressed field: the other general and all control registers stay. */
  lemma WriteFrame(regs: Regs, index: Byte, value: Word, k: nat)
    requires index <= 7 && k < 12 && k != index
    ensures Write(regs, index, value).value[k] == regs[k]
    ensures k <= 7 ==> Read(Write(regs, index, value).value, k) == Read(regs, k)
  {
  }

  /** Register numbers above 7 make both reading and writing fail. */
  lemma OutOfRange(regs: Regs, index: Byte, value: Word)
    requires index > 7
    ensures Read(regs, index).None? && Write(regs, index, value).None?
  {
  }

  class RegisterFile {
    var r0: Word
    var r1: Word
    var r2: Word
    var r3: Word
    var r4: Word
    var r5: Word
    var sp: Word
    var fp: Word
    var pc: Word
    var ir: Word
    var tr: Word
    var sr: Word

    function View(): Regs
      reads this
    {
      var s: seq<Word> := [r0, r1, r2, r3, r4, r5, sp, fp, pc, ir, tr, sr];
      assert |s| == 12;
      s
    }

    /** `RegisterFile::new`: every field starts at zero. */
    constructor ()
      ensures View() == AllZero()
    {
      r0, r1, r2, r3, r4, r5 := 0, 0, 0, 0, 0, 0;
      sp, fp, pc, ir, tr, sr := 0, 0, 0, 0, 0, 0;
    }

    /** `get` / `Index::index`. */
    function Get(index: Byte): (r: Option<Word>)
      reads this
      ensures r == Read(View(), index)
    {
      match index
      case 0 => Some(0)
      case 1 => Some(r1)
      case 2 => Some(r2)
      case 3 => Some(r3)
      case 4 => Some(r4)
      case 5 => Some(r5)
      case 6 => Some(sp)
      case 7 => Some(fp)
      case _ => None
    }

    /** `set` / `IndexMut::index_mut`: false where the source panics. */
    method Set(index: Byte, value: Word) returns (ok: bool)
      modifies this
      ensures ok == Write(old(View()), index, value).Some?
      ensures View() == if ok then Write(old(View()), index, value).value else old(View())
    {
      ok := index <= 7;
      match index
      case 0 => r0 := value;
      case 1 => r1 := value;
      case 2 => r2 := value;
      case 3 => r3 := value;
      case 4 => r4 := value;
      case 5 => r5 := value;
      case 6 => sp := value;
      case 7 => fp := value;
      case _ =>
    }
  }
}
