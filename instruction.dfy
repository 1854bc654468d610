/**
 * The instruction word layout and its decoder (`Instruction::from_u32`), with
 * the addressing modes of src/vm.rs.
 *
 * A word is sliced, most significant bit first, as
 * `[opcode:8][rj:3][mode:2][ri:3][addr:16]`. On the unsigned words the source
 * works with, `n >> k` is `n / 2^k` and `x & (2^j - 1)` is `x % 2^j`; the model
 * writes the slicing that way.
 */
module Instructions {
  import opened Wrappers
  import opened Words
  import opened Ops

  datatype AddressingMode = Immediate | Direct | Indirect

  /** The two-bit encoding of each mode (`AddressingMode as u8`). */
  function ModeBits(m: AddressingMode): (r: nat)
    ensures r < 3
  {
    match m
    case Immediate => 0
    case Direct => 1
    case Indirect => 2
  }

  /** `AddressingMode::from_u8`: the fourth encoding, 3, has no mode. */
  function ModeFromBits(b: nat): (r: Option<AddressingMode>)
    ensures r.Some? <==> b < 3
    ensures r.Some? ==> ModeBits(r.value) == b
  {
    match b
    case 0 => Some(Immediate)
    case 1 => Some(Direct)
    case 2 => Some(Indirect)
    case _ => None
  }

  /** The decoded view of one word. `rj` and `ri` are `u8` in the source. */
  datatype Instruction = Instruction(opcode: Op, rj: Byte, mode: AddressingMode, ri: Byte, addr: Half)

  datatype DecodeError = InvalidOpcode | InvalidAddressingMode

  /** The raw fields of a word, before any table lookup. */
  function OpcodeField(n: Word): Byte { n / 0x100_0000 }
  function RjField(n: Word): Byte { (n / 0x20_0000) % 8 }
  function ModeField(n: Word): nat { (n / 0x8_0000) % 4 }
  function RiField(n: Word): Byte { (n / 0x1_0000) % 8 }
  function AddrField(n: Word): Half { n % 0x1_0000 }

  /**
   * `Instruction::from_u32`. The opcode is looked up first, so a word whose
   * opcode byte and mode bits are both undefined fails with `InvalidOpcode`.
   */
  function Decode(n: Word): (r: Result<Instruction, DecodeError>)
    ensures r.Ok? <==> OpFromByte(OpcodeField(n)).Some? && ModeField(n) != 3
    ensures OpFromByte(OpcodeField(n)).None? ==> r == Err(InvalidOpcode)
    ensures r.Ok? ==> OpByte(r.value.opcode) == OpcodeField(n) && ModeBits(r.value.mode) == ModeField(n)
    ensures r.Ok? ==> r.value.rj == RjField(n) <= 7 && r.value.ri == RiField(n) <= 7
    ensures r.Ok? ==> r.value.addr == AddrField(n)
  {
    match OpFromByte(OpcodeField(n))
    case None => Err(InvalidOpcode)
    case Some(op) =>
      OpFromByteSound(OpcodeField(n));
      match ModeFromBits(ModeField(n))
      case None => Err(InvalidAddressingMode)
      case Some(m) => Ok(Instruction(op, RjField(n), m, RiField(n), AddrField(n)))
  }

  /** Packs the fields back into a word: `opcode<<24 | rj<<21 | mode<<19 | ri<<16 | addr`. */
  function Encode(i: Instruction): Word
    requires i.rj < 8 && i.ri < 8
  {
    OpByte(i.opcode) * 0x100_0000 + i.rj * 0x20_0000 + ModeBits(i.mode) * 0x8_0000
      + i.ri * 0x1_0000 + i.addr
  }

  /** The five fields tile all 32 bits: every decodable word is the encoding of its decoding. */
  lemma {:induction false} EncodeDecode(n: Word)
    requires Decode(n).Ok?
    ensures Encode(Decode(n).value) == n
  {
    var q16, addr := n / 0x1_0000, n % 0x1_0000;
    var q19, ri := q16 / 8, q16 % 8;
    var q21, m := q19 / 4, q19 % 4;
    var op, rj := q21 / 8, q21 % 8;
    DivUnique(n, 0x20_0000, q21, m * 0x8_0000 + ri * 0x1_0000 + addr);
    DivUnique(n, 0x8_0000, q19, ri * 0x1_0000 + addr);
    DivUnique(n, 0x100_0000, op, rj * 0x20_0000 + m * 0x8_0000 + ri * 0x1_0000 + addr);
  }

  /** Every instruction with register fields in range decodes back from its encoding. */
  lemma {:induction false} DecodeEncode(i: Instruction)
    requires i.rj < 8 && i.ri < 8
    ensures Decode(Encode(i)) == Ok(i)
  {
    var n := Encode(i);
    var op: int, rj: int, m: int, ri: int, addr: int := OpByte(i.opcode), i.rj, ModeBits(i.mode), i.ri, i.addr;
    DivUnique(n, 0x100_0000, op, rj * 0x20_0000 + m * 0x8_0000 + ri * 0x1_0000 + addr);
    DivUnique(n, 0x20_0000, op * 8 + rj, m * 0x8_0000 + ri * 0x1_0000 + addr);
    DivUnique(op * 8 + rj, 8, op, rj);
    DivUnique(n, 0x8_0000, (op * 8 + rj) * 4 + m, ri * 0x1_0000 + addr);
    DivUnique((op * 8 + rj) * 4 + m, 4, op * 8 + rj, m);
    DivUnique(n, 0x1_0000, ((op * 8 + rj) * 4 + m) * 8 + ri, addr);
    DivUnique(((op * 8 + rj) * 4 + m) * 8 + ri, 8, (op * 8 + rj) * 4 + m, ri);
    OpByteRoundTrip(i.opcode);
    assert ModeFromBits(m) == Some(i.mode);
  }

  /** Decoding fails on an undefined mode even when the opcode is fine. */
  lemma {:induction false} DecodeRejectsModeThree(i: Instruction)
    requires i.rj < 8 && i.ri < 8
    ensures var n := OpByte(i.opcode) * 0x100_0000 + i.rj * 0x20_0000 + 3 * 0x8_0000 + i.ri * 0x1_0000 + i.addr;
      0 <= n < WORD_MOD && Decode(n) == Err(InvalidAddressingMode)
  {
    var op: int, rj: int, ri: int, addr: int := OpByte(i.opcode), i.rj, i.ri, i.addr;
    var n := op * 0x100_0000 + rj * 0x20_0000 + 3 * 0x8_0000 + ri * 0x1_0000 + addr;
    DivUnique(n, 0x100_0000, op, rj * 0x20_0000 + 3 * 0x8_0000 + ri * 0x1_0000 + addr);
    DivUnique(n, 0x8_0000, (op * 8 + rj) * 4 + 3, ri * 0x1_0000 + addr);
    DivUnique((op * 8 + rj) * 4 + 3, 4, op * 8 + rj, 3);
    OpByteRoundTrip(i.opcode);
  }
}
