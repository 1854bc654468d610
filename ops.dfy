/**
 * The TTK-91 operation table (`Op` in src/vm/ops.rs): every mnemonic with its
 * fixed opcode byte, and the partial inverse the decoder uses to turn a byte
 * back into an operation (`Op::from_u8`).
 */
module Ops {
  import opened Wrappers
  import opened Words

  datatype Op =
    | NOP | STORE | LOAD | IN | OUT
    | ADD | SUB | MUL | DIV | MOD
    | AND | OR | XOR | SHL | SHR | NOT | SHRA
    | COMP
    | JUMP | JNEG | JZER | JPOS | JNNEG | JNZER | JNPOS
    | JLES | JEQU | JGRE | JNLES | JNEQU | JNGRE
    | CALL | EXIT | PUSH | POP | PUSHR | POPR
    | SVC

  /** The opcode byte of each operation (`op as u8`). */
  function OpByte(op: Op): Byte
  {
    match op
    case NOP => 0x00
    case STORE => 0x01
    case LOAD => 0x02
    case IN => 0x03
    case OUT => 0x04
    case ADD => 0x11
    case SUB => 0x12
    case MUL => 0x13
    case DIV => 0x14
    case MOD => 0x15
    case AND => 0x16
    case OR => 0x17
    case XOR => 0x18
    case SHL => 0x19
    case SHR => 0x1a
    case NOT => 0x1b
    case SHRA => 0x1c
    case COMP => 0x1f
    case JUMP => 0x20
    case JNEG => 0x21
    case JZER => 0x22
    case JPOS => 0x23
    case JNNEG => 0x24
    case JNZER => 0x25
    case JNPOS => 0x26
    case JLES => 0x27
    case JEQU => 0x28
    case JGRE => 0x29
    case JNLES => 0x2a
    case JNEQU => 0x2b
    case JNGRE => 0x2c
    case CALL => 0x31
    case EXIT => 0x32
    case PUSH => 0x33
    case POP => 0x34
    case PUSHR => 0x35
    case POPR => 0x36
    case SVC => 0x70
  }

  /** `Op::from_u8`: the operation with this opcode byte, if there is one. */
  function OpFromByte(b: Byte): Option<Op>
  {
    match b
    case 0x00 => Some(NOP)
    case 0x01 => Some(STORE)
    case 0x02 => Some(LOAD)
    case 0x03 => Some(IN)
    case 0x04 => Some(OUT)
    case 0x11 => Some(ADD)
    case 0x12 => Some(SUB)
    case 0x13 => Some(MUL)
    case 0x14 => Some(DIV)
    case 0x15 => Some(MOD)
    case 0x16 => Some(AND)
    case 0x17 => Some(OR)
    case 0x18 => Some(XOR)
    case 0x19 => Some(SHL)
    case 0x1a => Some(SHR)
    case 0x1b => Some(NOT)
    case 0x1c => Some(SHRA)
    case 0x1f => Some(COMP)
    case 0x20 => Some(JUMP)
    case 0x21 => Some(JNEG)
    case 0x22 => Some(JZER)
    case 0x23 => Some(JPOS)
    case 0x24 => Some(JNNEG)
    case 0x25 => Some(JNZER)
    case 0x26 => Some(JNPOS)
    case 0x27 => Some(JLES)
    case 0x28 => Some(JEQU)
    case 0x29 => Some(JGRE)
    case 0x2a => Some(JNLES)
    case 0x2b => Some(JNEQU)
    case 0x2c => Some(JNGRE)
    case 0x31 => Some(CALL)
    case 0x32 => Some(EXIT)
    case 0x33 => Some(PUSH)
    case 0x34 => Some(POP)
    case 0x35 => Some(PUSHR)
    case 0x36 => Some(POPR)
    case 0x70 => Some(SVC)
    case _ => None
  }

  /** The bytes that name no operation. */
  predicate Unassigned(b: Byte)
  {
    (0x05 <= b <= 0x10) || (0x1d <= b <= 0x1e) || (0x2d <= b <= 0x30)
    || (0x37 <= b <= 0x6f) || 0x71 <= b
  }

  /** Converting an operation to its byte and back yields the same operation. */
  lemma OpByteRoundTrip(op: Op)
    ensures OpFromByte(OpByte(op)) == Some(op)
  {
  }

  /** A byte that converts to an operation is that operation's byte. */
  lemma OpFromByteSound(b: Byte)
    ensures OpFromByte(b).Some? ==> OpByte(OpFromByte(b).value) == b
  {
  }

  /** No two mnemonics share an opcode byte. */
  lemma {:induction false} OpByteInjective(p: Op, q: Op)
    ensures OpByte(p) == OpByte(q) ==> p == q
  {
    OpByteRoundTrip(p);
    OpByteRoundTrip(q);
  }

  /** A byte converts to an operation exactly when some operation carries it. */
  lemma {:induction false} OpFromByteDefined(b: Byte)
    ensures OpFromByte(b).Some? <==> exists op: Op :: OpByte(op) == b
  {
    if OpFromByte(b).Some? {
      OpFromByteSound(b);
    }
    if op: Op :| OpByte(op) == b {
      OpByteRoundTrip(op);
    }
  }

  /** The table has gaps, and conversion fails exactly on them. */
  lemma OpFromByteGaps(b: Byte)
    ensures OpFromByte(b).None? <==> Unassigned(b)
  {
  }
}
