/**
 * Instruction words of the CHIP-8 interpreter: how two memory bytes form a
 * 16-bit word, how a word splits into its four nibbles and its 12-bit
 * address, and which instruction a nibble tuple selects.
 */
module Opcodes {

  /**
   * The big-endian word formed from two consecutive bytes: `hi << 8 | lo`.
   * Its value is `hi * 256 + lo`, computed in 16 bits where it cannot overflow.
   */
  function Join(hi: bv8, lo: bv8): (w: bv16)
    ensures w == (hi as bv16) * 256 + (lo as bv16)
  {
    ((hi as bv16) << 8) | (lo as bv16)
  }

  /** The first byte is the high-order byte of the word, the second the low-order one. */
  lemma JoinBytes(hi: bv8, lo: bv8)
    ensures (Join(hi, lo) >> 8) as bv8 == hi
    ensures (Join(hi, lo) & 0xFF) as bv8 == lo
  {
  }

  /**
   * The fields of a decoded word: the family nibble `c`, the register
   * nibbles `x` and `y`, the low nibble `d`, and the address `nnn`.
   */
  datatype Fields = Fields(c: bv8, x: bv8, y: bv8, d: bv8, nnn: bv16)
  {
    /** Every nibble is below 16 and the address is made of the three low nibbles. */
    predicate WellFormed()
    {
      c < 16 && x < 16 && y < 16 && d < 16 &&
      nnn == ((x as bv16) << 8) | ((y as bv16) << 4) | (d as bv16)
    }
  }

  /** Splits a word by masking and shifting, as the dispatch loop does. */
  function Decode(opcode: bv16): (f: Fields)
    ensures f.WellFormed()
    ensures f.nnn < 0x1000
  {
    Fields(((opcode & 0xF000) >> 12) as bv8,
           ((opcode & 0x0F00) >> 8) as bv8,
           ((opcode & 0x00F0) >> 4) as bv8,
           ((opcode & 0x000F) >> 0) as bv8,
           opcode & 0x0FFF)
  }

  /** Decoding loses nothing: the nibbles, weighted by position, add up to the word. */
  lemma DecodeValue(opcode: bv16)
    ensures var f := Decode(opcode);
      (f.c as bv16) * 4096 + (f.x as bv16) * 256 + (f.y as bv16) * 16 + (f.d as bv16) == opcode
  {
  }

  /** Reassembles a word from its four nibbles. */
  function Encode(f: Fields): (opcode: bv16)
    requires f.WellFormed()
  {
    ((f.c as bv16) << 12) | ((f.x as bv16) << 8) | ((f.y as bv16) << 4) | (f.d as bv16)
  }

  lemma EncodeDecode(opcode: bv16)
    ensures Encode(Decode(opcode)) == opcode
  {
  }

  lemma DecodeEncode(f: Fields)
    requires f.WellFormed()
    ensures Decode(Encode(f)) == f
  {
  }

  /** The instructions the interpreter knows; every other tuple is left unimplemented. */
  datatype Instruction =
    | Halt
    | Return
    | Call(nnn: bv16)
    | AddXY(x: bv8, y: bv8)
    | Unimplemented

  /** The dispatch table, tried top to bottom: the first matching pattern wins. */
  function Dispatch(f: Fields): (i: Instruction)
  {
    if f.c == 0 && f.x == 0 && f.y == 0 && f.d == 0 then Halt
    else if f.c == 0 && f.x == 0 && f.y == 0xE && f.d == 0xE then Return
    else if f.c == 0x2 then Call(f.nnn)
    else if f.c == 0x8 && f.d == 0x4 then AddXY(f.x, f.y)
    else Unimplemented
  }

  /**
   * The operands a pattern hands on: CALL carries the decoded address and ADD
   * the decoded register numbers, all within their nibble ranges.
   */
  lemma DispatchOperands(f: Fields)
    requires f.WellFormed()
    ensures Dispatch(f).Call? ==> Dispatch(f).nnn == f.nnn && Dispatch(f).nnn < 0x1000
    ensures Dispatch(f).AddXY? ==>
      Dispatch(f).x == f.x && Dispatch(f).y == f.y && Dispatch(f).x < 16 && Dispatch(f).y < 16
  {
  }

  /**
   * Which instruction a word selects, read off the word itself: `0x0000`
   * halts, `0x00EE` returns, `0x2nnn` calls `nnn`, `0x8xy4` adds register
   * `y` into register `x`, and nothing else is implemented.
   */
  lemma DispatchWord(w: bv16)
    ensures Dispatch(Decode(w)) == Halt <==> w == 0x0000
    ensures Dispatch(Decode(w)) == Return <==> w == 0x00EE
    ensures Dispatch(Decode(w)).Call? <==> w & 0xF000 == 0x2000
    ensures Dispatch(Decode(w)).Call? ==> Dispatch(Decode(w)).nnn == w & 0x0FFF
    ensures Dispatch(Decode(w)).AddXY? <==> w & 0xF00F == 0x8004
    ensures Dispatch(Decode(w)).AddXY? ==>
      Dispatch(Decode(w)).x as bv16 == (w >> 8) & 0xF && Dispatch(Decode(w)).y as bv16 == (w >> 4) & 0xF
    ensures Dispatch(Decode(w)) == Unimplemented <==>
      w != 0x0000 && w != 0x00EE && w & 0xF000 != 0x2000 && w & 0xF00F != 0x8004
  {
  }
}
