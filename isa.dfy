/** The Rails instruction set: the mnemonic table shared by every assembler
    (the two Go tables and the C++ table hold the same sixteen entries) and the
    two 16-bit word layouts

      register form:  [opcode:4][a:4][b:4][c:4]
      immediate form: [opcode:4][imm:8][c:4]

    Words are modelled as integers; a shift-and-or of disjoint fields is the
    weighted sum of those fields, and a mask-and-shift is a division and a
    remainder (MaskShiftIsDivision states this on 16-bit vectors). */
module Isa {
  import opened Wrappers

  type Nibble = x: int | 0 <= x < 16
  type Byte = x: int | 0 <= x < 256
  type Word = x: int | 0 <= x < 0x1_0000

  /** Which operands an instruction names and which layout encodes them. */
  datatype Format =
    | AB    // reads a and b, no destination
    | CA    // writes c from a
    | CAB   // writes c from a and b
    | CImm  // writes c from an immediate ("C immediate" in the C++ table)
    | ImmC  // an immediate and a register c ("immediate C" in the C++ table)

  datatype Instruction = Instruction(opcode: Nibble, format: Format)

  const Instructions: map<string, Instruction> := map[
    "ADD"  := Instruction(0, CAB),
    "ADDC" := Instruction(1, CAB),
    "SUB"  := Instruction(2, CAB),
    "SWB"  := Instruction(3, CAB),
    "NAND" := Instruction(4, CAB),
    "RSFT" := Instruction(5, CA),
    "IMM"  := Instruction(6, CImm),
    "LD"   := Instruction(7, CA),
    "LDIM" := Instruction(8, CImm),
    "ST"   := Instruction(9, AB),
    "STIM" := Instruction(10, ImmC),
    "BEQ"  := Instruction(11, ImmC),
    "BGT"  := Instruction(12, ImmC),
    "JMPL" := Instruction(13, CA),
    "IN"   := Instruction(14, CA),
    "OUT"  := Instruction(15, AB)
  ]

  /** The word `JMPL r0 r0` encodes to, which is what EXIT expands to. */
  const ExitInstruction: Word := 0xD000

  function Lookup(mnemonic: string): Option<Instruction> {
    if mnemonic in Instructions then Some(Instructions[mnemonic]) else None
  }

  // ---- field extraction (mask, then shift) ----

  function OpcodeOf(w: Word): Nibble { w / 0x1000 }        // (w & 0xF000) >> 12
  function FieldA(w: Word): Nibble { (w / 0x100) % 0x10 }   // (w & 0x0F00) >> 8
  function FieldB(w: Word): Nibble { (w / 0x10) % 0x10 }    // (w & 0x00F0) >> 4
  function FieldC(w: Word): Nibble { w % 0x10 }             // w & 0x000F
  function FieldImm(w: Word): Byte { (w / 0x10) % 0x100 }   // (w & 0x0FF0) >> 4

  /** opcode<<12 | a<<8 | b<<4 | c: the result fits 16 bits and every field
      reads back from it. */
  function Encode(opcode: Nibble, a: Nibble, b: Nibble, c: Nibble): (w: Word)
    ensures OpcodeOf(w) == opcode && FieldA(w) == a && FieldB(w) == b && FieldC(w) == c
  {
    EncodeFields(opcode, a, b, c);
    opcode * 0x1000 + a * 0x100 + b * 0x10 + c
  }

  /** opcode<<12 | imm<<4 | c: the result fits 16 bits and every field reads
      back from it. */
  function EncodeImm(opcode: Nibble, imm: Byte, c: Nibble): (w: Word)
    ensures OpcodeOf(w) == opcode && FieldImm(w) == imm && FieldC(w) == c
  {
    EncodeFields(opcode, imm / 0x10, imm % 0x10, c);
    opcode * 0x1000 + imm * 0x10 + c
  }

  /** Appending a nibble r to q is undone by dividing by 16. */
  lemma Nibbles(q: nat, r: Nibble)
    ensures (q * 0x10 + r) / 0x10 == q && (q * 0x10 + r) % 0x10 == r
  {
  }

  /** The fields of a word put together nibble by nibble. */
  lemma EncodeFields(opcode: Nibble, a: Nibble, b: Nibble, c: Nibble)
    ensures var w := opcode * 0x1000 + a * 0x100 + b * 0x10 + c;
      && 0 <= w < 0x1_0000
      && w / 0x1000 == opcode && (w / 0x100) % 0x10 == a && (w / 0x10) % 0x10 == b && w % 0x10 == c
      && (w / 0x10) % 0x100 == a * 0x10 + b
  {
    var hi := opcode * 0x10 + a;
    var mid := hi * 0x10 + b;
    var w := mid * 0x10 + c;
    assert w == opcode * 0x1000 + a * 0x100 + b * 0x10 + c;
    Nibbles(mid, c);
    Nibbles(hi, b);
    Nibbles(opcode, a);
    ShiftTwice(w, mid);
    ShiftTwice(mid, hi);
    assert w / 0x100 == hi;
    assert hi / 0x10 == opcode;
    assert w / 0x1000 == opcode by {
      assert 0x1000 * opcode <= w < 0x1000 * opcode + 0x1000;
    }
    assert mid % 0x100 == a * 0x10 + b by {
      assert mid == opcode * 0x100 + (a * 0x10 + b);
    }
  }

  /** Shifting right by four twice is shifting right by eight. */
  lemma ShiftTwice(w: nat, x: nat)
    requires x == w / 0x10
    ensures x / 0x10 == w / 0x100
  {
    var y := x / 0x10;
    assert 0x10 * x <= w < 0x10 * x + 0x10;
    assert 0x10 * y <= x < 0x10 * y + 0x10;
    assert 0x100 * y <= w < 0x100 * y + 0x100;
  }

  /** Decoding loses nothing: every word is the encoding of its own fields,
      in either layout; the immediate spans the a and b nibbles. */
  lemma DecodeIsInverse(w: Word)
    ensures w == Encode(OpcodeOf(w), FieldA(w), FieldB(w), FieldC(w))
    ensures w == EncodeImm(OpcodeOf(w), FieldImm(w), FieldC(w))
    ensures FieldImm(w) == FieldA(w) * 0x10 + FieldB(w)
  {
    ShiftTwice(w, w / 0x10);
    ShiftTwice(w / 0x10, w / 0x100);
    ShiftTwice(w / 0x100, w / 0x1000);
  }

  /** The masks and shifts of the decoder are the divisions and remainders
      used above, on 16-bit words. */
  lemma MaskShiftIsDivision(w: bv16)
    ensures (w & 0xF000) >> 12 == w / 0x1000
    ensures (w & 0x0F00) >> 8 == (w / 0x100) % 0x10
    ensures (w & 0x00F0) >> 4 == (w / 0x10) % 0x10
    ensures w & 0x000F == w % 0x10
    ensures (w & 0x0FF0) >> 4 == (w / 0x10) % 0x100
  {
  }

  lemma ExitIsJmplR0R0()
    ensures Encode(Instructions["JMPL"].opcode, 0, 0, 0) == ExitInstruction
    ensures OpcodeOf(ExitInstruction) == 13
  {
  }

  /** The mnemonic that carries a given opcode. */
  function MnemonicOf(opcode: Nibble): (m: string)
    ensures m in Instructions && Instructions[m].opcode == opcode
  {
    match opcode
    case 0 => "ADD"   case 1 => "ADDC"  case 2 => "SUB"   case 3 => "SWB"
    case 4 => "NAND"  case 5 => "RSFT"  case 6 => "IMM"   case 7 => "LD"
    case 8 => "LDIM"  case 9 => "ST"    case 10 => "STIM" case 11 => "BEQ"
    case 12 => "BGT"  case 13 => "JMPL" case 14 => "IN"   case 15 => "OUT"
  }

  /** No two mnemonics share an opcode: MnemonicOf inverts the table. */
  lemma OpcodesAreDistinct(m: string)
    requires m in Instructions
    ensures MnemonicOf(Instructions[m].opcode) == m
  {
    MnemonicsAreListed(m);
    if m in ["ADD", "ADDC", "SUB", "SWB", "NAND", "RSFT", "IMM", "LD"] {
      LowOpcodesAreDistinct(m);
    } else {
      HighOpcodesAreDistinct(m);
    }
  }

  lemma MnemonicsAreListed(m: string)
    requires m in Instructions
    ensures m in ["ADD", "ADDC", "SUB", "SWB", "NAND", "RSFT", "IMM", "LD",
                  "LDIM", "ST", "STIM", "BEQ", "BGT", "JMPL", "IN", "OUT"]
  {
  }

  lemma LowOpcodesAreDistinct(m: string)
    requires m in ["ADD", "ADDC", "SUB", "SWB", "NAND", "RSFT", "IMM", "LD"]
    ensures m in Instructions && MnemonicOf(Instructions[m].opcode) == m
  {
  }

  lemma HighOpcodesAreDistinct(m: string)
    requires m in ["LDIM", "ST", "STIM", "BEQ", "BGT", "JMPL", "IN", "OUT"]
    ensures m in Instructions && MnemonicOf(Instructions[m].opcode) == m
  {
  }

  /** Incrementing a uint16 counter wraps like counting on and then
      truncating. */
  lemma IncrementModulo(n: nat)
    ensures (n % 0x1_0000 + 1) % 0x1_0000 == (n + 1) % 0x1_0000
  {
  }

  /** A write at or after next leaves a memory image that agreed with
      initial from start on agreeing with it from next on. */
  lemma FrameStep(before: seq<Word>, after: seq<Word>, initial: seq<Word>, start: nat, next: nat)
    requires start <= next <= |before| == |after| == |initial|
    requires before[start..] == initial[start..]
    requires after[next..] == before[next..]
    ensures after[next..] == initial[next..]
  {
    assert before[next..] == before[start..][next - start..];
    assert initial[next..] == initial[start..][next - start..];
  }
}
