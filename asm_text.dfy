/** How an instruction is normally written: the mnemonic, then its operands
    in the order its format lists them, registers as "r<n>" and immediates in
    decimal, separated by single spaces. Every assembler reads this text back
    to the instruction it names. */
module AsmText {
  import opened Isa
  import opened GoText
  import StringAddons

  /** The text a register is normally written as, "r" and its number. */
  function RegisterName(n: Nibble): string {
    "r" + Decimal(n)
  }

  /** The operand tokens of an instruction in the order its format lists
      them. */
  function OperandTokens(format: Format, a: Nibble, b: Nibble, c: Nibble, imm: Byte): seq<string> {
    match format
    case AB => [RegisterName(a), RegisterName(b)]
    case CA => [RegisterName(c), RegisterName(a)]
    case CAB => [RegisterName(c), RegisterName(a), RegisterName(b)]
    case CImm => [RegisterName(c), Decimal(imm)]
    case ImmC => [Decimal(imm), RegisterName(c)]
  }

  /** The tokens of an instruction line: the mnemonic and its operands. */
  function InstructionTokens(mnemonic: string, a: Nibble, b: Nibble, c: Nibble, imm: Byte): seq<string>
    requires mnemonic in Instructions
  {
    [mnemonic] + OperandTokens(Instructions[mnemonic].format, a, b, c, imm)
  }

  /** "r<n>" is a single field. */
  lemma RegisterNameIsField(n: Nibble)
    ensures RegisterName(n) != [] && NoSpace(RegisterName(n))
  {
    var r := RegisterName(n);
    assert forall i :: 1 <= i < |r| ==> r[i] == Decimal(n)[i - 1];
  }

  /** Every token of an instruction line is a single field, and the line
      splits back into exactly those tokens. */
  lemma FieldsOfInstruction(mnemonic: string, a: Nibble, b: Nibble, c: Nibble, imm: Byte)
    requires mnemonic in Instructions
    ensures var tokens := InstructionTokens(mnemonic, a, b, c, imm);
      && (forall k :: 0 <= k < |tokens| ==> tokens[k] != [] && NoSpace(tokens[k]))
      && Fields(StringAddons.Join(tokens, ' ')) == tokens
  {
    InstructionTokensAreFields(mnemonic, a, b, c, imm);
    FieldsOfJoin(InstructionTokens(mnemonic, a, b, c, imm));
  }

  lemma InstructionTokensAreFields(mnemonic: string, a: Nibble, b: Nibble, c: Nibble, imm: Byte)
    requires mnemonic in Instructions
    ensures var tokens := InstructionTokens(mnemonic, a, b, c, imm);
      forall k :: 0 <= k < |tokens| ==> tokens[k] != [] && NoSpace(tokens[k])
  {
    var operands := OperandTokens(Instructions[mnemonic].format, a, b, c, imm);
    var tokens := [mnemonic] + operands;
    MnemonicIsField(mnemonic);
    OperandTokensAreFields(Instructions[mnemonic].format, a, b, c, imm);
    forall k | 0 <= k < |tokens| ensures tokens[k] != [] && NoSpace(tokens[k]) {
      if k > 0 {
        assert tokens[k] == operands[k - 1];
      }
    }
  }

  lemma OperandTokensAreFields(format: Format, a: Nibble, b: Nibble, c: Nibble, imm: Byte)
    ensures var operands := OperandTokens(format, a, b, c, imm);
      forall k :: 0 <= k < |operands| ==> operands[k] != [] && NoSpace(operands[k])
  {
    RegisterNameIsField(a);
    RegisterNameIsField(b);
    RegisterNameIsField(c);
    DecimalIsField(imm);
  }
}
