/** How the three emulators relate. The Go emulator and the JavaScript one
    execute every instruction the same way while the program counter stays
    below 255 and the word is not EXIT; they part at the end of the ROM,
    where the Go counter wraps and the BigInt one does not, and at EXIT,
    which Go executes as a jump to 0 and JavaScript stops on. The C++
    emulator differs in its operand order for SWB and in the direction of
    the MOV pseudo-instruction its assembler writes. */
module Agreement {
  import opened Isa
  import GoEmulator
  import JsEmulator
  import CppEmulator

  /** A Go state and a JavaScript machine hold the same program, registers,
      memory, program counter and carry. */
  predicate Corresponds(s: GoEmulator.RailsState, m: JsEmulator.Machine) {
    && m.programRom == s.prom
    && m.registerFile == s.regfile
    && m.ram == s.ram
    && m.inRegisters == s.inRegs
    && m.outRegisters == s.outRegs
    && m.programCounter == s.pc
    && m.carryFlag == s.carryFlag
  }

  lemma Complement16(v: bv16)
    ensures ((!v) & 0xFF) as int == 255 - (v & 0xFF) as int
  {
    assert (!v) & 0xFF == 0xFF - (v & 0xFF);
  }

  lemma Complement8(v: bv8)
    ensures (!v) as int == 255 - v as int
  {
    assert !v == 255 - v;
  }

  lemma LowByteOfAnd(x: Byte, y: Byte)
    ensures ((x as bv16 & y as bv16) & 0xFF) as int == (x as bv8 & y as bv8) as int
  {
    WidenByte(x);
    WidenByte(y);
    WidenAnd(x as bv8, y as bv8);
  }

  lemma WidenByte(x: Byte)
    ensures x as bv16 == (x as bv8) as bv16
  {
  }

  lemma WidenAnd(u: bv8, v: bv8)
    ensures ((u as bv16 & v as bv16) & 0xFF) as int == (u & v) as int
  {
    assert u as bv16 & v as bv16 == (u & v) as bv16;
  }

  /** ~(x & y) & 0xFF on BigInts and ^(x & y) on uint8 agree on bytes. */
  lemma NandAgrees(x: Byte, y: Byte)
    ensures JsEmulator.JsNand(x, y) == GoEmulator.Nand(x, y)
  {
    Complement16(x as bv16 & y as bv16);
    Complement8(x as bv8 & y as bv8);
    LowByteOfAnd(x, y);
  }

  /** The arithmetic cases of the two switches agree. */
  lemma ComputeAgrees(s: GoEmulator.RailsState, m: JsEmulator.Machine, op: Nibble, a: Nibble, b: Nibble, c: Nibble, imm: Byte)
    requires s.Valid() && m.Valid() && Corresponds(s, m) && op <= 5
    ensures JsEmulator.Effect(m, op, a, b, c, imm).0 == JsEmulator.Returned(true)
    ensures Corresponds(GoEmulator.Effect(s, op, a, b, c, imm), JsEmulator.Effect(m, op, a, b, c, imm).1)
  {
    var x: int, y: int := s.regfile[a], s.regfile[b];
    var cin: int := if s.carryFlag then 1 else 0;
    if op == 2 {
      GoEmulator.WrappedDifference(x - y);
    } else if op == 3 {
      GoEmulator.WrappedDifference(y - x - cin);
    } else if op == 4 {
      NandAgrees(s.regfile[a], s.regfile[b]);
    }
  }

  /** The data-moving cases of the two switches agree: every register
      holds a byte, so LD and ST stay inside the ram. */
  lemma TransferAgrees(s: GoEmulator.RailsState, m: JsEmulator.Machine, op: Nibble, a: Nibble, b: Nibble, c: Nibble, imm: Byte)
    requires s.Valid() && m.Valid() && Corresponds(s, m) && 6 <= op && op != 13
    ensures JsEmulator.Effect(m, op, a, b, c, imm).0 == JsEmulator.Returned(true)
    ensures Corresponds(GoEmulator.Effect(s, op, a, b, c, imm), JsEmulator.Effect(m, op, a, b, c, imm).1)
  {
  }

  /** Inside the ROM and away from EXIT and breakpoints, a JavaScript step
      does what the Go executeInstruction does, and the two stay in step. */
  lemma GoAndJsAgree(s: GoEmulator.RailsState, m: JsEmulator.Machine, running: bool, breakpoints: seq<int>)
    requires s.Valid() && m.Valid() && Corresponds(s, m)
    requires s.pc < 255 && s.prom[s.pc] != ExitInstruction && !(running && s.pc in breakpoints)
    ensures var (outcome, t, stillRunning) := JsEmulator.StepSpec(m, running, breakpoints);
      outcome == JsEmulator.Returned(true) && stillRunning == running && Corresponds(GoEmulator.Execute(s), t)
  {
    var w := s.prom[s.pc];
    var op, a, b, c, imm := OpcodeOf(w), FieldA(w), FieldB(w), FieldC(w), FieldImm(w);
    if !GoEmulator.BranchTaken(s, op, c) && op != 13 {
      EffectStepAgrees(s, m, running, breakpoints);
    }
  }

  /** The Go and JavaScript steps of an instruction that neither branches
      nor is JMPL: the effects agree, and so do r0 and the counter after. */
  lemma EffectStepAgrees(s: GoEmulator.RailsState, m: JsEmulator.Machine, running: bool, breakpoints: seq<int>)
    requires s.Valid() && m.Valid() && Corresponds(s, m)
    requires s.pc < 255 && s.prom[s.pc] != ExitInstruction && !(running && s.pc in breakpoints)
    requires var w := s.prom[s.pc];
      !GoEmulator.BranchTaken(s, OpcodeOf(w), FieldC(w)) && OpcodeOf(w) != 13
    ensures var (outcome, t, stillRunning) := JsEmulator.StepSpec(m, running, breakpoints);
      outcome == JsEmulator.Returned(true) && stillRunning == running && Corresponds(GoEmulator.Execute(s), t)
  {
    var w := s.prom[s.pc];
    var op, a, b, c, imm := OpcodeOf(w), FieldA(w), FieldB(w), FieldC(w), FieldImm(w);
    if op <= 5 {
      ComputeAgrees(s, m, op, a, b, c, imm);
    } else {
      TransferAgrees(s, m, op, a, b, c, imm);
    }
    var t := GoEmulator.Effect(s, op, a, b, c, imm);
    var u := JsEmulator.Effect(m, op, a, b, c, imm).1;
    assert GoEmulator.Execute(s) == t.(regfile := t.regfile[0 := 0], pc := s.pc + 1);
    assert JsEmulator.StepSpec(m, running, breakpoints)
      == (JsEmulator.Returned(true), u.(registerFile := u.registerFile[0 := 0], programCounter := m.programCounter + 1), running);
  }

  /** At address 255 an instruction that does not jump sends the Go
      counter back to 0 and the JavaScript one to 256, past the ROM. */
  lemma CounterWrapDiffers(s: GoEmulator.RailsState, m: JsEmulator.Machine)
    requires s.Valid() && m.Valid() && Corresponds(s, m) && s.pc == 255
    requires OpcodeOf(s.prom[255]) == 6
    ensures GoEmulator.Execute(s).pc == 0
    ensures JsEmulator.StepSpec(m, false, []).1.programCounter == 256
  {
  }

  /** EXIT is a jump to 0 for the Go emulator, which goes on from the start
      of the program, and a stop for the JavaScript one, which stays on the
      EXIT word. */
  lemma ExitDiffers(s: GoEmulator.RailsState, m: JsEmulator.Machine, running: bool, breakpoints: seq<int>)
    requires s.Valid() && m.Valid() && Corresponds(s, m) && s.prom[s.pc] == ExitInstruction
    ensures GoEmulator.Execute(s).pc == 0
    ensures JsEmulator.StepSpec(m, running, breakpoints) == (JsEmulator.Returned(false), m, running)
  {
    GoEmulator.ExitJumpsToStart(s);
  }

  /** SWB A B C: Go computes B - A - carry into C, the C++ ALU computes
      A - B - carry. With 5 in r1, 3 in r2 and no carry, Go stores 254 and
      sets the carry; C++ stores 2 and clears it. */
  lemma SwbOperandOrderDiffers(s: GoEmulator.RailsState, m: CppEmulator.CppMachine)
    requires s.Valid() && m.Valid()
    requires s.regfile[1] == 5 && s.regfile[2] == 3 && !s.carryFlag && s.prom[s.pc] == Encode(3, 1, 2, 4)
    requires m.registers[1] == 5 && m.registers[2] == 3 && !m.carryFlag
    ensures GoEmulator.Execute(s).regfile[4] == 254 && GoEmulator.Execute(s).carryFlag
    ensures var t := CppEmulator.ComputeTick(m, [3, 1, 2, 4]);
      t.Next? && t.m.registers[4] == 2 && !t.m.carryFlag
  {
    var w := Encode(3, 1, 2, 4);
    assert OpcodeOf(w) == 3 && FieldA(w) == 1 && FieldB(w) == 2 && FieldC(w) == 4;
    GoEmulator.WrappedDifference(3 - 5);
  }

  /** MOV x y: the desktop assembler writes ADD with c = x, a = r0, b = y, which
      the Go emulator runs as a copy of y into x; the C++ assembler writes
      the entry {0, x, 0, y}, which the C++ emulator runs as a copy of x
      into y (as long as r0 holds 0, which nothing there enforces). */
  lemma MovDirectionDiffers(s: GoEmulator.RailsState, m: CppEmulator.CppMachine, x: Nibble, y: Nibble)
    requires s.Valid() && m.Valid() && x != 0 && y != 0
    requires s.prom[s.pc] == Encode(0, 0, y, x) && s.regfile[0] == 0
    requires m.registers[0] == 0
    ensures GoEmulator.Execute(s).regfile[x] == s.regfile[y]
    ensures var t := CppEmulator.ComputeTick(m, [0, x, 0, y]);
      t.Next? && t.m.registers[y] == m.registers[x]
  {
    GoMovCopies(s, x, y);
    CppMovCopies(m, x, y);
  }

  lemma GoMovCopies(s: GoEmulator.RailsState, x: Nibble, y: Nibble)
    requires s.Valid() && x != 0
    requires s.prom[s.pc] == Encode(0, 0, y, x) && s.regfile[0] == 0
    ensures GoEmulator.Execute(s).regfile[x] == s.regfile[y]
  {
    var w := s.prom[s.pc];
    assert OpcodeOf(w) == 0 && FieldA(w) == 0 && FieldB(w) == y && FieldC(w) == x;
    assert !GoEmulator.BranchTaken(s, 0, x);
    var t := GoEmulator.Effect(s, 0, 0, y, x, FieldImm(w));
    assert t.regfile[x] == s.regfile[y];
  }

  lemma CppMovCopies(m: CppEmulator.CppMachine, x: Nibble, y: Nibble)
    requires m.Valid() && m.registers[0] == 0
    ensures var t := CppEmulator.ComputeTick(m, [0, x, 0, y]);
      t.Next? && t.m.registers[y] == m.registers[x]
  {
    var ins: seq<Byte> := [0, x, 0, y];
    assert CppEmulator.Register(ins, 1) && CppEmulator.Register(ins, 2) && CppEmulator.Register(ins, 3);
    assert CppEmulator.AluResult(0, m.registers[x], m.registers[0], m.carryFlag).0 == m.registers[x];
  }
}
