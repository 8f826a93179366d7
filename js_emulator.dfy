/** The emulator of the web front end (internal/public/emulator.js): the
    generic Emulator with its run flags, Start, Stop and one tick of
    mainLoop, and the RailsEmulator subclass with Step and Reset.

    Every value of the JavaScript emulator is a BigInt, so nothing wraps: the
    program counter grows past 255, and JMPL at address 255 stores the
    return address 256. Values are therefore naturals here, and Valid bounds
    them by 256, the largest one JMPL can store. Timers, the UI refresh and
    the promise that Stop returns are not modelled. */
module JsEmulator {
  import opened Isa

  /** The fields of RailsEmulator that Step reads and writes. */
  datatype Machine = Machine(
    programRom: seq<Word>,
    registerFile: seq<nat>,
    ram: seq<nat>,
    inRegisters: seq<nat>,
    outRegisters: seq<nat>,
    programCounter: nat,
    carryFlag: bool)
  {
    /** The array lengths the constructor allocates; every register and ram
        value at most 256; the input registers, written only by the UI,
        hold bytes. */
    predicate Valid() {
      && |programRom| == 256 && |registerFile| == 16 && |ram| == 256
      && |inRegisters| == 16 && |outRegisters| == 16
      && (forall i :: 0 <= i < 16 ==> registerFile[i] <= 256 && inRegisters[i] < 256 && outRegisters[i] <= 256)
      && (forall i :: 0 <= i < 256 ==> ram[i] <= 256)
    }
  }

  /** How Step ends: it returns true or false, or it throws, or (LD or ST
      through a register holding 256) it indexes the ram past its end, which
      this model does not follow. */
  datatype StepOutcome = Returned(running: bool) | TypeError | OutsideRam

  /** ~(x & y) & 0xFF on BigInts. */
  function JsNand(x: nat, y: nat): (r: Byte)
    requires x < 0x1_0000 && y < 0x1_0000
  {
    ((!(x as bv16 & y as bv16)) & 0xFF) as int
  }

  /** A taken BEQ or BGT. */
  predicate BranchTaken(m: Machine, op: Nibble, c: Nibble)
    requires |m.registerFile| == 16
  {
    (op == 11 && m.registerFile[15] == m.registerFile[c]) || (op == 12 && m.registerFile[15] > m.registerFile[c])
  }

  /** The switch of Step on a decoded word, for the opcodes that do not
      jump (a branch not taken does nothing); LD and ST through an address
      past the ram leave the model. */
  function Effect(m: Machine, op: Nibble, a: Nibble, b: Nibble, c: Nibble, imm: Byte): (r: (StepOutcome, Machine))
    requires m.Valid()
  {
    var regs := m.registerFile;
    var x: int, y: int := regs[a], regs[b];
    var carryIn: int := if m.carryFlag then 1 else 0;
    if op == 0 then
      var result := x + y;
      (Returned(true), m.(carryFlag := result > 255, registerFile := regs[c := result % 256]))
    else if op == 1 then
      var result := x + y + carryIn;
      (Returned(true), m.(carryFlag := result > 255, registerFile := regs[c := result % 256]))
    else if op == 2 then
      (Returned(true), m.(registerFile := regs[c := (x - y) % 256], carryFlag := x < y))
    else if op == 3 then
      (Returned(true), m.(registerFile := regs[c := (y - x - carryIn) % 256], carryFlag := y < x + carryIn))
    else if op == 4 then (Returned(true), m.(registerFile := regs[c := JsNand(x, y)]))
    else if op == 5 then (Returned(true), m.(registerFile := regs[c := x / 2]))
    else if op == 6 then (Returned(true), m.(registerFile := regs[c := imm]))
    else if op == 7 then
      if x < 256 then (Returned(true), m.(registerFile := regs[c := m.ram[x]])) else (OutsideRam, m)
    else if op == 8 then (Returned(true), m.(registerFile := regs[c := m.ram[imm]]))
    else if op == 9 then
      if x < 256 then (Returned(true), m.(ram := m.ram[x := y])) else (OutsideRam, m)
    else if op == 10 then (Returned(true), m.(ram := m.ram[imm := regs[c]]))
    else if op == 14 then (Returned(true), m.(registerFile := regs[c := m.inRegisters[a]]))
    else if op == 15 then (Returned(true), m.(outRegisters := m.outRegisters[a := y]))
    else (Returned(true), m)
  }

  /** Step as a function of the machine, the running flag and the
      breakpoints: the EXIT word returns false and changes nothing; a
      breakpoint at the program counter, while running, clears the running
      flag and returns false; a program counter past the ROM reads
      undefined, which the decoding masks reject with a TypeError; taken
      branches and JMPL jump and clear the carry; everything else has its
      effect, forces r0 to 0 and increments the program counter, which does
      not wrap. The result is the outcome, the machine and the running
      flag. */
  function StepSpec(m: Machine, running: bool, breakpoints: seq<int>): (r: (StepOutcome, Machine, bool))
    requires m.Valid()
  {
    var pc := m.programCounter;
    if pc < 256 && m.programRom[pc] == ExitInstruction then (Returned(false), m, running)
    else if running && pc in breakpoints then (Returned(false), m, false)
    else if pc >= 256 then (TypeError, m, running)
    else
      var (outcome, t) := ExecuteSpec(m);
      (outcome, t, running)
  }

  /** The instruction at a program counter inside the ROM, once EXIT and
      the breakpoints are ruled out. */
  function ExecuteSpec(m: Machine): (StepOutcome, Machine)
    requires m.Valid() && m.programCounter < 256
  {
    var pc := m.programCounter;
    var w := m.programRom[pc];
    var op, a, b, c, imm := OpcodeOf(w), FieldA(w), FieldB(w), FieldC(w), FieldImm(w);
    if BranchTaken(m, op, c) then (Returned(true), m.(programCounter := imm, carryFlag := false))
    else if op == 13 then
      var regs := m.registerFile[c := pc + 1][0 := 0];
      (Returned(true), m.(registerFile := regs, programCounter := regs[a], carryFlag := false))
    else Advanced(m, op, a, b, c, imm)
  }

  /** The effect of an instruction that does not jump, then r0 forced to 0
      and the program counter incremented; a RAM access out of range changes
      nothing. */
  function Advanced(m: Machine, op: Nibble, a: Nibble, b: Nibble, c: Nibble, imm: Byte): (StepOutcome, Machine)
    requires m.Valid()
  {
    var (outcome, t) := Effect(m, op, a, b, c, imm);
    if outcome == OutsideRam then (OutsideRam, m)
    else (outcome, t.(registerFile := t.registerFile[0 := 0], programCounter := m.programCounter + 1))
  }

  // ---- what Step promises ----

  /** Step keeps every value at most 256, and leaves the ROM and the input
      registers alone. */
  lemma StepKeepsMachineValid(m: Machine, running: bool, breakpoints: seq<int>)
    requires m.Valid()
    ensures StepSpec(m, running, breakpoints).1.Valid()
    ensures StepSpec(m, running, breakpoints).1.programRom == m.programRom
    ensures StepSpec(m, running, breakpoints).1.inRegisters == m.inRegisters
  {
    var pc := m.programCounter;
    if pc < 256 && m.programRom[pc] != ExitInstruction && !(running && pc in breakpoints) {
      var w := m.programRom[pc];
      EffectKeepsMachineValid(m, OpcodeOf(w), FieldA(w), FieldB(w), FieldC(w), FieldImm(w));
      var t := Effect(m, OpcodeOf(w), FieldA(w), FieldB(w), FieldC(w), FieldImm(w)).1;
      assert t.registerFile[0 := 0][0] == 0;
      if OpcodeOf(w) == 13 {
        var regs := m.registerFile[FieldC(w) := pc + 1][0 := 0];
        assert forall i :: 0 <= i < 16 ==> regs[i] <= 256;
      }
    }
  }

  lemma EffectKeepsMachineValid(m: Machine, op: Nibble, a: Nibble, b: Nibble, c: Nibble, imm: Byte)
    requires m.Valid()
    ensures var t := Effect(m, op, a, b, c, imm).1;
      t.Valid() && t.programRom == m.programRom && t.inRegisters == m.inRegisters
      && t.programCounter == m.programCounter
  {
    var t := Effect(m, op, a, b, c, imm).1;
    if op <= 6 || op == 8 || op == 14 {
      assert t.ram == m.ram && t.outRegisters == m.outRegisters;
      assert forall i :: 0 <= i < 16 ==> t.registerFile[i] <= 256;
    } else if op == 9 || op == 10 {
      assert t.registerFile == m.registerFile;
    }
  }

  /** The EXIT word stops the emulator before anything changes; the program
      counter stays on it. */
  lemma ExitStops(m: Machine, running: bool, breakpoints: seq<int>)
    requires m.Valid() && m.programCounter < 256 && m.programRom[m.programCounter] == ExitInstruction
    ensures StepSpec(m, running, breakpoints) == (Returned(false), m, running)
  {
  }

  /** A breakpoint pauses a running emulator before the instruction runs;
      a single step when not running ignores it. */
  lemma BreakpointPauses(m: Machine, breakpoints: seq<int>)
    requires m.Valid() && m.programCounter in breakpoints
    requires m.programCounter >= 256 || m.programRom[m.programCounter] != ExitInstruction
    ensures StepSpec(m, true, breakpoints) == (Returned(false), m, false)
    ensures m.programCounter < 256 ==> StepSpec(m, false, breakpoints).0 != Returned(false)
  {
    var pc := m.programCounter;
    if pc < 256 {
      var w := m.programRom[pc];
      var (outcome, t) := Effect(m, OpcodeOf(w), FieldA(w), FieldB(w), FieldC(w), FieldImm(w));
      assert outcome == Returned(true) || outcome == OutsideRam;
    }
  }

  /** The program counter does not wrap: an instruction at 255 that does
      not jump moves it to 256, and the step from there throws. */
  lemma ProgramCounterRunsOffTheRom(m: Machine, breakpoints: seq<int>)
    requires m.Valid() && m.programCounter == 255
    requires var w := m.programRom[255];
      w != ExitInstruction && 255 !in breakpoints && OpcodeOf(w) == 6
    ensures var (outcome, t, running) := StepSpec(m, true, breakpoints);
      outcome == Returned(true) && t.programCounter == 256 && running
      && StepSpec(t, true, breakpoints).0 == (if 256 in breakpoints then Returned(false) else TypeError)
  {
    StepKeepsMachineValid(m, true, breakpoints);
  }

  /** JMPL at address 255 stores 256 as the return address, a value no
      byte register could hold. */
  lemma ReturnAddressAtTheEnd(m: Machine, c: Nibble)
    requires m.Valid() && m.programCounter == 255 && c != 0
    requires m.programRom[255] == Encode(13, 0, 0, c)
    ensures StepSpec(m, false, []).1.registerFile[c] == 256
    ensures StepSpec(m, false, []).1.programCounter == 0
  {
    assert Encode(13, 0, 0, c) != ExitInstruction;
  }

  /** Register 0 reads 0 after every completed step that is not a taken
      branch. */
  lemma RegisterZeroAfterStep(m: Machine, running: bool, breakpoints: seq<int>)
    requires m.Valid() && m.programCounter < 256
    requires var w := m.programRom[m.programCounter]; !BranchTaken(m, OpcodeOf(w), FieldC(w))
    requires StepSpec(m, running, breakpoints).0 == Returned(true)
    ensures StepSpec(m, running, breakpoints).1.registerFile[0] == 0
  {
  }

  /** The arithmetic rules: the carry is the ninth bit of ADD and ADDC, and
      SUB and SWB set it exactly when they borrow. */
  lemma ArithmeticRules(m: Machine, running: bool, breakpoints: seq<int>)
    requires m.Valid() && m.programCounter < 256
    requires StepSpec(m, running, breakpoints).0 == Returned(true)
    ensures var w := m.programRom[m.programCounter];
      var op, c := OpcodeOf(w), FieldC(w);
      var x: int, y: int := m.registerFile[FieldA(w)], m.registerFile[FieldB(w)];
      var cin: int := if m.carryFlag then 1 else 0;
      var t := StepSpec(m, running, breakpoints).1;
      var cout := if t.carryFlag then 1 else 0;
      && (op == 0 && c != 0 && x + y < 512 ==> t.registerFile[c] + 256 * cout == x + y)
      && (op == 1 && c != 0 && x + y + cin < 512 ==> t.registerFile[c] + 256 * cout == x + y + cin)
      && (op == 2 && c != 0 ==> t.registerFile[c] == (x - y) % 256 && (t.carryFlag <==> x < y))
      && (op == 3 && c != 0 ==> t.registerFile[c] == (y - x - cin) % 256 && (t.carryFlag <==> y < x + cin))
  {
    var w := m.programRom[m.programCounter];
    var op, a, b, c, imm := OpcodeOf(w), FieldA(w), FieldB(w), FieldC(w), FieldImm(w);
    if op <= 3 && c != 0 {
      StepOfEffect(m, running, breakpoints);
      EffectOfArithmetic(m, op, a, b, c, imm);
    }
  }

  /** A step of an instruction that neither branches nor is JMPL is its
      effect, then r0 forced to 0 and the counter incremented. */
  lemma StepOfEffect(m: Machine, running: bool, breakpoints: seq<int>)
    requires m.Valid() && m.programCounter < 256
    requires m.programRom[m.programCounter] != ExitInstruction
    requires !(running && m.programCounter in breakpoints)
    requires var w := m.programRom[m.programCounter];
      !BranchTaken(m, OpcodeOf(w), FieldC(w)) && OpcodeOf(w) != 13
    ensures var w := m.programRom[m.programCounter];
      var (outcome, u) := Effect(m, OpcodeOf(w), FieldA(w), FieldB(w), FieldC(w), FieldImm(w));
      StepSpec(m, running, breakpoints) ==
        if outcome == OutsideRam then (OutsideRam, m, running)
        else (outcome, u.(registerFile := u.registerFile[0 := 0], programCounter := m.programCounter + 1), running)
  {
  }

  lemma EffectOfArithmetic(m: Machine, op: Nibble, a: Nibble, b: Nibble, c: Nibble, imm: Byte)
    requires m.Valid() && op <= 3
    ensures var x: int, y: int := m.registerFile[a], m.registerFile[b];
      var cin: int := if m.carryFlag then 1 else 0;
      var t := Effect(m, op, a, b, c, imm).1;
      var cout := if t.carryFlag then 1 else 0;
      && (op == 0 && x + y < 512 ==> t.registerFile[c] + 256 * cout == x + y)
      && (op == 1 && x + y + cin < 512 ==> t.registerFile[c] + 256 * cout == x + y + cin)
      && (op == 2 ==> t.registerFile[c] == (x - y) % 256 && (t.carryFlag <==> x < y))
      && (op == 3 ==> t.registerFile[c] == (y - x - cin) % 256 && (t.carryFlag <==> y < x + cin))
  {
    if op == 0 {
      EffectOfAdd(m, a, b, c, imm, 0);
    } else if op == 1 {
      EffectOfAdd(m, a, b, c, imm, 1);
    } else {
      EffectOfSubtract(m, op, a, b, c, imm);
    }
  }

  /** ADD and ADDC: the byte and the carry together hold the sum, as long
      as the sum stays below 512. */
  lemma EffectOfAdd(m: Machine, a: Nibble, b: Nibble, c: Nibble, imm: Byte, op: Nibble)
    requires m.Valid() && op <= 1
    ensures var x: int, y: int := m.registerFile[a], m.registerFile[b];
      var cin: int := if op == 1 && m.carryFlag then 1 else 0;
      var t := Effect(m, op, a, b, c, imm).1;
      var cout := if t.carryFlag then 1 else 0;
      x + y + cin < 512 ==> t.registerFile[c] + 256 * cout == x + y + cin
  {
    var x: int, y: int := m.registerFile[a], m.registerFile[b];
    var cin: int := if op == 1 && m.carryFlag then 1 else 0;
    var t := Effect(m, op, a, b, c, imm).1;
    assert t.registerFile[c] == (x + y + cin) % 256 && (t.carryFlag <==> x + y + cin > 255);
  }

  /** SUB and SWB: the byte is the difference modulo 256 and the carry is
      the borrow. */
  lemma EffectOfSubtract(m: Machine, op: Nibble, a: Nibble, b: Nibble, c: Nibble, imm: Byte)
    requires m.Valid() && 2 <= op <= 3
    ensures var x: int, y: int := m.registerFile[a], m.registerFile[b];
      var cin: int := if m.carryFlag then 1 else 0;
      var t := Effect(m, op, a, b, c, imm).1;
      && (op == 2 ==> t.registerFile[c] == (x - y) % 256 && (t.carryFlag <==> x < y))
      && (op == 3 ==> t.registerFile[c] == (y - x - cin) % 256 && (t.carryFlag <==> y < x + cin))
  {
  }

  /** The arithmetic and logic opcodes do not read the immediate. */
  lemma EffectIgnoresImmediate(m: Machine, op: Nibble, a: Nibble, b: Nibble, c: Nibble, imm: Byte)
    requires m.Valid() && op <= 5
    ensures Effect(m, op, a, b, c, imm) == Effect(m, op, a, b, c, 0)
  {
  }

  // ---- the emulator ----

  class RailsEmulator {
    var machine: Machine
    var isRunning: bool
    var stopRequested: bool
    var initialized: bool
    var breakpoints: seq<int>

    /** Both constructors: every array filled with 0, the flags cleared and
        no breakpoint. */
    constructor()
      ensures machine.Valid() && machine.programCounter == 0 && !machine.carryFlag
      ensures machine.programRom == seq(256, _ => 0) && machine.ram == seq(256, _ => 0)
      ensures machine.registerFile == seq(16, _ => 0) && machine.inRegisters == seq(16, _ => 0)
      ensures machine.outRegisters == seq(16, _ => 0)
      ensures !isRunning && !stopRequested && !initialized && breakpoints == []
    {
      machine := Machine(seq(256, _ => 0), seq(16, _ => 0), seq(256, _ => 0), seq(16, _ => 0), seq(16, _ => 0), 0, false);
      isRunning := false;
      stopRequested := false;
      initialized := false;
      breakpoints := [];
    }

    /** Step: executes the instruction at the program counter. */
    method Step() returns (outcome: StepOutcome)
      requires machine.Valid()
      modifies this
      ensures (outcome, machine, isRunning) == StepSpec(old(machine), old(isRunning), breakpoints)
      ensures stopRequested == old(stopRequested) && initialized == old(initialized)
      ensures breakpoints == old(breakpoints)
    {
      var pc := machine.programCounter;
      if pc < 256 && machine.programRom[pc] == ExitInstruction {
        return Returned(false);
      }
      if isRunning {
        if pc in breakpoints {
          isRunning := false;
          return Returned(false);
        }
      }
      if pc >= 256 {
        return TypeError;
      }
      outcome := Execute();
    }

    /** The part of Step after the EXIT, breakpoint and ROM-bound tests. */
    method Execute() returns (outcome: StepOutcome)
      requires machine.Valid() && machine.programCounter < 256
      modifies this
      ensures (outcome, machine) == ExecuteSpec(old(machine))
      ensures isRunning == old(isRunning) && stopRequested == old(stopRequested)
      ensures initialized == old(initialized) && breakpoints == old(breakpoints)
    {
      var pc := machine.programCounter;
      var instruction := machine.programRom[pc];
      var opcode := OpcodeOf(instruction);
      var a, b, c, imm := FieldA(instruction), FieldB(instruction), FieldC(instruction), FieldImm(instruction);
      var regs := machine.registerFile;
      if opcode == 11 || opcode == 12 {
        if (opcode == 11 && regs[15] == regs[c]) || (opcode == 12 && regs[15] > regs[c]) {
          machine := machine.(programCounter := imm, carryFlag := false);
          return Returned(true);
        }
      } else if opcode == 13 {
        machine := machine.(registerFile := machine.registerFile[c := pc + 1]);
        machine := machine.(registerFile := machine.registerFile[0 := 0]);
        machine := machine.(programCounter := machine.registerFile[a]);
        machine := machine.(carryFlag := false);
        return Returned(true);
      }
      outcome := Advance(opcode, a, b, c, imm);
    }

    /** An instruction that does not jump: its effect, then r0 := 0 and
        pc := pc + 1 unless the RAM access failed. */
    method Advance(opcode: Nibble, a: Nibble, b: Nibble, c: Nibble, imm: Byte) returns (outcome: StepOutcome)
      requires machine.Valid() && opcode != 13
      modifies this
      ensures (outcome, machine) == Advanced(old(machine), opcode, a, b, c, imm)
      ensures isRunning == old(isRunning) && stopRequested == old(stopRequested)
      ensures initialized == old(initialized) && breakpoints == old(breakpoints)
    {
      var pc := machine.programCounter;
      if opcode == 11 || opcode == 12 {
        outcome := Returned(true);
      } else if opcode <= 5 {
        EffectIgnoresImmediate(machine, opcode, a, b, c, imm);
        Compute(opcode, a, b, c);
        outcome := Returned(true);
      } else {
        outcome := Transfer(opcode, a, b, c, imm);
        if outcome == OutsideRam {
          return;
        }
      }
      machine := machine.(registerFile := machine.registerFile[0 := 0]);
      machine := machine.(programCounter := pc + 1);
    }

    /** The arithmetic and logic cases of the switch. */
    method Compute(opcode: Nibble, a: Nibble, b: Nibble, c: Nibble)
      requires machine.Valid() && opcode <= 5
      modifies this
      ensures machine == Effect(old(machine), opcode, a, b, c, 0).1
      ensures isRunning == old(isRunning) && stopRequested == old(stopRequested)
      ensures initialized == old(initialized) && breakpoints == old(breakpoints)
    {
      var x: int, y: int := machine.registerFile[a], machine.registerFile[b];
      if opcode == 0 {
        var result := x + y;
        machine := machine.(carryFlag := result > 255);
        machine := machine.(registerFile := machine.registerFile[c := result % 256]);
      } else if opcode == 1 {
        var carry := if machine.carryFlag then 1 else 0;
        var result := x + y + carry;
        machine := machine.(carryFlag := result > 255);
        machine := machine.(registerFile := machine.registerFile[c := result % 256]);
      } else if opcode == 2 {
        var result := (x - y) % 256;
        machine := machine.(carryFlag := x < y);
        machine := machine.(registerFile := machine.registerFile[c := result]);
      } else if opcode == 3 {
        var borrow := if machine.carryFlag then 1 else 0;
        var result := (y - x - borrow) % 256;
        machine := machine.(carryFlag := y < x + borrow);
        machine := machine.(registerFile := machine.registerFile[c := result]);
      } else if opcode == 4 {
        machine := machine.(registerFile := machine.registerFile[c := JsNand(x, y)]);
      } else {
        machine := machine.(registerFile := machine.registerFile[c := x / 2]);
      }
    }

    /** The cases of the switch that move data, and a branch not taken. */
    method Transfer(opcode: Nibble, a: Nibble, b: Nibble, c: Nibble, imm: Byte) returns (outcome: StepOutcome)
      requires machine.Valid() && 6 <= opcode && opcode != 13
      modifies this
      ensures outcome == Effect(old(machine), opcode, a, b, c, imm).0
      ensures outcome != OutsideRam ==> machine == Effect(old(machine), opcode, a, b, c, imm).1
      ensures outcome == OutsideRam ==> machine == old(machine)
      ensures isRunning == old(isRunning) && stopRequested == old(stopRequested)
      ensures initialized == old(initialized) && breakpoints == old(breakpoints)
    {
      var regs := machine.registerFile;
      outcome := Returned(true);
      if opcode == 6 {
        machine := machine.(registerFile := regs[c := imm]);
      } else if opcode == 7 {
        if regs[a] >= 256 {
          return OutsideRam;
        }
        machine := machine.(registerFile := regs[c := machine.ram[regs[a]]]);
      } else if opcode == 8 {
        machine := machine.(registerFile := regs[c := machine.ram[imm]]);
      } else if opcode == 9 {
        if regs[a] >= 256 {
          return OutsideRam;
        }
        machine := machine.(ram := machine.ram[regs[a] := regs[b]]);
      } else if opcode == 10 {
        machine := machine.(ram := machine.ram[imm := regs[c]]);
      } else if opcode == 14 {
        machine := machine.(registerFile := regs[c := machine.inRegisters[a]]);
      } else if opcode == 15 {
        machine := machine.(outRegisters := machine.outRegisters[a := regs[b]]);
      }
    }

    /** One run of mainLoop: a pending stop request ends the run, then a
        running emulator steps and keeps running only if Step returns true.
        A Step that throws ends the loop for good: alive is false. */
    method MainLoopTick() returns (alive: bool)
      requires machine.Valid()
      modifies this
      ensures old(stopRequested) ==> !isRunning && !stopRequested && machine == old(machine)
      ensures !old(stopRequested) && !old(isRunning) ==> !isRunning && machine == old(machine) && alive
      ensures !old(stopRequested) && old(isRunning) ==>
        var (outcome, t, running) := StepSpec(old(machine), true, breakpoints);
        alive == (outcome != TypeError) &&
        (outcome !in {TypeError, OutsideRam} ==> machine == t && isRunning == (running && outcome.running)) &&
        (outcome in {TypeError, OutsideRam} ==> machine == t && isRunning == running)
      ensures !alive ==> machine == old(machine) && isRunning && !stopRequested
      ensures initialized == old(initialized) && breakpoints == old(breakpoints)
    {
      if stopRequested {
        isRunning := false;
        stopRequested := false;
      }
      alive := true;
      if isRunning {
        var outcome := Step();
        if outcome == TypeError {
          return false;
        }
        if outcome == OutsideRam {
          return true;
        }
        isRunning := outcome.running;
      }
    }

    /** Start: the first call initializes the emulator, which runs one tick
        of the main loop at once; then the emulator runs with no stop
        pending. */
    method Start()
      requires machine.Valid()
      modifies this
      ensures isRunning && !stopRequested && initialized
      ensures old(initialized) || !old(isRunning) ==> machine == old(machine)
      ensures breakpoints == old(breakpoints)
    {
      if !initialized {
        initialized := true;
        // A throwing first tick would escape Start before isRunning is set,
        // but that needs a running emulator that was never initialized,
        // which no method here produces; alive is therefore not consulted.
        var alive := MainLoopTick();
      }
      isRunning := true;
      stopRequested := false;
    }

    /** The part of Stop that changes state: a running emulator gets a stop
        request, which the next tick of the main loop honours. */
    method RequestStop()
      modifies this
      ensures stopRequested == (old(stopRequested) || old(isRunning))
      ensures isRunning == old(isRunning) && machine == old(machine)
      ensures initialized == old(initialized) && breakpoints == old(breakpoints)
    {
      if isRunning {
        stopRequested := true;
      }
    }

    /** Reset: awaits Stop, so a running emulator gets a stop request that
        the next tick of the main loop honours without stepping; then clears
        the registers, the ram, the output registers, the program counter and
        the carry, and keeps the input registers and the program. */
    method Reset()
      requires machine.Valid()
      modifies this
      ensures machine == old(machine).(registerFile := seq(16, _ => 0), ram := seq(256, _ => 0),
        outRegisters := seq(16, _ => 0), programCounter := 0, carryFlag := false)
      ensures machine.Valid() && machine.inRegisters == old(machine.inRegisters)
      ensures old(isRunning) ==> !isRunning && !stopRequested
      ensures !old(isRunning) ==> isRunning == old(isRunning) && stopRequested == old(stopRequested)
      ensures initialized == old(initialized) && breakpoints == old(breakpoints)
    {
      if isRunning {
        RequestStop();
        var alive := MainLoopTick();
      }
      machine := machine.(registerFile := seq(16, _ => 0));
      machine := machine.(ram := seq(256, _ => 0));
      machine := machine.(outRegisters := seq(16, _ => 0));
      machine := machine.(programCounter := 0);
      machine := machine.(carryFlag := false);
    }
  }
}
