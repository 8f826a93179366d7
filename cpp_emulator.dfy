/** The legacy C++ emulator (Emulator/emulator.hpp): the ArithmeticLogicUnit
    with its carry flag, and Emulator::run, which executes the byte vectors
    the C++ assembler produces until JMPL 0 0 0.

    Reading a vector past its end is undefined behaviour in C++ and ends the
    model with UndefinedBehaviour; so do a program counter past the program
    and a register or I/O index of 16 or more. The console is an input: the
    k-th line typed in is inputs(k). Printing is not modelled. */
module CppEmulator {
  import opened Isa
  import CppAssembler

  // ---- the ALU ----

  /** a + b + carryIn computed in 16 bits: the low byte and whether the sum
      exceeds 255. */
  function AluAdd(a: Byte, b: Byte, carryIn: nat): (Byte, bool)
    requires carryIn <= 1
  {
    var result := a + b + carryIn;
    (result % 256, result > 255)
  }

  /** a - b - borrowIn stored in a uint16_t, which wraps modulo 2^16: the
      low byte and whether the 16-bit result exceeds 255. */
  function AluSub(a: Byte, b: Byte, borrowIn: nat): (Byte, bool)
    requires borrowIn <= 1
  {
    var result := (a - b - borrowIn) % 0x1_0000;
    (result % 256, result > 255)
  }

  /** The bitwise AND of two bytes. */
  function And(a: Byte, b: Byte): Byte {
    (a as bv8 & b as bv8) as int
  }

  /** ~(a & b) truncated to eight bits: every bit of the AND flipped. */
  function AluNand(a: Byte, b: Byte): Byte {
    255 - And(a, b)
  }

  /** The carry is the ninth bit of a sum and the borrow of a difference. */
  lemma AluRules(a: Byte, b: Byte, carryIn: nat)
    requires carryIn <= 1
    ensures AluAdd(a, b, carryIn).0 + (if AluAdd(a, b, carryIn).1 then 256 else 0) == a + b + carryIn
    ensures AluSub(a, b, carryIn).0 == (a - b - carryIn) % 256
    ensures AluSub(a, b, carryIn).1 <==> a < b + carryIn
  {
    AddCarries(a, b, carryIn);
    SubtractBorrows(a, b, carryIn);
  }

  lemma AddCarries(a: Byte, b: Byte, carryIn: nat)
    requires carryIn <= 1
    ensures AluAdd(a, b, carryIn).0 + (if AluAdd(a, b, carryIn).1 then 256 else 0) == a + b + carryIn
  {
  }

  lemma SubtractBorrows(a: Byte, b: Byte, carryIn: nat)
    requires carryIn <= 1
    ensures AluSub(a, b, carryIn).0 == (a - b - carryIn) % 256
    ensures AluSub(a, b, carryIn).1 <==> a < b + carryIn
  {
    var d := a - b - carryIn;
    Wrap16(d);
  }

  /** A difference of bytes stored in a uint16_t: negative values wrap to
      the top of the range, and the low byte is unchanged. */
  lemma Wrap16(d: int)
    requires -256 <= d < 256
    ensures d % 0x1_0000 == (if d < 0 then d + 0x1_0000 else d)
    ensures (d % 0x1_0000) % 256 == d % 256
  {
    if d < 0 {
      assert (d + 0x1_0000) % 256 == d % 256;
    }
  }

  /** NAND is the complement of AND on all eight bits, and NAND of a value
      with itself is its complement; stated for every pair of byte values. */
  lemma NandRules(x: bv8, y: bv8)
    ensures AluNand(x as int, y as int) == (!(x & y)) as int
    ensures AluNand(x as int, x as int) == 255 - x as int
  {
    NandIsComplementOfAnd(x, y);
    NandOfItself(x);
  }

  lemma NandIsComplementOfAnd(x: bv8, y: bv8)
    ensures AluNand(x as int, y as int) == (!(x & y)) as int
  {
    AndOfBits(x, y);
    Complement(x & y);
  }

  lemma AndOfBits(x: bv8, y: bv8)
    ensures And(x as int, y as int) == (x & y) as int
  {
    BitsRoundTrip(x);
    BitsRoundTrip(y);
    AndOfEqualBits((x as int) as bv8, (y as int) as bv8, x, y);
  }

  lemma AndOfEqualBits(a: bv8, b: bv8, x: bv8, y: bv8)
    requires a == x && b == y
    ensures a & b == x & y
  {
  }

  lemma NandOfItself(x: bv8)
    ensures AluNand(x as int, x as int) == 255 - x as int
  {
    AndOfBits(x, x);
    SelfAnd(x);
  }

  lemma SelfAnd(v: bv8)
    ensures v & v == v
  {
  }

  lemma BitsRoundTrip(v: bv8)
    ensures (v as int) as bv8 == v
  {
  }

  lemma Complement(v: bv8)
    ensures (!v) as int == 255 - v as int
  {
    assert !v == 255 - v;
  }

  class ArithmeticLogicUnit {
    var carryFlag: bool

    constructor()
      ensures !carryFlag
    {
      carryFlag := false;
    }

    method Add(a: Byte, b: Byte) returns (r: Byte)
      modifies this
      ensures r + (if carryFlag then 256 else 0) == a + b
    {
      var result := a + b;
      carryFlag := result > 255;
      r := result % 256;
    }

    method Addc(a: Byte, b: Byte) returns (r: Byte)
      modifies this
      ensures r + (if carryFlag then 256 else 0) == a + b + (if old(carryFlag) then 1 else 0)
    {
      var result := a + b + (if carryFlag then 1 else 0);
      carryFlag := result > 255;
      r := result % 256;
    }

    method Sub(a: Byte, b: Byte) returns (r: Byte)
      modifies this
      ensures r == (a - b) % 256 && (carryFlag <==> a < b)
    {
      var result := (a - b) % 0x1_0000;
      carryFlag := result > 255;
      r := result % 256;
    }

    /** a - b - carry: the minuend is the first operand. */
    method Swb(a: Byte, b: Byte) returns (r: Byte)
      modifies this
      ensures var borrow := if old(carryFlag) then 1 else 0;
        r == (a - b - borrow) % 256 && (carryFlag <==> a < b + borrow)
    {
      var borrow := if carryFlag then 1 else 0;
      var result := (a - b - borrow) % 0x1_0000;
      carryFlag := result > 255;
      r := result % 256;
    }

    /** NAND leaves the carry alone. */
    method Nand(a: Byte, b: Byte) returns (r: Byte)
      ensures r == 255 - And(a, b)
    {
      Complement(a as bv8 & b as bv8);
      r := (!(a as bv8 & b as bv8)) as int;
    }
  }

  // ---- run as a function of the state ----

  /** The fields of Emulator and the carry of its ALU. */
  datatype CppMachine = CppMachine(carryFlag: bool, programCounter: Byte, registers: seq<Byte>, ioRegisters: seq<Byte>, ram: seq<Byte>)
  {
    /** The sizes run gives the vectors before the loop. */
    predicate Valid() {
      |registers| == 16 && |ioRegisters| == 16 && |ram| == 256
    }
  }

  /** std::vector::resize: truncates, or appends zeros. */
  function Resize(v: seq<Byte>, n: nat): (r: seq<Byte>)
    ensures |r| == n
    ensures forall i :: 0 <= i < n ==> r[i] == (if i < |v| then v[i] else 0)
  {
    if |v| >= n then v[..n] else v + seq(n - |v|, _ => 0)
  }

  /** What one iteration of the loop does. */
  datatype Tick =
    | Next(m: CppMachine)       // the loop goes on
    | Halted(m: CppMachine)     // JMPL 0 0 0 cleared running
    | Invalid(opcode: Byte)     // the default case returns from run
    | Threw(error: CppAssembler.CppError)
    | Undefined

  function Advance(m: CppMachine): CppMachine {
    m.(programCounter := (m.programCounter + 1) % 256)
  }

  /** Byte k of the entry is present and names one of the 16 registers. */
  predicate Register(ins: seq<Byte>, k: nat) {
    k < |ins| && ins[k] < 16
  }

  /** The value ADD (0), ADDC (1), SUB (2), SWB (3) or NAND (4) returns
      for operands x and y, and the carry it leaves. */
  function AluResult(op: nat, x: Byte, y: Byte, carry: bool): (Byte, bool)
    requires op <= 4
  {
    var cin := if carry then 1 else 0;
    if op == 0 then AluAdd(x, y, 0)
    else if op == 1 then AluAdd(x, y, cin)
    else if op == 2 then AluSub(x, y, 0)
    else if op == 3 then AluSub(x, y, cin)
    else (AluNand(x, y), carry)
  }

  /** ADD, ADDC, SUB, SWB, NAND and RSFT on entry ins: the destination is
      ins[3], the sources ins[1] and ins[2]. */
  function ComputeTick(m: CppMachine, ins: seq<Byte>): (t: Tick)
    requires m.Valid() && |ins| > 0 && ins[0] <= 5
    ensures t.Next? || t.Halted? ==> t.m.Valid()
  {
    var op := ins[0];
    if (op != 5 && !(Register(ins, 1) && Register(ins, 2) && Register(ins, 3))) || !(Register(ins, 1) && Register(ins, 3)) then Undefined
    else
      var x := m.registers[ins[1]];
      if op == 5 then Next(Advance(m.(registers := m.registers[ins[3] := x / 2])))
      else
        var (r, carry) := AluResult(op, x, m.registers[ins[2]], m.carryFlag);
        Next(Advance(m.(carryFlag := carry, registers := m.registers[ins[3] := r])))
  }

  /** IMM to OUT on entry ins; input is the next console line, which IN
      converts with std::stoi and stores truncated to a byte. */
  function TransferTick(m: CppMachine, ins: seq<Byte>, input: string): (t: Tick)
    requires m.Valid() && |ins| > 0 && 6 <= ins[0] <= 15
    ensures t.Next? || t.Halted? ==> t.m.Valid()
  {
    var op := ins[0];
    var regs := m.registers;
    if op == 6 then
      if Register(ins, 2) then Next(Advance(m.(registers := regs[ins[2] := ins[1]]))) else Undefined
    else if op == 7 then
      if (Register(ins, 1) && Register(ins, 3)) then Next(Advance(m.(registers := regs[ins[3] := m.ram[regs[ins[1]]]]))) else Undefined
    else if op == 8 then
      if Register(ins, 2) then Next(Advance(m.(registers := regs[ins[2] := m.ram[ins[1]]]))) else Undefined
    else if op == 9 then
      if (Register(ins, 1) && Register(ins, 2)) then Next(Advance(m.(ram := m.ram[regs[ins[1]] := regs[ins[2]]]))) else Undefined
    else if op == 10 then
      if Register(ins, 2) then Next(Advance(m.(ram := m.ram[ins[1] := regs[ins[2]]]))) else Undefined
    else if op == 11 || op == 12 then
      if !Register(ins, 2) then Undefined
      else if (op == 11 && regs[15] == regs[ins[2]]) || (op == 12 && regs[15] > regs[ins[2]]) then
        Next(m.(programCounter := ins[1]))
      else Next(Advance(m))
    else if op == 13 then
      if |ins| < 4 then Undefined
      else if ins[1] == 0 && ins[2] == 0 && ins[3] == 0 then Halted(Advance(m))
      else if ins[3] >= 16 then Undefined
      else Next(m.(registers := regs[ins[3] := (m.programCounter + 1) % 256], programCounter := ins[1]))
    else if op == 14 then
      if !Register(ins, 2) then Undefined
      else match CppAssembler.Stoi(input)
        case Done(v) => Next(Advance(m.(registers := regs[ins[2] := CppAssembler.ToByte(v)])))
        case Threw(e) => Threw(e)
        case Undefined => Undefined
    else
      if (Register(ins, 1) && Register(ins, 2)) then Next(Advance(m.(ioRegisters := m.ioRegisters[ins[1] := regs[ins[2]]]))) else Undefined
  }

  /** One iteration of the loop of run: the entry at the program counter
      (undefined past the program or when empty), dispatched on its first
      byte. */
  function TickOf(m: CppMachine, program: seq<seq<Byte>>, input: string): (t: Tick)
    requires m.Valid()
    ensures t.Next? || t.Halted? ==> t.m.Valid()
  {
    if m.programCounter >= |program| || program[m.programCounter] == [] then Undefined
    else
      var ins := program[m.programCounter];
      if ins[0] <= 5 then ComputeTick(m, ins)
      else if ins[0] <= 15 then TransferTick(m, ins, input)
      else Invalid(ins[0])
  }

  /** The entry at the program counter is IN, which consumes a line. */
  predicate ReadsInput(m: CppMachine, program: seq<seq<Byte>>) {
    m.programCounter < |program| && program[m.programCounter] != [] && program[m.programCounter][0] == 14
  }

  /** How run ends. */
  datatype RunEnd = Finished | InvalidInstruction(opcode: Byte) | Exception(error: CppAssembler.CppError) | UndefinedBehaviour | OutOfFuel

  /** The loop of run for at most fuel iterations, read lines having been
      consumed. */
  function Loop(m: CppMachine, program: seq<seq<Byte>>, inputs: nat -> string, read: nat, fuel: nat): (r: (RunEnd, CppMachine))
    requires m.Valid()
    decreases fuel
  {
    if fuel == 0 then (OutOfFuel, m)
    else
      match TickOf(m, program, inputs(read))
      case Next(t) => Loop(t, program, inputs, if ReadsInput(m, program) then read + 1 else read, fuel - 1)
      case Halted(t) => (Finished, t)
      case Invalid(op) => (InvalidInstruction(op), m)
      case Threw(e) => (Exception(e), m)
      case Undefined => (UndefinedBehaviour, m)
  }

  /** One iteration of Loop, case by case. */
  lemma LoopUnfolds(m: CppMachine, program: seq<seq<Byte>>, inputs: nat -> string, read: nat, fuel: nat)
    requires m.Valid() && fuel > 0
    ensures var tick := TickOf(m, program, inputs(read));
      var r := Loop(m, program, inputs, read, fuel);
      && (tick.Next? ==> tick.m.Valid() && r == Loop(tick.m, program, inputs, if ReadsInput(m, program) then read + 1 else read, fuel - 1))
      && (tick.Halted? ==> r == (Finished, tick.m))
      && (tick.Invalid? ==> r == (InvalidInstruction(tick.opcode), m))
      && (tick.Threw? ==> r == (Exception(tick.error), m))
      && (tick.Undefined? ==> r == (UndefinedBehaviour, m))
  {
  }

  /** The state run starts the loop from: vectors resized, program counter
      0; the carry and the old register contents survive from an earlier
      run. */
  function Started(m: CppMachine): (s: CppMachine)
    ensures s.Valid()
  {
    m.(registers := Resize(m.registers, 16), ioRegisters := Resize(m.ioRegisters, 16), ram := Resize(m.ram, 256), programCounter := 0)
  }

  // ---- what run promises, and where it differs from the other emulators ----

  /** Nothing forces r0 to 0: an ADD into r0 keeps its sum. */
  lemma RegisterZeroIsWritable(m: CppMachine, a: Nibble, b: Nibble)
    requires m.Valid()
    ensures var t := ComputeTick(m, [0, a, b, 0]);
      t.Next? && t.m.registers[0] == (m.registers[a] as int + m.registers[b]) % 256
  {
  }

  /** A taken branch jumps to its immediate and keeps the carry. */
  lemma TakenBranchKeepsCarry(m: CppMachine, imm: Byte, c: Nibble)
    requires m.Valid() && m.registers[15] == m.registers[c]
    ensures TransferTick(m, [11, imm, c], "") == Next(m.(programCounter := imm))
  {
  }

  /** JMPL on a four-byte entry jumps to the byte ins[1] itself, not to a
      register's value, and links the next address into ins[3]; the entry
      0 0 0 (EXIT) ends the run after one more increment. */
  lemma JumpTargetIsTheOperand(m: CppMachine, target: Byte, b: Byte, c: Nibble)
    requires m.Valid()
    ensures target != 0 || b != 0 || c != 0 ==>
      TransferTick(m, [13, target, b, c], "") ==
        Next(m.(registers := m.registers[c := (m.programCounter + 1) % 256], programCounter := target))
    ensures TransferTick(m, [13, 0, 0, 0], "") == Halted(Advance(m))
  {
  }

  /** The C++ assembler writes RSFT, LD and JMPL, whose format is CA, as
      three bytes; the emulator reads a fourth byte for each of them, so an
      assembled RSFT, LD or JMPL is undefined behaviour. IN, also CA, reads
      only three. */
  lemma AssembledCaReadsPastTheEntry(m: CppMachine, a: Nibble, c: Nibble, input: string)
    requires m.Valid()
    ensures ComputeTick(m, CppAssembler.CppLayout(CA, 5, a, 0, c, 0)) == Undefined
    ensures TransferTick(m, CppAssembler.CppLayout(CA, 7, a, 0, c, 0), input) == Undefined
    ensures TransferTick(m, CppAssembler.CppLayout(CA, 13, a, 0, c, 0), input) == Undefined
    ensures TransferTick(m, CppAssembler.CppLayout(CA, 14, a, 0, c, 0), input) != Undefined
  {
  }

  /** IN stores what std::stoi reads from the line, modulo 256, and a line
      without digits throws. */
  lemma InputIsTruncated(m: CppMachine, a: Nibble, c: Nibble, input: string)
    requires m.Valid()
    ensures var t := TransferTick(m, [14, a, c], input);
      match CppAssembler.Stoi(input)
      case Done(v) => t.Next? && t.m.registers[c] == v % 256
      case Threw(e) => t == Threw(e)
      case Undefined => false
  {
  }

  /** An empty program, or a jump past its end, is undefined behaviour. */
  lemma RunningPastTheProgram(m: CppMachine, program: seq<seq<Byte>>, inputs: nat -> string, fuel: nat)
    requires m.Valid() && fuel > 0 && m.programCounter >= |program|
    ensures Loop(m, program, inputs, 0, fuel) == (UndefinedBehaviour, m)
  {
  }

  /** A program the C++ assembler produced never reaches the default case:
      every entry it emits starts with an opcode below 16. */
  lemma {:induction false} AssembledProgramHasNoInvalidOpcode(m: CppMachine, program: seq<seq<Byte>>, inputs: nat -> string, read: nat, fuel: nat)
    requires m.Valid()
    requires forall i :: 0 <= i < |program| ==> CppAssembler.EntryShape(program[i])
    ensures !Loop(m, program, inputs, read, fuel).0.InvalidInstruction?
    decreases fuel
  {
    if fuel > 0 {
      if m.programCounter < |program| {
        assert CppAssembler.EntryShape(program[m.programCounter]);
      }
      match TickOf(m, program, inputs(read)) {
        case Next(t) =>
          AssembledProgramHasNoInvalidOpcode(t, program, inputs, if ReadsInput(m, program) then read + 1 else read, fuel - 1);
        case _ =>
      }
    }
  }

  // ---- the emulator ----

  class Emulator {
    var alu: ArithmeticLogicUnit
    var programCounter: Byte
    var registers: seq<Byte>
    var ioRegisters: seq<Byte>
    var ram: seq<Byte>

    function State(): CppMachine
      reads this, alu
    {
      CppMachine(alu.carryFlag, programCounter, registers, ioRegisters, ram)
    }

    constructor()
      ensures State() == CppMachine(false, 0, [], [], [])
    {
      alu := new ArithmeticLogicUnit();
      programCounter := 0;
      registers := [];
      ioRegisters := [];
      ram := [];
    }

    /** run: resizes the vectors, starts at address 0 and executes entries
        until JMPL 0 0 0, an invalid opcode, an exception or undefined
        behaviour; fuel bounds the iterations. */
    method Run(program: seq<seq<Byte>>, inputs: nat -> string, fuel: nat) returns (end: RunEnd)
      modifies this, alu
      ensures (end, State()) == Loop(Started(old(State())), program, inputs, 0, fuel)
    {
      Prepare();
      end := RunLoop(program, inputs, fuel);
    }

    /** The while (running) loop of run, from the prepared machine. */
    method RunLoop(program: seq<seq<Byte>>, inputs: nat -> string, fuel: nat) returns (end: RunEnd)
      requires State().Valid()
      modifies this, alu
      ensures (end, State()) == Loop(old(State()), program, inputs, 0, fuel)
      ensures alu == old(alu)
    {
      var running := true;
      var read := 0;
      var k := 0;
      ghost var start := State();
      while running && k < fuel
        invariant State().Valid() && k <= fuel && alu == old(alu)
        invariant running ==> Loop(start, program, inputs, 0, fuel) == Loop(State(), program, inputs, read, fuel - k)
        invariant !running ==> Loop(start, program, inputs, 0, fuel) == (Finished, State())
        decreases fuel - k, running
      {
        ghost var m := State();
        var readsInput := ReadsInput(State(), program);
        ghost var rest := Loop(m, program, inputs, read, fuel - k);
        LoopUnfolds(m, program, inputs, read, fuel - k);
        var tick := Iteration(program, inputs(read));
        match tick {
          case Next(t) =>
            if readsInput {
              read := read + 1;
            }
            assert rest == Loop(t, program, inputs, read, fuel - k - 1);
          case Halted(t) =>
            running := false;
            assert rest == (Finished, t);
          case Invalid(op) =>
            assert rest == (InvalidInstruction(op), State());
            return InvalidInstruction(op);
          case Threw(e) =>
            assert rest == (Exception(e), State());
            return Exception(e);
          case Undefined =>
            assert rest == (UndefinedBehaviour, State());
            return UndefinedBehaviour;
        }
        k := k + 1;
      }
      if running {
        return OutOfFuel;
      }
      return Finished;
    }

    /** The start of run: the vectors resized and the program counter
        cleared. */
    method Prepare()
      modifies this
      ensures State() == Started(old(State())) && alu == old(alu)
    {
      registers := Resize(registers, 16);
      ioRegisters := Resize(ioRegisters, 16);
      ram := Resize(ram, 256);
      programCounter := 0;
    }

    /** One iteration of the loop: the entry at the program counter,
        dispatched on its first byte. */
    method Iteration(program: seq<seq<Byte>>, input: string) returns (tick: Tick)
      requires State().Valid()
      modifies this, alu
      ensures tick == TickOf(old(State()), program, input) && alu == old(alu)
      ensures tick.Next? || tick.Halted? ==> State() == tick.m
      ensures !tick.Next? && !tick.Halted? ==> State() == old(State())
    {
      if programCounter >= |program| || program[programCounter] == [] {
        return Undefined;
      }
      var instruction := program[programCounter];
      if instruction[0] <= 5 {
        tick := Compute(instruction);
      } else if instruction[0] <= 15 {
        tick := Transfer(instruction, input);
      } else {
        tick := Invalid(instruction[0]);
      }
    }

    /** The arithmetic cases of the switch, through the ALU. */
    method Compute(instruction: seq<Byte>) returns (tick: Tick)
      requires State().Valid() && |instruction| > 0 && instruction[0] <= 5
      modifies this, alu
      ensures tick == ComputeTick(old(State()), instruction) && alu == old(alu)
      ensures tick.Next? ==> State() == tick.m
      ensures !tick.Next? ==> State() == old(State())
    {
      var op := instruction[0];
      if (op != 5 && !(Register(instruction, 1) && Register(instruction, 2) && Register(instruction, 3))) || !(Register(instruction, 1) && Register(instruction, 3)) {
        return Undefined;
      }
      var x := registers[instruction[1]];
      var r: Byte;
      if op == 5 {
        r := x / 2;
      } else {
        r := Operate(op, x, registers[instruction[2]]);
      }
      registers := registers[instruction[3] := r];
      programCounter := (programCounter + 1) % 256;
      tick := Next(State());
    }

    /** The ALU call of ADD, ADDC, SUB, SWB and NAND. */
    method Operate(op: nat, x: Byte, y: Byte) returns (r: Byte)
      requires op <= 4
      modifies alu
      ensures (r, alu.carryFlag) == AluResult(op, x, y, old(alu.carryFlag))
    {
      var cin := if alu.carryFlag then 1 else 0;
      if op == 0 {
        r := alu.Add(x, y);
        AluRules(x, y, 0);
        assert (r, alu.carryFlag) == AluAdd(x, y, 0);
      } else if op == 1 {
        r := alu.Addc(x, y);
        AluRules(x, y, cin);
        assert (r, alu.carryFlag) == AluAdd(x, y, cin);
      } else if op == 2 {
        r := alu.Sub(x, y);
        AluRules(x, y, 0);
        assert (r, alu.carryFlag) == AluSub(x, y, 0);
      } else if op == 3 {
        r := alu.Swb(x, y);
        AluRules(x, y, cin);
        assert (r, alu.carryFlag) == AluSub(x, y, cin);
      } else {
        r := alu.Nand(x, y);
      }
    }

    /** The other cases of the switch. */
    method Transfer(instruction: seq<Byte>, input: string) returns (tick: Tick)
      requires State().Valid() && |instruction| > 0 && 6 <= instruction[0] <= 15
      modifies this
      ensures tick == TransferTick(old(State()), instruction, input) && alu == old(alu)
      ensures tick.Next? || tick.Halted? ==> State() == tick.m
      ensures !tick.Next? && !tick.Halted? ==> State() == old(State())
    {
      var op := instruction[0];
      var modifiedPc := false;
      if op == 6 {
        if !Register(instruction, 2) { return Undefined; }
        registers := registers[instruction[2] := instruction[1]];
      } else if op == 7 {
        if !(Register(instruction, 1) && Register(instruction, 3)) { return Undefined; }
        registers := registers[instruction[3] := ram[registers[instruction[1]]]];
      } else if op == 8 {
        if !Register(instruction, 2) { return Undefined; }
        registers := registers[instruction[2] := ram[instruction[1]]];
      } else if op == 9 {
        if !(Register(instruction, 1) && Register(instruction, 2)) { return Undefined; }
        ram := ram[registers[instruction[1]] := registers[instruction[2]]];
      } else if op == 10 {
        if !Register(instruction, 2) { return Undefined; }
        ram := ram[instruction[1] := registers[instruction[2]]];
      } else if op == 11 || op == 12 {
        if !Register(instruction, 2) { return Undefined; }
        if (op == 11 && registers[15] == registers[instruction[2]]) || (op == 12 && registers[15] > registers[instruction[2]]) {
          programCounter := instruction[1];
          modifiedPc := true;
        }
      } else if op == 13 {
        if |instruction| < 4 { return Undefined; }
        if instruction[1] == 0 && instruction[2] == 0 && instruction[3] == 0 {
          programCounter := (programCounter + 1) % 256;
          return Halted(State());
        }
        if instruction[3] >= 16 { return Undefined; }
        registers := registers[instruction[3] := (programCounter + 1) % 256];
        programCounter := instruction[1];
        modifiedPc := true;
      } else if op == 14 {
        if !Register(instruction, 2) { return Undefined; }
        var value := CppAssembler.Stoi(input);
        match value {
          case Threw(e) => return Threw(e);
          case Undefined => return Undefined;
          case Done(v) => registers := registers[instruction[2] := CppAssembler.ToByte(v)];
        }
      } else {
        if !(Register(instruction, 1) && Register(instruction, 2)) { return Undefined; }
        ioRegisters := ioRegisters[instruction[1] := registers[instruction[2]]];
      }
      if !modifiedPc {
        programCounter := (programCounter + 1) % 256;
      }
      tick := Next(State());
    }
  }
}
