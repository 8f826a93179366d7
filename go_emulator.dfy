/** The emulator of the desktop program (src/emulator.go): the machine state
    RailsState, executeInstruction, which decodes the word at the program
    counter and applies it, Reset, Eval, EvalUntil, which runs until an
    I/O or EXIT instruction or a stop request, and InstructionToString.

    The state arrays of the Go struct are values; they are sequences here,
    of the lengths the struct declares. The mutex and the goroutine that
    runs EvalUntil are not modelled: IsBusy and ShouldStop are plain fields,
    and a stop request from another goroutine is an input of EvalUntil. */
module GoEmulator {
  import opened Isa
  import Utils

  datatype RailsState = RailsState(
    prom: seq<Word>,
    ram: seq<Byte>,
    regfile: seq<Byte>,
    inRegs: seq<Byte>,
    outRegs: seq<Byte>,
    pc: Byte,
    programLength: Byte,
    carryFlag: bool)
  {
    /** The array lengths of the struct: 256 words of program, 256 bytes of
        ram and 16 of each register file. */
    predicate Valid() {
      |prom| == 256 && |ram| == 256 && |regfile| == 16 && |inRegs| == 16 && |outRegs| == 16
    }
  }

  function Zeros(n: nat): (z: seq<Byte>)
    ensures |z| == n && forall i :: 0 <= i < n ==> z[i] == 0
  {
    seq(n, _ => 0)
  }

  /** A uint16 result: Go's unsigned arithmetic wraps modulo 2^16. */
  function Uint16(x: int): int {
    x % 0x1_0000
  }

  /** ^(x & y) on uint8. */
  function Nand(x: Byte, y: Byte): Byte {
    (!(x as bv8 & y as bv8)) as int
  }

  // ---- executeInstruction ----

  /** What each opcode that does not jump does to the registers, the ram,
      the output registers and the carry flag; opcodes 11 and 12 reach here
      only when the branch is not taken, and do nothing. */
  function Effect(s: RailsState, op: Nibble, a: Nibble, b: Nibble, c: Nibble, imm: Byte): (t: RailsState)
    requires s.Valid()
    ensures t.Valid() && t.prom == s.prom && t.inRegs == s.inRegs && t.pc == s.pc
    ensures t.programLength == s.programLength
  {
    var r := s.regfile;
    var x: int, y: int := r[a], r[b];
    var carryIn: int := Utils.Ternary(s.carryFlag, 1, 0);
    if op == 0 then
      var result := x + y;
      s.(carryFlag := result > 255, regfile := r[c := result % 256])
    else if op == 1 then
      var result := x + y + carryIn;
      s.(carryFlag := result > 255, regfile := r[c := result % 256])
    else if op == 2 then
      var result := Uint16(x - y);
      s.(carryFlag := result > 255, regfile := r[c := result % 256])
    else if op == 3 then
      var result := Uint16(y - x - carryIn);
      s.(carryFlag := result > 255, regfile := r[c := result % 256])
    else if op == 4 then s.(regfile := r[c := Nand(r[a], r[b])])
    else if op == 5 then s.(regfile := r[c := r[a] / 2])
    else if op == 6 then s.(regfile := r[c := imm])
    else if op == 7 then s.(regfile := r[c := s.ram[r[a]]])
    else if op == 8 then s.(regfile := r[c := s.ram[imm]])
    else if op == 9 then s.(ram := s.ram[r[a] := r[b]])
    else if op == 10 then s.(ram := s.ram[imm := r[c]])
    else if op == 14 then s.(regfile := r[c := s.inRegs[a]])
    else if op == 15 then s.(outRegs := s.outRegs[a := r[b]])
    else s
  }

  /** A taken branch: BEQ when r15 equals register c, BGT when r15 is
      greater. */
  predicate BranchTaken(s: RailsState, op: Nibble, c: Nibble)
    requires s.Valid()
  {
    (op == 11 && s.regfile[15] == s.regfile[c]) || (op == 12 && s.regfile[15] > s.regfile[c])
  }

  /** executeInstruction as a function of the state: a taken branch sets the
      program counter to the immediate and clears the carry; JMPL writes the
      return address into c, forces r0 to 0, jumps to the value of register
      a read after those writes, and clears the carry; every other opcode
      has its effect, then forces r0 to 0 and advances the program counter,
      wrapping at 256. */
  function Execute(s: RailsState): (t: RailsState)
    requires s.Valid()
    ensures t.Valid() && t.prom == s.prom && t.inRegs == s.inRegs && t.programLength == s.programLength
  {
    var w := s.prom[s.pc];
    var op, a, b, c, imm := OpcodeOf(w), FieldA(w), FieldB(w), FieldC(w), FieldImm(w);
    if BranchTaken(s, op, c) then s.(pc := imm, carryFlag := false)
    else if op == 13 then
      var r := s.regfile[c := (s.pc + 1) % 256][0 := 0];
      s.(regfile := r, pc := r[a], carryFlag := false)
    else
      var t := Effect(s, op, a, b, c, imm);
      t.(regfile := t.regfile[0 := 0], pc := (s.pc + 1) % 256)
  }

  // ---- what one step promises ----

  /** Register 0 reads 0 after every instruction that does not branch, and
      a branch leaves it as it was: a state with r0 = 0 keeps it. */
  lemma RegisterZeroStaysZero(s: RailsState)
    requires s.Valid()
    ensures var w := s.prom[s.pc];
      !BranchTaken(s, OpcodeOf(w), FieldC(w)) ==> Execute(s).regfile[0] == 0
    ensures s.regfile[0] == 0 ==> Execute(s).regfile[0] == 0
  {
  }

  /** The program counter after one instruction: the immediate after a taken
      branch, the value of register a after JMPL (0 when a is r0), and the
      next address, modulo 256, after anything else. */
  lemma ProgramCounterRule(s: RailsState)
    requires s.Valid()
    ensures var w := s.prom[s.pc];
      var op, a, c := OpcodeOf(w), FieldA(w), FieldC(w);
      && (BranchTaken(s, op, c) ==> Execute(s).pc == FieldImm(w) && !Execute(s).carryFlag)
      && (op == 13 ==> Execute(s).pc == (if a == 0 then 0 else if a == c then (s.pc + 1) % 256 else s.regfile[a]))
      && (!BranchTaken(s, op, c) && op != 13 ==> Execute(s).pc == (s.pc + 1) % 256)
  {
  }

  /** A taken branch changes nothing but the program counter and the
      carry flag. */
  lemma TakenBranchChangesOnlyPc(s: RailsState)
    requires s.Valid()
    requires var w := s.prom[s.pc]; BranchTaken(s, OpcodeOf(w), FieldC(w))
    ensures Execute(s).regfile == s.regfile && Execute(s).ram == s.ram && Execute(s).outRegs == s.outRegs
  {
  }

  /** EXIT, the word 0xD000, is JMPL r0 r0: it jumps to address 0 and
      leaves every register 0. */
  lemma ExitJumpsToStart(s: RailsState)
    requires s.Valid() && s.prom[s.pc] == ExitInstruction
    ensures Execute(s).pc == 0 && Execute(s).regfile == s.regfile[0 := 0]
    ensures !Execute(s).carryFlag && Execute(s).ram == s.ram
  {
    assert OpcodeOf(ExitInstruction) == 13 && FieldA(ExitInstruction) == 0 && FieldC(ExitInstruction) == 0;
  }

  /** The register an instruction writes, when it is not r0, holds the
      result of the operation, with the carry as its ninth bit: ADD and ADDC
      add (with the incoming carry), SUB and SWB subtract, a borrow setting
      the carry. */
  lemma ArithmeticRules(s: RailsState)
    requires s.Valid()
    ensures var w := s.prom[s.pc];
      var op, c := OpcodeOf(w), FieldC(w);
      var x: int, y: int := s.regfile[FieldA(w)], s.regfile[FieldB(w)];
      var cin: int := if s.carryFlag then 1 else 0;
      var t := Execute(s);
      var cout: int := if t.carryFlag then 1 else 0;
      && (op == 0 && c != 0 ==> t.regfile[c] + 256 * cout == x + y)
      && (op == 1 && c != 0 ==> t.regfile[c] + 256 * cout == x + y + cin)
      && (op == 2 && c != 0 ==> t.regfile[c] == (x - y) % 256 && (t.carryFlag <==> x < y))
      && (op == 3 && c != 0 ==> t.regfile[c] == (y - x - cin) % 256 && (t.carryFlag <==> y < x + cin))
  {
    var w := s.prom[s.pc];
    var op, a, b, c, imm := OpcodeOf(w), FieldA(w), FieldB(w), FieldC(w), FieldImm(w);
    if op <= 3 && c != 0 {
      ComputeWritesThrough(s);
      if op <= 1 {
        SumRule(s, op, a, b, c, imm);
      } else {
        DifferenceRule(s, op, a, b, c, imm);
      }
    }
  }

  /** An arithmetic instruction with a destination other than r0 leaves the
      destination and the carry as Effect computes them. */
  lemma ComputeWritesThrough(s: RailsState)
    requires s.Valid()
    requires OpcodeOf(s.prom[s.pc]) <= 3 && FieldC(s.prom[s.pc]) != 0
    ensures var w := s.prom[s.pc];
      var e := Effect(s, OpcodeOf(w), FieldA(w), FieldB(w), FieldC(w), FieldImm(w));
      Execute(s).regfile[FieldC(w)] == e.regfile[FieldC(w)] && Execute(s).carryFlag == e.carryFlag
  {
  }

  lemma SumRule(s: RailsState, op: Nibble, a: Nibble, b: Nibble, c: Nibble, imm: Byte)
    requires s.Valid() && op <= 1
    ensures var t := Effect(s, op, a, b, c, imm);
      var cin: int := if op == 1 && s.carryFlag then 1 else 0;
      var r: int, x: int, y: int := t.regfile[c], s.regfile[a], s.regfile[b];
      r + 256 * (if t.carryFlag then 1 else 0) == x + y + cin
  {
  }

  lemma DifferenceRule(s: RailsState, op: Nibble, a: Nibble, b: Nibble, c: Nibble, imm: Byte)
    requires s.Valid() && 2 <= op <= 3
    ensures var t := Effect(s, op, a, b, c, imm);
      var x: int, y: int := s.regfile[a], s.regfile[b];
      var cin: int := if s.carryFlag then 1 else 0;
      && (op == 2 ==> t.regfile[c] == (x - y) % 256 && (t.carryFlag <==> x < y))
      && (op == 3 ==> t.regfile[c] == (y - x - cin) % 256 && (t.carryFlag <==> y < x + cin))
  {
    var x: int, y: int := s.regfile[a], s.regfile[b];
    var cin: int := if s.carryFlag then 1 else 0;
    WrappedDifference(x - y);
    WrappedDifference(y - x - cin);
  }

  /** A difference of bytes taken as a uint16 exceeds 255 exactly when it
      is negative, and keeps its value modulo 256. */
  lemma WrappedDifference(d: int)
    requires -256 <= d < 256
    ensures Uint16(d) > 255 <==> d < 0
    ensures Uint16(d) % 256 == d % 256
  {
  }

  /** Only ST and STIM write the ram and only OUT writes the output
      registers; the program and the input registers never change. */
  lemma StepFrame(s: RailsState)
    requires s.Valid()
    ensures var op := OpcodeOf(s.prom[s.pc]);
      && (op != 9 && op != 10 ==> Execute(s).ram == s.ram)
      && (op != 15 ==> Execute(s).outRegs == s.outRegs)
      && Execute(s).prom == s.prom && Execute(s).inRegs == s.inRegs
  {
  }

  // ---- Reset and EvalUntil as functions of the state ----

  /** The state Reset leaves: ram, registers, carry and program counter
      cleared; the program and its length kept. */
  function Cleared(s: RailsState): (t: RailsState)
    requires s.Valid()
    ensures t.Valid()
  {
    s.(ram := Zeros(256), regfile := Zeros(16), inRegs := Zeros(16), outRegs := Zeros(16), carryFlag := false, pc := 0)
  }

  /** After Reset the program runs from its first word with every register
      and ram cell 0. */
  lemma ResetRestartsProgram(s: RailsState)
    requires s.Valid()
    ensures Cleared(s).prom == s.prom && Cleared(s).programLength == s.programLength
    ensures Cleared(s).pc == 0 && !Cleared(s).carryFlag
    ensures forall i :: 0 <= i < 16 ==> Cleared(s).regfile[i] == 0 && Cleared(s).inRegs[i] == 0 && Cleared(s).outRegs[i] == 0
    ensures forall i :: 0 <= i < 256 ==> Cleared(s).ram[i] == 0
  {
  }

  datatype StopType = IO | Exit

  /** The word at the program counter is the one EvalUntil stops before: IN
      or OUT for IO, the EXIT word for Exit. */
  predicate AtTarget(s: RailsState, stopType: StopType)
    requires s.Valid()
  {
    var w := s.prom[s.pc];
    match stopType
    case IO => OpcodeOf(w) == 14 || OpcodeOf(w) == 15
    case Exit => w == ExitInstruction
  }

  datatype EvalEnd = StopRequested | ReachedTarget | OutOfFuel

  /** The loop of EvalUntil from iteration k on, for at most fuel more
      iterations: a stop request ends it, then a target word, otherwise the
      instruction runs. requested(k) says whether another goroutine has set
      ShouldStop by the time iteration k reads it. */
  function EvalLoop(s: RailsState, stopType: StopType, requested: nat -> bool, k: nat, fuel: nat): (r: (RailsState, EvalEnd))
    requires s.Valid()
    ensures r.0.Valid()
    decreases fuel
  {
    if fuel == 0 then (s, OutOfFuel)
    else if requested(k) then (s, StopRequested)
    else if AtTarget(s, stopType) then (s, ReachedTarget)
    else EvalLoop(Execute(s), stopType, requested, k + 1, fuel - 1)
  }

  /** The stop requests seen by EvalUntil: the flag as it stood on entry, or
      a request raised before iteration k. */
  function Requests(first: bool, requested: nat -> bool): (stops: nat -> bool)
    ensures forall k: nat :: stops(k) == (first || requested(k))
  {
    (k: nat) => first || requested(k)
  }

  lemma EvalLoopUnfolds(s: RailsState, stopType: StopType, requested: nat -> bool, k: nat, fuel: nat)
    requires s.Valid() && fuel > 0
    ensures EvalLoop(s, stopType, requested, k, fuel)
      == if requested(k) then (s, StopRequested)
         else if AtTarget(s, stopType) then (s, ReachedTarget)
         else EvalLoop(Execute(s), stopType, requested, k + 1, fuel - 1)
  {
  }

  /** n instructions in a row. */
  function Iterate(s: RailsState, n: nat): (t: RailsState)
    requires s.Valid()
    ensures t.Valid()
    decreases n
  {
    if n == 0 then s else Iterate(Execute(s), n - 1)
  }

  /** The n instructions from s all ran on words that are not targets. */
  predicate RanClear(s: RailsState, n: nat, stopType: StopType)
    requires s.Valid()
  {
    forall j :: 0 <= j < n ==> !AtTarget(Iterate(s, j), stopType)
  }

  /** EvalUntil ends after running some number of instructions, none of
      which was a target; when it reports the target, the word at the
      program counter is one, not yet executed. */
  lemma {:induction false} EvalRunsUntilTarget(s: RailsState, stopType: StopType, requested: nat -> bool, k: nat, fuel: nat)
    requires s.Valid()
    ensures EvalLoop(s, stopType, requested, k, fuel).1 == ReachedTarget ==> AtTarget(EvalLoop(s, stopType, requested, k, fuel).0, stopType)
    ensures exists n :: 0 <= n <= fuel && EvalLoop(s, stopType, requested, k, fuel).0 == Iterate(s, n) && RanClear(s, n, stopType)
    decreases fuel
  {
    if fuel == 0 || requested(k) || AtTarget(s, stopType) {
      assert EvalLoop(s, stopType, requested, k, fuel).0 == Iterate(s, 0);
      assert RanClear(s, 0, stopType);
    } else {
      var s1 := Execute(s);
      assert EvalLoop(s, stopType, requested, k, fuel) == EvalLoop(s1, stopType, requested, k + 1, fuel - 1);
      EvalRunsUntilTarget(s1, stopType, requested, k + 1, fuel - 1);
      var t := EvalLoop(s1, stopType, requested, k + 1, fuel - 1).0;
      var n :| 0 <= n <= fuel - 1 && t == Iterate(s1, n) && RanClear(s1, n, stopType);
      assert t == Iterate(s, n + 1);
      forall j | 0 <= j < n + 1 ensures !AtTarget(Iterate(s, j), stopType) {
        if j > 0 {
          assert Iterate(s, j) == Iterate(s1, j - 1);
        }
      }
      assert RanClear(s, n + 1, stopType);
    }
  }

  // ---- InstructionToString ----

  /** The first j groups of four digits, each followed by '-'. */
  function Dashed(d: string, j: nat): (r: string)
    requires 4 * j <= |d|
    ensures |r| == 5 * j
  {
    if j == 0 then [] else Dashed(d, j - 1) + d[4 * (j - 1)..4 * j] + "-"
  }

  /** The digits cut into groups of four from the left, joined by '-'. */
  function Grouped(d: string): string
    decreases |d|
  {
    if |d| <= 4 then d else d[..4] + "-" + Grouped(d[4..])
  }

  /** Inserting '-' after the next group of four extends Dashed by one
      group. */
  lemma DashInserted(d: string, j: nat)
    requires 4 * j + 4 < |d|
    ensures var s := Dashed(d, j) + d[4 * j..];
      s[..5 * j + 4] + "-" + s[5 * j + 4..] == Dashed(d, j + 1) + d[4 * (j + 1)..]
  {
    var s := Dashed(d, j) + d[4 * j..];
    assert s[..5 * j + 4] == Dashed(d, j) + d[4 * j..4 * j + 4];
    assert s[5 * j + 4..] == d[4 * j + 4..];
  }

  lemma {:induction false} DashedThenGrouped(d: string, j: nat)
    requires j == 0 || 4 * j < |d|
    ensures 4 * j <= |d| && Dashed(d, j) + Grouped(d[4 * j..]) == Grouped(d)
  {
    if j > 0 {
      DashedThenGrouped(d, j - 1);
      var rest := d[4 * (j - 1)..];
      assert rest[..4] == d[4 * (j - 1)..4 * j];
      assert rest[4..] == d[4 * j..];
    } else {
      assert d[0..] == d;
    }
  }

  /** The 16 binary digits of a word, zero-padded, as NumberToString writes
      them for InstructionToString. */
  function Binary16(w: Word): string {
    var digits := Utils.FormatUint(w, 2);
    Utils.Repeat("0", Utils.PadCount(|digits|, 16, 1)) + digits
  }

  lemma {:induction false} LeadingZerosKeepValue(k: nat, d: string)
    requires Utils.IsNumeral(d, 2)
    ensures Utils.IsNumeral(Utils.Repeat("0", k) + d, 2)
    ensures Utils.NumeralValue(Utils.Repeat("0", k) + d, 2) == Utils.NumeralValue(d, 2)
    decreases |d|
  {
    var z := Utils.Repeat("0", k);
    assert Utils.IsNumeral(z, 2) by {
      ZerosAreNumeral(k);
    }
    var s := z + d;
    assert Utils.IsNumeral(s, 2) by {
      forall i | 0 <= i < |s| ensures 0 <= Utils.DigitOf(s[i]) < 2 {
        if i < |z| { assert s[i] == z[i]; } else { assert s[i] == d[i - |z|]; }
      }
    }
    if d == [] {
      assert s == z;
      ZerosAreNumeral(k);
    } else {
      var init := d[..|d| - 1];
      assert Utils.IsNumeral(init, 2) by {
        forall i | 0 <= i < |init| ensures 0 <= Utils.DigitOf(init[i]) < 2 {
          assert init[i] == d[i];
        }
      }
      LeadingZerosKeepValue(k, init);
      assert s[..|s| - 1] == z + init;
      assert s[|s| - 1] == d[|d| - 1];
    }
  }

  lemma {:induction false} ZerosAreNumeral(k: nat)
    ensures Utils.IsNumeral(Utils.Repeat("0", k), 2)
    ensures Utils.NumeralValue(Utils.Repeat("0", k), 2) == 0
  {
    if k > 0 {
      ZerosAreNumeral(k - 1);
      var z := Utils.Repeat("0", k - 1);
      RepeatCommutes(k);
      Utils.NumeralSnoc(z, '0', 2);
    }
  }

  lemma {:induction false} RepeatCommutes(k: nat)
    ensures k > 0 ==> Utils.Repeat("0", k) == Utils.Repeat("0", k - 1) + "0"
  {
    if k > 1 {
      RepeatCommutes(k - 1);
      assert Utils.Repeat("0", k) == "0" + (Utils.Repeat("0", k - 2) + "0");
    }
  }

  lemma SixteenBits()
    ensures Utils.Power(2, 16) == 0x1_0000
  {
    assert Utils.Power(2, 4) == 16;
    assert Utils.Power(2, 8) == 256 by {
      assert Utils.Power(2, 6) == 64;
    }
    assert Utils.Power(2, 12) == 4096 by {
      assert Utils.Power(2, 10) == 1024;
    }
    assert Utils.Power(2, 14) == 0x4000;
  }

  /** A word written by InstructionToString is 19 characters: four groups of
      four binary digits separated by '-' at positions 4, 9 and 14; the
      digits read back as the word. */
  lemma InstructionStringShape(w: Word)
    ensures |Binary16(w)| == 16
    ensures Utils.IsNumeral(Binary16(w), 2) && Utils.NumeralValue(Binary16(w), 2) == w
    ensures var g := Grouped(Binary16(w));
      |g| == 19 && g[4] == '-' && g[9] == '-' && g[14] == '-'
  {
    Binary16Digits(w);
    GroupedSixteen(Binary16(w));
  }

  lemma Binary16Digits(w: Word)
    ensures |Binary16(w)| == 16
    ensures Utils.IsNumeral(Binary16(w), 2) && Utils.NumeralValue(Binary16(w), 2) == w
  {
    var digits := Utils.FormatUint(w, 2);
    Utils.FormatUintRoundTrip(w, 2);
    SixteenBits();
    Utils.FormatUintLength(w, 2, 16);
    Utils.PadCountIsLeast(|digits|, 16, 1);
    LeadingZerosKeepValue(Utils.PadCount(|digits|, 16, 1), digits);
  }

  /** Sixteen digits group into four groups of four, with '-' at 4, 9 and
      14. */
  lemma GroupedSixteen(d: string)
    requires |d| == 16
    ensures var g := Grouped(d);
      |g| == 19 && g[4] == '-' && g[9] == '-' && g[14] == '-'
  {
    var d1 := d[4..];
    var d2 := d1[4..];
    assert Grouped(d2[4..]) == d2[4..];
    DashAfterFirstGroup(d2);
    DashAfterFirstGroup(d1);
    DashAfterFirstGroup(d);
  }

  /** The first group of four is followed by '-' and the grouping of the
      rest. */
  lemma DashAfterFirstGroup(d: string)
    requires |d| > 4
    ensures var g, rest := Grouped(d), Grouped(d[4..]);
      |g| == 5 + |rest| && g[4] == '-' && forall k :: 0 <= k < |rest| ==> g[5 + k] == rest[k]
  {
  }

  // ---- the emulator ----

  class RailsEmulator {
    var state: RailsState
    var isBusy: bool
    var shouldStop: bool

    /** The zero value of the Go struct. */
    constructor()
      ensures state.Valid() && !isBusy && !shouldStop
      ensures state == RailsState(seq(256, _ => 0), Zeros(256), Zeros(16), Zeros(16), Zeros(16), 0, 0, false)
    {
      state := RailsState(seq(256, _ => 0), Zeros(256), Zeros(16), Zeros(16), Zeros(16), 0, 0, false);
      isBusy := false;
      shouldStop := false;
    }

    /** executeInstruction: decodes the word at the program counter; a taken
        branch and JMPL set the program counter and return early; every other
        opcode goes through the switch, then r0 is forced to 0 and the
        program counter advances. */
    method ExecuteInstruction()
      requires state.Valid()
      modifies this
      ensures state == Execute(old(state))
      ensures isBusy == old(isBusy) && shouldStop == old(shouldStop)
    {
      var word := state.prom[state.pc];
      var opcode := OpcodeOf(word);
      var a, b, c, imm := FieldA(word), FieldB(word), FieldC(word), FieldImm(word);
      var r := state.regfile;
      if opcode == 11 || opcode == 12 {
        if (opcode == 11 && r[15] == r[c]) || (opcode == 12 && r[15] > r[c]) {
          state := state.(pc := imm, carryFlag := false);
          return;
        }
      } else if opcode == 13 {
        state := state.(regfile := state.regfile[c := (state.pc + 1) % 256]);
        state := state.(regfile := state.regfile[0 := 0]);
        state := state.(pc := state.regfile[a]);
        state := state.(carryFlag := false);
        return;
      } else if opcode <= 5 {
        Compute(opcode, a, b, c);
      } else {
        Transfer(opcode, a, b, c, imm);
      }
      state := state.(regfile := state.regfile[0 := 0]);
      state := state.(pc := (state.pc + 1) % 256);
    }

    /** The arithmetic and logic cases of the switch: ADD, ADDC, SUB, SWB,
        NAND and RSFT. */
    method Compute(opcode: Nibble, a: Nibble, b: Nibble, c: Nibble)
      requires state.Valid() && opcode <= 5
      modifies this
      ensures state == Effect(old(state), opcode, a, b, c, 0)
      ensures isBusy == old(isBusy) && shouldStop == old(shouldStop)
    {
      var x: int, y: int := state.regfile[a], state.regfile[b];
      var carryIn: int := Utils.Ternary(state.carryFlag, 1, 0);
      if opcode == 4 {
        state := state.(regfile := state.regfile[c := Nand(x, y)]);
      } else if opcode == 5 {
        state := state.(regfile := state.regfile[c := x / 2]);
      } else {
        var result: int;
        if opcode == 0 {
          result := x + y;
        } else if opcode == 1 {
          result := x + y + carryIn;
        } else if opcode == 2 {
          result := Uint16(x - y);
        } else {
          result := Uint16(y - x - carryIn);
        }
        state := state.(carryFlag := result > 255);
        state := state.(regfile := state.regfile[c := result % 256]);
      }
    }

    /** The cases of the switch that move data: IMM, LD, LDIM, ST, STIM, IN,
        OUT, and a branch not taken, which does nothing. */
    method Transfer(opcode: Nibble, a: Nibble, b: Nibble, c: Nibble, imm: Byte)
      requires state.Valid() && 6 <= opcode && opcode != 13
      modifies this
      ensures state == Effect(old(state), opcode, a, b, c, imm)
      ensures isBusy == old(isBusy) && shouldStop == old(shouldStop)
    {
      var r := state.regfile;
      if opcode == 6 {
        state := state.(regfile := r[c := imm]);
      } else if opcode == 7 {
        state := state.(regfile := r[c := state.ram[r[a]]]);
      } else if opcode == 8 {
        state := state.(regfile := r[c := state.ram[imm]]);
      } else if opcode == 9 {
        state := state.(ram := state.ram[r[a] := r[b]]);
      } else if opcode == 10 {
        state := state.(ram := state.ram[imm := r[c]]);
      } else if opcode == 14 {
        state := state.(regfile := r[c := state.inRegs[a]]);
      } else if opcode == 15 {
        state := state.(outRegs := state.outRegs[a := r[b]]);
      }
    }

    /** Reset: panics while busy; otherwise clears the machine but keeps the
        program. */
    method Reset() returns (panicked: bool)
      requires state.Valid()
      modifies this
      ensures panicked == old(isBusy)
      ensures panicked ==> state == old(state)
      ensures !panicked ==> state == Cleared(old(state))
      ensures isBusy == old(isBusy) && shouldStop == old(shouldStop)
    {
      if isBusy {
        return true;
      }
      state := state.(ram := Zeros(256));
      state := state.(regfile := Zeros(16));
      state := state.(inRegs := Zeros(16));
      state := state.(outRegs := Zeros(16));
      state := state.(carryFlag := false);
      state := state.(pc := 0);
      return false;
    }

    /** Eval: panics while busy; otherwise runs one instruction. */
    method Eval() returns (panicked: bool)
      requires state.Valid()
      modifies this
      ensures panicked == old(isBusy)
      ensures panicked ==> state == old(state)
      ensures !panicked ==> state == Execute(old(state))
      ensures isBusy == old(isBusy) && shouldStop == old(shouldStop)
    {
      if isBusy {
        return true;
      }
      ExecuteInstruction();
      return false;
    }

    /** EvalUntil: panics while busy; otherwise marks the emulator busy and
        loops: a stop request, or the target word at the program counter,
        clears both flags and ends the loop; any other word runs. fuel
        bounds the iterations, since a program may loop for ever; when it
        runs out the emulator is still busy. */
    method EvalUntil(stopType: StopType, requested: nat -> bool, fuel: nat) returns (panicked: bool, end: EvalEnd)
      requires state.Valid()
      modifies this
      ensures panicked == old(isBusy)
      ensures panicked ==> state == old(state)
      ensures !panicked ==> (state, end) == EvalLoop(old(state), stopType, Requests(old(shouldStop), requested), 0, fuel)
      ensures !panicked ==> (isBusy <==> end == OutOfFuel) && (end != OutOfFuel ==> !shouldStop)
    {
      if isBusy {
        return true, OutOfFuel;
      }
      isBusy := true;
      ghost var initial := state;
      ghost var stops := Requests(shouldStop, requested);
      var k := 0;
      while k < fuel
        invariant state.Valid() && isBusy && k <= fuel
        invariant stops == Requests(shouldStop, requested)
        invariant EvalLoop(initial, stopType, stops, 0, fuel) == EvalLoop(state, stopType, stops, k, fuel - k)
        decreases fuel - k
      {
        ghost var s := state;
        EvalLoopUnfolds(s, stopType, stops, k, fuel - k);
        shouldStop := shouldStop || requested(k);
        if shouldStop {
          ExitLoop();
          return false, StopRequested;
        }
        var opcode := OpcodeOf(state.prom[state.pc]);
        if stopType == IO {
          if opcode == 14 || opcode == 15 {
            ExitLoop();
            return false, ReachedTarget;
          }
        } else if state.prom[state.pc] == ExitInstruction {
          ExitLoop();
          return false, ReachedTarget;
        }
        ExecuteInstruction();
        k := k + 1;
      }
      return false, OutOfFuel;
    }

    /** exitLoop: the closure that clears the stop request and the busy flag. */
    method ExitLoop()
      modifies this
      ensures state == old(state) && !shouldStop && !isBusy
    {
      shouldStop := false;
      isBusy := false;
    }

    /** InstructionToString: the word at address as 16 binary digits, with
        a '-' inserted before every fifth character from the left. */
    method InstructionToString(address: Byte) returns (s: string)
      requires state.Valid()
      ensures s == Grouped(Binary16(state.prom[address]))
    {
      s := Utils.NumberToString(Utils.Unsigned(state.prom[address]), 16, "0", 2);
      ghost var d := s;
      assert d == Binary16(state.prom[address]);
      var i := 4;
      ghost var j := 0;
      while i < |s|
        invariant i == 4 + 5 * j && 4 * j <= |d| && (j == 0 || 4 * j < |d|)
        invariant s == Dashed(d, j) + d[4 * j..]
        decreases |d| - 4 * j
      {
        DashInserted(d, j);
        s := s[..i] + "-" + s[i..];
        i := i + 5;
        j := j + 1;
      }
      DashedThenGrouped(d, j);
    }
  }
}
