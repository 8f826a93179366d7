/** The assembler of the legacy C++ emulator (Emulator/assembler.hpp). It
    emits one byte vector per instruction instead of a packed word. The text
    is cut into lines at '\n' and each line into tokens at ' ' and '\t' with
    string_split, which drops empty pieces. A first token holding ':' is a
    tag: it is recorded with the index of its line among all the non-empty
    lines and removed. Each line whose tokens are not empty and do not start
    with '#' then appends one entry, laid out by the instruction's encoding
    type; registers and immediates are read with std::stoi and truncated to
    a byte.

    Errors are C++ exceptions; indexing a vector or string outside its
    bounds is undefined behaviour, which the model reports as a distinct
    outcome instead of guessing what the program would do. */
module CppAssembler {
  import opened Wrappers
  import opened Isa
  import opened GoText
  import opened AsmText
  import StringAddons

  /** The entries of the instructions vector: mnemonic, opcode and the name
      of the encoding type. */
  datatype CppInstruction = CppInstruction(name: string, opdCode: Byte, encodingType: string)

  const Table: seq<CppInstruction> := [
    CppInstruction("ADD", 0, "CAB"),
    CppInstruction("ADDC", 1, "CAB"),
    CppInstruction("SUB", 2, "CAB"),
    CppInstruction("SWB", 3, "CAB"),
    CppInstruction("NAND", 4, "CAB"),
    CppInstruction("RSFT", 5, "CA"),
    CppInstruction("IMM", 6, "C immediate"),
    CppInstruction("LD", 7, "CA"),
    CppInstruction("LDIM", 8, "C immediate"),
    CppInstruction("ST", 9, "AB"),
    CppInstruction("STIM", 10, "immediate C"),
    CppInstruction("BEQ", 11, "immediate C"),
    CppInstruction("BGT", 12, "immediate C"),
    CppInstruction("JMPL", 13, "CA"),
    CppInstruction("IN", 14, "CA"),
    CppInstruction("OUT", 15, "AB")
  ]

  /** The exceptions the assembler lets escape: the two std::stoi throws and
      its own two std::invalid_argument messages. */
  datatype CppError =
    | StoiInvalid                                // no digits to convert
    | StoiOutOfRange                             // the value does not fit an int
    | RegisterOutOfRange(lineNumber: nat)        // "register index out of range!"
    | SomethingWentWrong(lineNumber: nat)        // "something went wrong here."

  /** The result of a C++ computation: a value, a thrown exception, or
      undefined behaviour. */
  datatype Step<+T> = Done(value: T) | Threw(error: CppError) | Undefined {

    predicate IsFailure() {
      !Done?
    }

    function PropagateFailure<U>(): Step<U>
      requires !Done?
    {
      if Threw? then Threw(error) else Undefined
    }

    function Extract(): T
      requires Done?
    {
      value
    }
  }

  // ---- std::stoi ----

  /** The white space of the C locale, which strtol skips. */
  predicate IsCSpace(c: char) {
    c == ' ' || ('\t' <= c <= '\r')
  }

  /** The number of leading C-locale spaces of s. */
  function LeadingSpaces(s: string): (n: nat)
    ensures n <= |s| && (n < |s| ==> !IsCSpace(s[n]))
    ensures forall i :: 0 <= i < n ==> IsCSpace(s[i])
  {
    if s != [] && IsCSpace(s[0]) then 1 + LeadingSpaces(s[1..]) else 0
  }

  /** The number of leading decimal digits of s. */
  function DigitCount(s: string): (n: nat)
    ensures n <= |s| && (n < |s| ==> !IsDigit(s[n]))
    ensures AllDigits(s[..n])
  {
    if s != [] && IsDigit(s[0]) then
      var n := 1 + DigitCount(s[1..]);
      assert forall i :: 1 <= i < n ==> s[..n][i] == s[1..][..n - 1][i - 1];
      n
    else 0
  }

  /** The sign and the digits strtol reads after the leading white space. */
  function SignedDigits(s: string): (bool, string) {
    var t := s[LeadingSpaces(s)..];
    if t != [] && (t[0] == '+' || t[0] == '-') then (t[0] == '-', t[1..]) else (false, t)
  }

  /** std::stoi(s): skips leading white space, reads an optional sign and the
      longest run of decimal digits, and ignores whatever follows. No digit
      throws std::invalid_argument; a value outside the 32-bit int range
      throws std::out_of_range. */
  function Stoi(s: string): (r: Step<int>)
    ensures !r.Undefined?
    ensures r.Done? ==> -0x8000_0000 <= r.value <= 0x7FFF_FFFF
    ensures r == Threw(StoiInvalid) <==> DigitCount(SignedDigits(s).1) == 0
  {
    var (negative, body) := SignedDigits(s);
    var n := DigitCount(body);
    if n == 0 then Threw(StoiInvalid)
    else
      var magnitude: int := DecimalValue(body[..n]);
      var value: int := if negative then -magnitude else magnitude;
      if value < -0x8000_0000 || value > 0x7FFF_FFFF then Threw(StoiOutOfRange) else Done(value)
  }

  /** Assigning an int to a uint_8 keeps it modulo 256. */
  function ToByte(x: int): Byte {
    x % 256
  }

  lemma {:induction false} DigitCountOfDigits(s: string)
    requires AllDigits(s)
    ensures DigitCount(s) == |s|
  {
    if s != [] {
      DigitCountOfDigits(s[1..]);
    }
  }

  /** stoi reads the decimal text of any int back. */
  lemma StoiOfDecimal(n: nat)
    requires n <= 0x7FFF_FFFF
    ensures Stoi(Decimal(n)) == Done(n)
  {
    var s := Decimal(n);
    DigitCountOfDigits(s);
    assert s[..|s|] == s;
  }

  /** Trailing text after the digits is ignored: "12abc" reads as 12. */
  lemma StoiIgnoresTrailingText(n: nat, rest: string)
    requires n <= 0x7FFF_FFFF
    requires rest == [] || !IsDigit(rest[0])
    ensures Stoi(Decimal(n) + rest) == Done(n)
  {
    var s := Decimal(n);
    DigitCountOfDigits(s);
    assert LeadingSpaces(s + rest) == 0;
    assert SignedDigits(s + rest) == (false, s + rest);
    DigitCountOfPrefix(s, rest);
    assert (s + rest)[..|s|] == s;
  }

  lemma {:induction false} DigitCountOfPrefix(s: string, rest: string)
    requires AllDigits(s)
    requires rest == [] || !IsDigit(rest[0])
    ensures DigitCount(s + rest) == |s|
  {
    if s != [] {
      assert (s + rest)[1..] == s[1..] + rest;
      DigitCountOfPrefix(s[1..], rest);
    } else {
      assert s + rest == rest;
    }
  }

  // ---- parse_reg and parse_imm ----

  /** parse_reg: erases the first character, whatever it is, converts the
      rest with stoi into a uint_8, and throws if that byte is above 15. An
      empty token has no first character to erase. */
  function RegOf(input: string, lineNumber: nat): (r: Step<Byte>)
    ensures r.Done? ==> r.value <= 15
    ensures input == [] <==> r.Undefined?
  {
    if input == [] then Undefined
    else
      match Stoi(input[1..])
      case Done(v) => if ToByte(v) > 15 then Threw(RegisterOutOfRange(lineNumber)) else Done(ToByte(v))
      case Threw(e) => Threw(e)
      case Undefined => Undefined
  }

  /** parse_imm: a token holding ':' is looked up with operator[], which
      inserts the tag with value 0 when it is missing; any other token is
      converted with stoi into a uint_8 (the "above 255" test can never
      fire on a byte). Gives the byte and the tag map after the call. */
  function ImmOf(input: string, tags: map<string, Byte>): (r: (Step<Byte>, map<string, Byte>))
    ensures ':' in input ==> r.0 == Done(if input in tags then tags[input] else 0)
    ensures ':' in input ==> r.1 == tags[input := r.0.value]
    ensures ':' !in input ==> r.1 == tags
  {
    if ':' in input then
      if input in tags then (Done(tags[input]), tags) else (Done(0), tags[input := 0])
    else
      match Stoi(input)
      case Done(v) => (Done(ToByte(v)), tags)
      case Threw(e) => (Threw(e), tags)
      case Undefined => (Undefined, tags)
  }

  /** Any first character is dropped: "r5", "x5" and "$5" all name r5. */
  lemma RegOfStoi(input: string, v: int, lineNumber: nat)
    requires input != [] && Stoi(input[1..]) == Done(v) && 0 <= v <= 15
    ensures RegOf(input, lineNumber) == Done(v)
  {
  }

  lemma RegOfAnyPrefix(x: char, n: Nibble, lineNumber: nat)
    ensures RegOf([x] + Decimal(n), lineNumber) == Done(n)
  {
    var d := Decimal(n);
    var s := [x] + d;
    assert s[1..] == d;
    StoiOfDecimal(n);
    RegOfStoi(s, n, lineNumber);
  }

  /** The register names every assembler writes read back to their number. */
  lemma RegOfName(n: Nibble, lineNumber: nat)
    ensures RegOf(RegisterName(n), lineNumber) == Done(n)
  {
    RegOfAnyPrefix('r', n, lineNumber);
  }

  /** The range test looks at the truncated byte: r16 is refused, but r256
      wraps to r0 and r257 to r1, and a bare digit loses itself. */
  lemma RegisterRangeIsCheckedAfterTruncation(lineNumber: nat)
    ensures RegOf("r16", lineNumber) == Threw(RegisterOutOfRange(lineNumber))
    ensures RegOf("r256", lineNumber) == Done(0)
    ensures RegOf("r257", lineNumber) == Done(1)
    ensures RegOf("5", lineNumber) == Threw(StoiInvalid)
  {
    RegisterSixteenIsRefused(lineNumber);
    RegisterWraps(lineNumber);
    assert "5"[1..] == [];
  }

  lemma RegisterSixteenIsRefused(lineNumber: nat)
    ensures RegOf("r16", lineNumber) == Threw(RegisterOutOfRange(lineNumber))
  {
    StoiOfDecimal(16);
    assert "r16"[1..] == Decimal(16);
  }

  lemma RegisterWraps(lineNumber: nat)
    ensures RegOf("r256", lineNumber) == Done(0)
    ensures RegOf("r257", lineNumber) == Done(1)
  {
    StoiOfDecimal(256);
    assert "r256"[1..] == Decimal(256);
    StoiOfDecimal(257);
    assert "r257"[1..] == Decimal(257);
  }

  /** An immediate is any int taken modulo 256: 256 reads as 0 and -1 as
      255. */
  lemma ImmediateIsTruncated(tags: map<string, Byte>)
    ensures ImmOf("256", tags) == (Done(0), tags)
    ensures ImmOf("-1", tags) == (Done(255), tags)
  {
    ImmediateWraps(tags);
    NegativeImmediateWraps(tags);
  }

  lemma ImmediateWraps(tags: map<string, Byte>)
    ensures ImmOf("256", tags) == (Done(0), tags)
  {
    StoiOfDecimal(256);
    assert "256" == Decimal(256);
  }

  lemma NegativeImmediateWraps(tags: map<string, Byte>)
    ensures ImmOf("-1", tags) == (Done(255), tags)
  {
    assert SignedDigits("-1") == (true, "1");
    assert DigitCount("1") == 1;
    assert "1"[..1] == "1";
  }

  /** A tag nobody defined reads as 0, and is then in the map with 0. */
  lemma UnknownTagReadsZero(tag: string, tags: map<string, Byte>)
    requires ':' in tag && tag !in tags
    ensures ImmOf(tag, tags) == (Done(0), tags[tag := 0])
  {
  }

  // ---- one line of the second pass ----

  /** parse_reg on the token at index k, or undefined behaviour when the
      line has no such token. */
  function RegAt(line: seq<string>, k: nat, lineNumber: nat): Step<Byte> {
    if k < |line| then RegOf(line[k], lineNumber) else Undefined
  }

  /** parse_imm on the token at index k, with the tag map after the call. */
  function ImmAt(line: seq<string>, k: nat, tags: map<string, Byte>): (Step<Byte>, map<string, Byte>) {
    if k < |line| then ImmOf(line[k], tags) else (Undefined, tags)
  }

  /** Where the loop body of the second pass ends for one line: the value
      program.back() holds and the tag map, and the exception thrown, if
      any; or undefined behaviour. */
  datatype Body =
    | Finished(back: seq<Byte>, tags: map<string, Byte>)
    | Raised(back: seq<Byte>, tags: map<string, Byte>, error: CppError)
    | Broken

  /** An assignment program.back() = {...} whose operands are computed by s:
      the exception or undefined behaviour of s leaves back as it was. */
  function Assign(s: Step<seq<Byte>>, back: seq<Byte>, tags: map<string, Byte>): Body {
    match s
    case Done(v) => Finished(v, tags)
    case Threw(e) => Raised(back, tags, e)
    case Undefined => Broken
  }

  /** The pseudo-instruction branches, run on the new, empty entry. The
      braced lists evaluate their operands from left to right. */
  function PseudoEntry(line: seq<string>, lineNumber: nat, tags: map<string, Byte>): (r: Body)
    requires line != []
    ensures r.Finished? ==> r.back == [] || EntryShape(r.back)
    ensures r.Raised? ==> r.back == []
  {
    if line[0] == "NOP" then Finished([0, 0, 0, 0], tags)
    else if line[0] == "MOV" then
      Assign(var x :- RegAt(line, 1, lineNumber); var y :- RegAt(line, 2, lineNumber); Done([0, x, 0, y]), [], tags)
    else if line[0] == "JMP" then
      var (imm, tags1) := ImmAt(line, 1, tags);
      Assign(var t :- imm; Done([11, t, 15]), [], tags1)
    else if line[0] == "EXIT" then Finished([13, 0, 0, 0], tags)
    else Finished([], tags)
  }

  /** What an entry holds once an instruction has been written into it:
      three or four bytes, the first an opcode. */
  predicate EntryShape(back: seq<Byte>) {
    3 <= |back| <= 4 && back[0] <= 15
  }

  /** Every entry of the table names an encoding type one of the branches
      knows and an opcode of four bits. */
  predicate WellTyped(table: seq<CppInstruction>) {
    forall i :: 0 <= i < |table| ==> FormatOfType(table[i].encodingType).Some? && table[i].opdCode <= 15
  }

  /** The entry an instruction of the table gives for the line, chosen by its
      encoding type; an encoding type none of the branches names leaves the
      entry as it was. */
  function Layout(inst: CppInstruction, line: seq<string>, lineNumber: nat, back: seq<Byte>, tags: map<string, Byte>): (r: Body)
    ensures r.Finished? && FormatOfType(inst.encodingType).Some? ==> 3 <= |r.back| <= 4 && r.back[0] == inst.opdCode
    ensures r.Finished? && FormatOfType(inst.encodingType).None? ==> r.back == back
    ensures r.Raised? ==> r.back == back
  {
    match FormatOfType(inst.encodingType)
    case None => Finished(back, tags)
    case Some(format) =>
      var (bytes, tags1) := LayoutBytes(format, inst.opdCode, line, lineNumber, tags);
      Assign(bytes, back, tags1)
  }

  /** The braced list of one encoding type: the opcode, then the operands in
      the order of the layout, each read from its token. */
  function LayoutBytes(format: Format, op: Byte, line: seq<string>, lineNumber: nat, tags: map<string, Byte>): (r: (Step<seq<Byte>>, map<string, Byte>))
    ensures r.0.Done? ==> 3 <= |r.0.value| <= 4 && r.0.value[0] == op
  {
    match format
    case CAB =>
      (var a :- RegAt(line, 2, lineNumber);
       var b :- RegAt(line, 3, lineNumber);
       var c :- RegAt(line, 1, lineNumber);
       Done([op, a, b, c]), tags)
    case CA =>
      (var a :- RegAt(line, 2, lineNumber);
       var c :- RegAt(line, 1, lineNumber);
       Done([op, a, c]), tags)
    case AB =>
      (var a :- RegAt(line, 1, lineNumber);
       var b :- RegAt(line, 2, lineNumber);
       Done([op, a, b]), tags)
    case CImm =>
      var (imm, tags1) := ImmAt(line, 2, tags);
      (var i :- imm;
       var c :- RegAt(line, 1, lineNumber);
       Done([op, i, c]), tags1)
    case ImmC =>
      var (imm, tags1) := ImmAt(line, 1, tags);
      (var i :- imm;
       var c :- RegAt(line, 2, lineNumber);
       Done([op, i, c]), tags1)
  }

  /** The loop over the instruction table: every entry whose name is the
      first token rewrites the entry, until one throws. */
  function TableFold(line: seq<string>, lineNumber: nat, b: Body, table: seq<CppInstruction>): (r: Body)
    requires line != [] && b.Finished?
    ensures r.Finished? && r.back != b.back ==> exists i :: 0 <= i < |table| && table[i].name == line[0]
    ensures r.Finished? && (b.back == [] || EntryShape(b.back)) && WellTyped(table) ==> r.back == [] || EntryShape(r.back)
    ensures r.Raised? && (b.back == [] || EntryShape(b.back)) && WellTyped(table) ==> r.back == [] || EntryShape(r.back)
    decreases |table|
  {
    if table == [] then b
    else
      var next := if line[0] == table[0].name then Layout(table[0], line, lineNumber, b.back, b.tags) else b;
      if next.Finished? then
        assert WellTyped(table) ==> WellTyped(table[1..]) by {
          if WellTyped(table) {
            forall i | 0 <= i < |table[1..]|
              ensures FormatOfType(table[1..][i].encodingType).Some? && table[1..][i].opdCode <= 15
            {
              assert table[1..][i] == table[i + 1];
            }
          }
        }
        var r := TableFold(line, lineNumber, next, table[1..]);
        assert r.Finished? && r.back != b.back && next.back == b.back ==> exists i :: 0 <= i < |table| && table[i].name == line[0] by {
          if r.Finished? && r.back != b.back && next.back == b.back {
            var i :| 0 <= i < |table[1..]| && table[1..][i].name == line[0];
            assert table[i + 1].name == line[0];
          }
        }
        assert next.back != b.back ==> table[0].name == line[0];
        r
      else next
  }

  lemma TableFoldUnfolds(line: seq<string>, lineNumber: nat, b: Body, table: seq<CppInstruction>, i: nat)
    requires line != [] && b.Finished? && i < |table|
    ensures var next := if line[0] == table[i].name then Layout(table[i], line, lineNumber, b.back, b.tags) else b;
      TableFold(line, lineNumber, b, table[i..]) == if next.Finished? then TableFold(line, lineNumber, next, table[i + 1..]) else next
  {
    assert table[i..][1..] == table[i + 1..];
  }

  /** The whole loop body for a line that is neither empty nor a comment:
      the pseudo-instructions, the table, and the final test for an entry
      still empty. */
  function EntryOf(line: seq<string>, lineNumber: nat, tags: map<string, Byte>): (r: Body)
    requires line != []
    ensures r.Finished? ==> EntryShape(r.back)
    ensures r.Raised? ==> r.back == [] || EntryShape(r.back)
  {
    TableIsWellTyped();
    var p := PseudoEntry(line, lineNumber, tags);
    if !p.Finished? then p
    else
      var r := TableFold(line, lineNumber, p, Table);
      if r.Finished? && r.back == [] then Raised([], r.tags, SomethingWentWrong(lineNumber)) else r
  }

  // ---- the table against the instruction set ----

  /** The format an encoding-type name stands for. */
  function FormatOfType(encodingType: string): Option<Format> {
    if encodingType == "CAB" then Some(CAB)
    else if encodingType == "CA" then Some(CA)
    else if encodingType == "AB" then Some(AB)
    else if encodingType == "C immediate" then Some(CImm)
    else if encodingType == "immediate C" then Some(ImmC)
    else None
  }

  /** Entry i of the C++ table is the instruction with opcode i, with the
      same mnemonic and format as the instruction set: the three assemblers
      share one table. */
  lemma TableIsInstructionSet()
    ensures |Table| == 16
    ensures forall i :: 0 <= i < 16 ==>
      && Table[i].name == MnemonicOf(i)
      && Table[i].opdCode == i
      && FormatOfType(Table[i].encodingType) == Some(Instructions[MnemonicOf(i)].format)
  {
    forall i | 0 <= i < 16
      ensures Table[i].name == MnemonicOf(i) && Table[i].opdCode == i
      ensures FormatOfType(Table[i].encodingType) == Some(Instructions[MnemonicOf(i)].format)
    {
      TableEntry(i);
    }
  }

  lemma TableIsWellTyped()
    ensures WellTyped(Table)
  {
    TableIsInstructionSet();
  }

  lemma TableEntry(i: Nibble)
    ensures Table[i].name == MnemonicOf(i) && Table[i].opdCode == i
    ensures FormatOfType(Table[i].encodingType) == Some(Instructions[MnemonicOf(i)].format)
  {
    match i
    case 0 => case 1 => case 2 => case 3 => case 4 => case 5 => case 6 => case 7 =>
    case 8 => case 9 => case 10 => case 11 => case 12 => case 13 => case 14 => case 15 =>
  }

  /** A mnemonic is the name of exactly one table entry, the one at its
      opcode; any other first token names none. */
  lemma TableNames(m: string, i: nat)
    requires i < |Table|
    ensures Table[i].name == m <==> m in Instructions && Instructions[m].opcode == i
  {
    TableIsInstructionSet();
    if Table[i].name == m {
      assert m == MnemonicOf(i);
    }
    if m in Instructions && Instructions[m].opcode == i {
      OpcodesAreDistinct(m);
    }
  }

  lemma {:induction false} TableFoldMisses(line: seq<string>, lineNumber: nat, b: Body, table: seq<CppInstruction>)
    requires line != [] && b.Finished?
    requires forall i :: 0 <= i < |table| ==> table[i].name != line[0]
    ensures TableFold(line, lineNumber, b, table) == b
    decreases |table|
  {
    if table != [] {
      assert forall i :: 0 <= i < |table[1..]| ==> table[1..][i].name == table[i + 1].name;
      TableFoldMisses(line, lineNumber, b, table[1..]);
    }
  }

  /** With exactly one entry named by the first token, the loop gives what
      that entry's branch gives. */
  lemma {:induction false} TableFoldHits(line: seq<string>, lineNumber: nat, b: Body, table: seq<CppInstruction>, j: nat)
    requires line != [] && b.Finished?
    requires j < |table| && table[j].name == line[0]
    requires forall i :: 0 <= i < |table| && i != j ==> table[i].name != line[0]
    ensures TableFold(line, lineNumber, b, table) == Layout(table[j], line, lineNumber, b.back, b.tags)
    decreases |table|
  {
    assert forall i :: 0 <= i < |table[1..]| ==> table[1..][i].name == table[i + 1].name;
    if j == 0 {
      var next := Layout(table[0], line, lineNumber, b.back, b.tags);
      if next.Finished? {
        TableFoldMisses(line, lineNumber, next, table[1..]);
      }
    } else {
      TableFoldHits(line, lineNumber, b, table[1..], j - 1);
    }
  }

  /** The pseudo-instruction names are not in the table. */
  predicate IsPseudo(m: string) {
    m == "NOP" || m == "MOV" || m == "JMP" || m == "EXIT"
  }

  /** A line starting with a mnemonic of the instruction set gets the entry
      of that mnemonic's encoding type, filled from the empty entry. */
  lemma EntryOfInstruction(line: seq<string>, lineNumber: nat, tags: map<string, Byte>)
    requires line != [] && line[0] in Instructions
    ensures EntryOf(line, lineNumber, tags) == Layout(Table[Instructions[line[0]].opcode], line, lineNumber, [], tags)
  {
    var m := line[0];
    var op := Instructions[m].opcode;
    var p := PseudoEntry(line, lineNumber, tags);
    assert p == Finished([], tags) by {
      MnemonicIsField(m);
    }
    var r := TableFold(line, lineNumber, p, Table);
    assert r == Layout(Table[op], line, lineNumber, [], tags) by {
      forall i | 0 <= i < |Table| && i != op ensures Table[i].name != m {
        TableNames(m, i);
      }
      TableNames(m, op);
      TableFoldHits(line, lineNumber, p, Table, op);
    }
    assert r.Finished? ==> r.back != [] by {
      TableEntry(op);
    }
  }

  /** A first token that is neither a pseudo-instruction nor a mnemonic
      leaves the entry empty, which throws "something went wrong". */
  lemma UnknownMnemonicThrows(line: seq<string>, lineNumber: nat, tags: map<string, Byte>)
    requires line != [] && line[0] !in Instructions && !IsPseudo(line[0])
    ensures EntryOf(line, lineNumber, tags) == Raised([], tags, SomethingWentWrong(lineNumber))
  {
    forall i | 0 <= i < |Table| ensures Table[i].name != line[0] {
      TableNames(line[0], i);
    }
    TableFoldMisses(line, lineNumber, Finished([], tags), Table);
  }

  /** The byte vector of each encoding type, as the emulator reads it:
      opcode first, then the operands in the order the braced lists give. */
  function CppLayout(format: Format, op: Nibble, a: Nibble, b: Nibble, c: Nibble, imm: Byte): seq<Byte> {
    match format
    case CAB => [op, a, b, c]
    case CA => [op, a, c]
    case AB => [op, a, b]
    case CImm => [op, imm, c]
    case ImmC => [op, imm, c]
  }

  lemma RegAtName(line: seq<string>, k: nat, n: Nibble, lineNumber: nat)
    requires k < |line| && line[k] == RegisterName(n)
    ensures RegAt(line, k, lineNumber) == Done(n)
  {
    RegOfName(n, lineNumber);
  }

  lemma ImmAtDecimal(line: seq<string>, k: nat, imm: Byte, tags: map<string, Byte>)
    requires k < |line| && line[k] == Decimal(imm)
    ensures ImmAt(line, k, tags) == (Done(imm), tags)
  {
    ImmOfDecimal(imm, tags);
  }

  lemma DecimalHasNoColon(n: nat)
    ensures ':' !in Decimal(n)
  {
    var s := Decimal(n);
    forall i | 0 <= i < |s| ensures s[i] != ':' {
      assert IsDigit(s[i]);
    }
  }

  lemma ImmOfStoi(input: string, v: int, tags: map<string, Byte>)
    requires ':' !in input && Stoi(input) == Done(v) && 0 <= v < 256
    ensures ImmOf(input, tags) == (Done(v), tags)
  {
  }

  lemma ImmOfDecimal(imm: Byte, tags: map<string, Byte>)
    ensures ImmOf(Decimal(imm), tags) == (Done(imm), tags)
  {
    DecimalHasNoColon(imm);
    StoiOfDecimal(imm);
    ImmOfStoi(Decimal(imm), imm, tags);
  }

  /** An entry of any encoding type reads the operand tokens its format
      lists back to the operands. */
  lemma LayoutOfOperands(inst: CppInstruction, format: Format, m: string, a: Nibble, b: Nibble, c: Nibble, imm: Byte, lineNumber: nat, back: seq<Byte>, tags: map<string, Byte>)
    requires FormatOfType(inst.encodingType) == Some(format) && inst.opdCode < 16
    ensures Layout(inst, [m] + OperandTokens(format, a, b, c, imm), lineNumber, back, tags)
      == Finished(CppLayout(format, inst.opdCode, a, b, c, imm), tags)
  {
    var line := [m] + OperandTokens(format, a, b, c, imm);
    match format
    case CAB =>
      assert inst.encodingType == "CAB";
      RegAtName(line, 1, c, lineNumber);
      RegAtName(line, 2, a, lineNumber);
      RegAtName(line, 3, b, lineNumber);
    case CA =>
      assert inst.encodingType == "CA";
      RegAtName(line, 1, c, lineNumber);
      RegAtName(line, 2, a, lineNumber);
    case AB =>
      assert inst.encodingType == "AB";
      RegAtName(line, 1, a, lineNumber);
      RegAtName(line, 2, b, lineNumber);
    case CImm =>
      assert inst.encodingType == "C immediate";
      RegAtName(line, 1, c, lineNumber);
      ImmAtDecimal(line, 2, imm, tags);
    case ImmC =>
      assert inst.encodingType == "immediate C";
      ImmAtDecimal(line, 1, imm, tags);
      RegAtName(line, 2, c, lineNumber);
  }

  /** Assembling an instruction written the usual way gives the entry of its
      format, holding its opcode and the operands it was written with. */
  lemma AssembleThenRead(mnemonic: string, a: Nibble, b: Nibble, c: Nibble, imm: Byte, lineNumber: nat, tags: map<string, Byte>)
    requires mnemonic in Instructions
    ensures var inst := Instructions[mnemonic];
      EntryOf(InstructionTokens(mnemonic, a, b, c, imm), lineNumber, tags)
        == Finished(CppLayout(inst.format, inst.opcode, a, b, c, imm), tags)
  {
    var inst := Instructions[mnemonic];
    var line := InstructionTokens(mnemonic, a, b, c, imm);
    EntryOfInstruction(line, lineNumber, tags);
    TableEntry(inst.opcode);
    OpcodesAreDistinct(mnemonic);
    LayoutOfOperands(Table[inst.opcode], inst.format, mnemonic, a, b, c, imm, lineNumber, [], tags);
  }

  // ---- the pseudo-instructions ----

  lemma PseudoIsNotInTable(m: string)
    requires IsPseudo(m)
    ensures forall i :: 0 <= i < |Table| ==> Table[i].name != m
  {
    forall i | 0 <= i < |Table| ensures Table[i].name != m {
      TableNames(m, i);
    }
  }

  /** NOP is the entry {0, 0, 0, 0}, whatever follows it on the line. */
  lemma NopEntry(line: seq<string>, lineNumber: nat, tags: map<string, Byte>)
    requires line != [] && line[0] == "NOP"
    ensures EntryOf(line, lineNumber, tags) == Finished([0, 0, 0, 0], tags)
  {
    PseudoIsNotInTable("NOP");
    TableFoldMisses(line, lineNumber, Finished([0, 0, 0, 0], tags), Table);
  }

  /** EXIT is the entry {13, 0, 0, 0}: JMPL with every operand 0. */
  lemma ExitEntry(line: seq<string>, lineNumber: nat, tags: map<string, Byte>)
    requires line != [] && line[0] == "EXIT"
    ensures EntryOf(line, lineNumber, tags) == Finished([13, 0, 0, 0], tags)
  {
    PseudoIsNotInTable("EXIT");
    TableFoldMisses(line, lineNumber, Finished([13, 0, 0, 0], tags), Table);
  }

  /** MOV x y is the entry {0, x, 0, y}: ADD with C = y, A = x and B = r0,
      which copies x into y. */
  lemma MovEntry(x: Nibble, y: Nibble, lineNumber: nat, tags: map<string, Byte>)
    ensures EntryOf(["MOV", RegisterName(x), RegisterName(y)], lineNumber, tags)
      == Finished([0, x, 0, y], tags)
    ensures [0, x, 0, y] == CppLayout(CAB, 0, x, 0, y, 0)
  {
    var line := ["MOV", RegisterName(x), RegisterName(y)];
    RegistersOfMov(x, y, lineNumber);
    MovReadsRegisters(line, x, y, lineNumber, tags);
    MovLayout(x, y);
  }

  lemma MovLayout(x: Nibble, y: Nibble)
    ensures [0, x, 0, y] == CppLayout(CAB, 0, x, 0, y, 0)
  {
  }

  lemma RegistersOfMov(x: Nibble, y: Nibble, lineNumber: nat)
    ensures RegAt(["MOV", RegisterName(x), RegisterName(y)], 1, lineNumber) == Done(x)
    ensures RegAt(["MOV", RegisterName(x), RegisterName(y)], 2, lineNumber) == Done(y)
  {
    var line := ["MOV", RegisterName(x), RegisterName(y)];
    RegAtName(line, 1, x, lineNumber);
    RegAtName(line, 2, y, lineNumber);
  }

  lemma MovReadsRegisters(line: seq<string>, x: Nibble, y: Nibble, lineNumber: nat, tags: map<string, Byte>)
    requires line != [] && line[0] == "MOV"
    requires RegAt(line, 1, lineNumber) == Done(x) && RegAt(line, 2, lineNumber) == Done(y)
    ensures EntryOf(line, lineNumber, tags) == Finished([0, x, 0, y], tags)
  {
    assert PseudoEntry(line, lineNumber, tags) == Finished([0, x, 0, y], tags) by {
      assert line[0] != "NOP" by {
        assert line[0][0] == 'M';
      }
    }
    PseudoIsNotInTable("MOV");
    TableFoldMisses(line, lineNumber, Finished([0, x, 0, y], tags), Table);
  }

  /** JMP is the entry {11, t, 15}, t read by parse_imm: BEQ to t
      comparing r15 with itself. */
  lemma JmpReadsImmediate(line: seq<string>, target: Byte, lineNumber: nat, tags: map<string, Byte>, tags1: map<string, Byte>)
    requires line != [] && line[0] == "JMP"
    requires ImmAt(line, 1, tags) == (Done(target), tags1)
    ensures EntryOf(line, lineNumber, tags) == Finished([11, target, 15], tags1)
  {
    assert PseudoEntry(line, lineNumber, tags) == Finished([11, target, 15], tags1) by {
      assert line[0] != "NOP" && line[0] != "MOV" by {
        assert line[0][0] == 'J';
      }
      var (imm, t) := ImmAt(line, 1, tags);
      assert imm == Done(target) && t == tags1;
    }
    PseudoIsNotInTable("JMP");
    TableFoldMisses(line, lineNumber, Finished([11, target, 15], tags1), Table);
  }

  /** JMP with a number jumps to that number. */
  lemma JmpEntry(target: Byte, lineNumber: nat, tags: map<string, Byte>)
    ensures EntryOf(["JMP", Decimal(target)], lineNumber, tags) == Finished([11, target, 15], tags)
  {
    ImmAtDecimal(["JMP", Decimal(target)], 1, target, tags);
    JmpReadsImmediate(["JMP", Decimal(target)], target, lineNumber, tags, tags);
  }

  /** JMP with a tag jumps to the tag's recorded line; a tag never defined
      jumps to 0 and is added to the map. */
  lemma JmpToTag(tag: string, lineNumber: nat, tags: map<string, Byte>)
    requires ':' in tag
    ensures var target := if tag in tags then tags[tag] else 0;
      EntryOf(["JMP", tag], lineNumber, tags) == Finished([11, target, 15], tags[tag := target])
  {
    var target := if tag in tags then tags[tag] else 0;
    assert ImmAt(["JMP", tag], 1, tags) == (Done(target), tags[tag := target]);
    JmpReadsImmediate(["JMP", tag], target, lineNumber, tags, tags[tag := target]);
  }

  // ---- the first pass: splitting the lines and loading the tags ----

  /** The characters string_split cuts a line at. */
  const Blanks: seq<char> := [' ', '\t']

  /** The members lines and tag_line_number_map as the first pass leaves
      them. */
  datatype Loaded = Loaded(lines: seq<seq<string>>, tags: map<string, Byte>)

  /** One line of the first pass: its tokens are pushed, and a first token
      holding ':' is recorded with the line's index, truncated to a uint_8,
      and erased. A line of blanks only has no first token to look at. */
  function LoadStep(l: Loaded, raw: string): Option<Loaded> {
    var tokens := StringAddons.Segments(raw, Blanks);
    if tokens == [] then None
    else if ':' in tokens[0] then Some(Loaded(l.lines + [tokens[1..]], l.tags[tokens[0] := ToByte(|l.lines|)]))
    else Some(Loaded(l.lines + [tokens], l.tags))
  }

  /** The first pass over the non-empty lines of the file; None is the
      undefined behaviour of a line of blanks. */
  function LoadPass(unparsed: seq<string>): (r: Option<Loaded>)
    ensures r.Some? ==> |r.value.lines| == |unparsed|
    decreases |unparsed|
  {
    if unparsed == [] then Some(Loaded([], map[]))
    else
      match LoadPass(unparsed[..|unparsed| - 1])
      case None => None
      case Some(l) => LoadStep(l, unparsed[|unparsed| - 1])
  }

  lemma {:induction false} LoadStopsAfter(unparsed: seq<string>, k: nat)
    requires k <= |unparsed| && LoadPass(unparsed[..k]) == None
    ensures LoadPass(unparsed) == None
    decreases |unparsed| - k
  {
    if k < |unparsed| {
      assert unparsed[..k + 1][..k] == unparsed[..k];
      LoadStopsAfter(unparsed, k + 1);
    } else {
      assert unparsed[..k] == unparsed;
    }
  }

  // ---- the second pass: one entry per instruction line ----

  /** An empty line, or one whose first token starts with '#', is skipped.
      The first character of an empty std::string is its terminating null,
      so an empty token is not skipped. */
  predicate Skipped(line: seq<string>) {
    line == [] || (line[0] != [] && line[0][0] == '#')
  }

  /** The program and the tag map during the second pass, or how it ended:
      an exception after the failing line's entry was appended, or
      undefined behaviour. */
  datatype Emitted =
    | Emitting(program: seq<seq<Byte>>, tags: map<string, Byte>)
    | Halted(program: seq<seq<Byte>>, tags: map<string, Byte>, error: CppError)
    | Broke

  /** One iteration of the second pass, at line index lineNumber. */
  function EmitStep(program: seq<seq<Byte>>, tags: map<string, Byte>, line: seq<string>, lineNumber: nat): Emitted {
    if Skipped(line) then Emitting(program, tags)
    else
      match EntryOf(line, lineNumber, tags)
      case Finished(back, tags1) => Emitting(program + [back], tags1)
      case Raised(back, tags1, e) => Halted(program + [back], tags1, e)
      case Broken => Broke
  }

  /** The second pass over the first lines, from the tags of the first
      pass. */
  function EmitPass(lines: seq<seq<string>>, tags: map<string, Byte>): Emitted
    decreases |lines|
  {
    if lines == [] then Emitting([], tags)
    else
      var n := |lines| - 1;
      var prev := EmitPass(lines[..n], tags);
      if prev.Emitting? then EmitStep(prev.program, prev.tags, lines[n], n) else prev
  }

  lemma EmitPassUnfolds(lines: seq<seq<string>>, tags: map<string, Byte>, k: nat)
    requires k < |lines|
    ensures var prev := EmitPass(lines[..k], tags);
      EmitPass(lines[..k + 1], tags) == if prev.Emitting? then EmitStep(prev.program, prev.tags, lines[k], k) else prev
  {
    assert lines[..k + 1][..k] == lines[..k];
  }

  /** One more line of the second pass, from a state still emitting. */
  lemma EmitPassStep(lines: seq<seq<string>>, tags: map<string, Byte>, k: nat, program: seq<seq<Byte>>, tags0: map<string, Byte>)
    requires k < |lines| && EmitPass(lines[..k], tags) == Emitting(program, tags0)
    ensures EmitPass(lines[..k + 1], tags) == EmitStep(program, tags0, lines[k], k)
  {
    EmitPassUnfolds(lines, tags, k);
  }

  /** The step of a line that is not skipped follows the line's entry. */
  lemma EmitStepOfEntry(program: seq<seq<Byte>>, tags: map<string, Byte>, line: seq<string>, k: nat, b: Body)
    requires !Skipped(line) && b == EntryOf(line, k, tags)
    ensures b.Finished? ==> EmitStep(program, tags, line, k) == Emitting(program + [b.back], b.tags)
    ensures b.Raised? ==> EmitStep(program, tags, line, k) == Halted(program + [b.back], b.tags, b.error)
    ensures b.Broken? ==> EmitStep(program, tags, line, k) == Broke
  {
  }

  /** A skipped line leaves the second pass as it was. */
  lemma EmitSkippedLine(lines: seq<seq<string>>, tags: map<string, Byte>, k: nat, program: seq<seq<Byte>>, tags0: map<string, Byte>)
    requires k < |lines| && EmitPass(lines[..k], tags) == Emitting(program, tags0) && Skipped(lines[k])
    ensures EmitPass(lines[..k + 1], tags) == Emitting(program, tags0)
  {
    EmitPassStep(lines, tags, k, program, tags0);
  }

  /** A line that is not skipped appends its entry and goes on, or ends the
      whole pass with the exception or the undefined behaviour. */
  lemma EmitEntryLine(lines: seq<seq<string>>, tags: map<string, Byte>, k: nat, program: seq<seq<Byte>>, tags0: map<string, Byte>, b: Body)
    requires k < |lines| && EmitPass(lines[..k], tags) == Emitting(program, tags0)
    requires !Skipped(lines[k]) && b == EntryOf(lines[k], k, tags0)
    ensures b.Finished? ==> EmitPass(lines[..k + 1], tags) == Emitting(program + [b.back], b.tags)
    ensures b.Raised? ==> EmitPass(lines, tags) == Halted(program + [b.back], b.tags, b.error)
    ensures b.Broken? ==> EmitPass(lines, tags) == Broke
  {
    EmitPassStep(lines, tags, k, program, tags0);
    EmitStepOfEntry(program, tags0, lines[k], k, b);
    if !b.Finished? {
      EmitStopsAfter(lines, tags, k + 1);
    }
  }

  lemma {:induction false} EmitStopsAfter(lines: seq<seq<string>>, tags: map<string, Byte>, k: nat)
    requires k <= |lines| && !EmitPass(lines[..k], tags).Emitting?
    ensures EmitPass(lines, tags) == EmitPass(lines[..k], tags)
    decreases |lines| - k
  {
    if k < |lines| {
      assert lines[..k + 1][..k] == lines[..k];
      EmitStopsAfter(lines, tags, k + 1);
    } else {
      assert lines[..k] == lines;
    }
  }

  /** The whole of run on a text: both passes, or Broke for undefined
      behaviour in either. */
  function Assembled(rawFile: string): Emitted {
    match LoadPass(StringAddons.Segments(rawFile, ['\n']))
    case None => Broke
    case Some(l) => EmitPass(l.lines, l.tags)
  }

  /** How run ends. */
  datatype RunOutcome = Returned | Exception(error: CppError) | UndefinedBehaviour

  // ---- what the passes promise ----

  /** The number of lines the second pass does not skip. */
  function InstructionLines(lines: seq<seq<string>>): nat {
    if lines == [] then 0
    else InstructionLines(lines[..|lines| - 1]) + (if Skipped(lines[|lines| - 1]) then 0 else 1)
  }

  /** A completed second pass has one entry per line it does not skip; an
      exception comes after at least the failing line's entry. */
  lemma {:induction false} ProgramLength(lines: seq<seq<string>>, tags: map<string, Byte>)
    ensures var e := EmitPass(lines, tags);
      && (e.Emitting? ==> |e.program| == InstructionLines(lines))
      && (e.Halted? ==> 0 < |e.program| <= InstructionLines(lines))
  {
    if lines != [] {
      var n := |lines| - 1;
      ProgramLength(lines[..n], tags);
      var prev := EmitPass(lines[..n], tags);
      if prev.Emitting? {
        EmitStepLength(prev.program, prev.tags, lines[n], n);
      }
    }
  }

  lemma EmitStepLength(program: seq<seq<Byte>>, tags: map<string, Byte>, line: seq<string>, n: nat)
    ensures var e := EmitStep(program, tags, line, n);
      && (e.Emitting? ==> |e.program| == |program| + (if Skipped(line) then 0 else 1))
      && (e.Halted? ==> |e.program| == |program| + 1)
  {
  }

  lemma {:induction false} ProgramEntries(lines: seq<seq<string>>, tags: map<string, Byte>)
    ensures var e := EmitPass(lines, tags);
      && (e.Emitting? ==> forall k :: 0 <= k < |e.program| ==> EntryShape(e.program[k]))
      && (e.Halted? ==> forall k :: 0 <= k < |e.program| ==>
            EntryShape(e.program[k]) || (k == |e.program| - 1 && e.program[k] == []))
  {
    if lines != [] {
      var n := |lines| - 1;
      ProgramEntries(lines[..n], tags);
      var prev := EmitPass(lines[..n], tags);
      if prev.Emitting? {
        EmitStepEntries(prev.program, prev.tags, lines[n], n);
      }
    }
  }

  lemma EmitStepEntries(program: seq<seq<Byte>>, tags: map<string, Byte>, line: seq<string>, n: nat)
    requires forall k :: 0 <= k < |program| ==> EntryShape(program[k])
    ensures var e := EmitStep(program, tags, line, n);
      && (e.Emitting? ==> forall k :: 0 <= k < |e.program| ==> EntryShape(e.program[k]))
      && (e.Halted? ==> forall k :: 0 <= k < |e.program| ==>
            EntryShape(e.program[k]) || (k == |e.program| - 1 && e.program[k] == []))
  {
    if !Skipped(line) {
      var entry := EntryOf(line, n, tags);
      if !entry.Broken? {
        var extended := program + [entry.back];
        assert forall k :: 0 <= k < |program| ==> extended[k] == program[k];
      }
    }
  }

  /** The first token of a line when it is a tag. */
  predicate DefinesTag(raw: string, tag: string) {
    var tokens := StringAddons.Segments(raw, Blanks);
    tokens != [] && tokens[0] == tag && ':' in tag
  }

  /** A tag holds the index, modulo 256, of the last line that defines it:
      the index among all the non-empty lines of the file, comments and
      tag-only lines included, not the index of an entry. */
  lemma {:induction false} TagIsLastDefinition(unparsed: seq<string>, i: nat, tag: string)
    requires LoadPass(unparsed).Some?
    requires i < |unparsed| && DefinesTag(unparsed[i], tag)
    requires forall j :: i < j < |unparsed| ==> !DefinesTag(unparsed[j], tag)
    ensures tag in LoadPass(unparsed).value.tags
    ensures LoadPass(unparsed).value.tags[tag] == i % 256
    decreases |unparsed|
  {
    var n := |unparsed| - 1;
    var init := unparsed[..n];
    assert LoadPass(init).Some?;
    if i < n {
      TagIsLastDefinition(init, i, tag);
      assert !DefinesTag(unparsed[n], tag);
    } else {
      assert |LoadPass(init).value.lines| == n;
    }
  }

  /** Every tag in the map was defined by some line. */
  lemma {:induction false} TagsComeFromDefinitions(unparsed: seq<string>, tag: string)
    requires LoadPass(unparsed).Some? && tag in LoadPass(unparsed).value.tags
    ensures exists i :: 0 <= i < |unparsed| && DefinesTag(unparsed[i], tag)
    decreases |unparsed|
  {
    var n := |unparsed| - 1;
    var init := unparsed[..n];
    if !DefinesTag(unparsed[n], tag) {
      TagsComeFromDefinitions(init, tag);
      var i :| 0 <= i < n && DefinesTag(init[i], tag);
      assert unparsed[i] == init[i];
    }
  }

  lemma BlankStepFails(l: Loaded, raw: string)
    requires StringAddons.Segments(raw, Blanks) == []
    ensures LoadStep(l, raw) == None
  {
  }

  lemma BlankLineStopsItsPrefix(unparsed: seq<string>, i: nat)
    requires i < |unparsed| && StringAddons.Segments(unparsed[i], Blanks) == []
    ensures LoadPass(unparsed[..i + 1]) == None
  {
    var prefix := unparsed[..i + 1];
    assert prefix[..|prefix| - 1] == unparsed[..i];
    assert prefix[|prefix| - 1] == unparsed[i];
    match LoadPass(unparsed[..i])
    case None =>
    case Some(l) =>
      BlankStepFails(l, unparsed[i]);
  }

  /** A line of blanks only (the empty lines themselves are dropped by the
      split at '\n') is undefined behaviour. */
  lemma BlankLineIsUndefined(unparsed: seq<string>, i: nat)
    requires i < |unparsed| && StringAddons.Segments(unparsed[i], Blanks) == []
    ensures LoadPass(unparsed) == None
  {
    BlankLineStopsItsPrefix(unparsed, i);
    LoadFailsFromLine(unparsed, i);
  }

  lemma LoadFailsFromLine(unparsed: seq<string>, i: nat)
    requires i < |unparsed| && LoadPass(unparsed[..i + 1]) == None
    ensures LoadPass(unparsed) == None
  {
    LoadStopsAfter(unparsed, i + 1);
  }

  /** A line that is not skipped and whose entry finishes appends that
      entry to the program built so far. */
  lemma EmitPassAppends(lines: seq<seq<string>>, tags: map<string, Byte>, k: nat,
                        program: seq<seq<Byte>>, tags0: map<string, Byte>, back: seq<Byte>, tags1: map<string, Byte>)
    requires k < |lines| && EmitPass(lines[..k], tags) == Emitting(program, tags0)
    requires lines[k] != [] && !Skipped(lines[k]) && EntryOf(lines[k], k, tags0) == Finished(back, tags1)
    ensures EmitPass(lines[..k + 1], tags) == Emitting(program + [back], tags1)
  {
    EmitPassUnfolds(lines, tags, k);
  }

  lemma CommentLineEmitsNothing(lines: seq<seq<string>>, tags: map<string, Byte>)
    requires |lines| == 3 && lines[0] != [] && lines[0][0] != [] && lines[0][0][0] == '#'
    ensures EmitPass(lines[..1], tags) == Emitting([], tags)
  {
    EmitPassUnfolds(lines, tags, 0);
    assert lines[..0] == [];
    assert Skipped(lines[0]);
  }

  lemma NopLineEmits(lines: seq<seq<string>>, tags: map<string, Byte>)
    requires |lines| == 3 && lines[1] == ["NOP"]
    requires EmitPass(lines[..1], tags) == Emitting([], tags)
    ensures EmitPass(lines[..2], tags) == Emitting([[0, 0, 0, 0]], tags)
  {
    assert lines[1][0] == "NOP";
    assert !Skipped(lines[1]) by {
      assert lines[1][0][0] == 'N';
    }
    NopEntry(lines[1], 1, tags);
    EmitPassAppends(lines, tags, 1, [], tags, [0, 0, 0, 0], tags);
    assert [] + [[0, 0, 0, 0]] == [[0, 0, 0, 0]];
  }

  lemma JmpToOwnTag(tag: string, tags: map<string, Byte>)
    requires ':' in tag && tags == map[tag := 1]
    ensures EntryOf(["JMP", tag], 2, tags) == Finished([11, 1, 15], tags)
  {
    OwnTagIsOne(tag, tags);
    JmpToTag(tag, 2, tags);
  }

  lemma OwnTagIsOne(tag: string, tags: map<string, Byte>)
    requires tags == map[tag := 1]
    ensures tag in tags && tags[tag] == 1 && tags[tag := 1] == tags
  {
  }

  lemma JmpLineEmits(lines: seq<seq<string>>, tag: string, tags: map<string, Byte>)
    requires |lines| == 3 && lines[2] == ["JMP", tag]
    requires EntryOf(["JMP", tag], 2, tags) == Finished([11, 1, 15], tags)
    requires EmitPass(lines[..2], tags) == Emitting([[0, 0, 0, 0]], tags)
    ensures EmitPass(lines, tags) == Emitting([[0, 0, 0, 0], [11, 1, 15]], tags)
  {
    JmpLineIsNotSkipped(lines[2], tag);
    JmpLineAppends(lines, tag, tags);
    PairOfEntries([0, 0, 0, 0], [11, 1, 15]);
    EmitPassOfWhole(lines, tags);
  }

  lemma EmitPassOfWhole(lines: seq<seq<string>>, tags: map<string, Byte>)
    ensures EmitPass(lines[..|lines|], tags) == EmitPass(lines, tags)
  {
    assert lines[..|lines|] == lines;
  }

  lemma JmpLineIsNotSkipped(line: seq<string>, tag: string)
    requires line == ["JMP", tag]
    ensures !Skipped(line)
  {
    assert line[0][0] == 'J';
  }

  lemma JmpLineAppends(lines: seq<seq<string>>, tag: string, tags: map<string, Byte>)
    requires |lines| == 3 && lines[2] == ["JMP", tag] && !Skipped(lines[2])
    requires EntryOf(["JMP", tag], 2, tags) == Finished([11, 1, 15], tags)
    requires EmitPass(lines[..2], tags) == Emitting([[0, 0, 0, 0]], tags)
    ensures EmitPass(lines[..3], tags) == Emitting([[0, 0, 0, 0]] + [[11, 1, 15]], tags)
  {
    EmitPassAppends(lines, tags, 2, [[0, 0, 0, 0]], tags, [11, 1, 15], tags);
  }

  lemma PairOfEntries(first: seq<Byte>, second: seq<Byte>)
    ensures [first] + [second] == [first, second]
  {
  }

  /** A comment line still counts for the tags: behind "# ...", a tag
      defined on the NOP line holds 1, the index of the JMP entry itself,
      so "JMP" to it loops on itself instead of reaching the NOP at entry 0. */
  lemma TagCountsSkippedLines(comment: string, tag: string)
    requires comment != [] && comment[0] == '#' && ':' in tag
    ensures EmitPass([[comment], ["NOP"], ["JMP", tag]], map[tag := 1])
      == Emitting([[0, 0, 0, 0], [11, 1, 15]], map[tag := 1])
  {
    var lines: seq<seq<string>> := [[comment], ["NOP"], ["JMP", tag]];
    assert |lines| == 3 && lines[0] == [comment] && lines[1] == ["NOP"] && lines[2] == ["JMP", tag];
    JmpToOwnTag(tag, map[tag := 1]);
    CommentNopJmpEmits(lines, comment, tag, map[tag := 1]);
  }

  lemma CommentNopJmpEmits(lines: seq<seq<string>>, comment: string, tag: string, tags: map<string, Byte>)
    requires comment != [] && comment[0] == '#'
    requires |lines| == 3 && lines[0] == [comment] && lines[1] == ["NOP"] && lines[2] == ["JMP", tag]
    requires EntryOf(["JMP", tag], 2, tags) == Finished([11, 1, 15], tags)
    ensures EmitPass(lines, tags) == Emitting([[0, 0, 0, 0], [11, 1, 15]], tags)
  {
    CommentThenNopEmit(lines, comment, tags);
    JmpLineEmits(lines, tag, tags);
  }

  lemma CommentThenNopEmit(lines: seq<seq<string>>, comment: string, tags: map<string, Byte>)
    requires comment != [] && comment[0] == '#'
    requires |lines| == 3 && lines[0] == [comment] && lines[1] == ["NOP"]
    ensures EmitPass(lines[..2], tags) == Emitting([[0, 0, 0, 0]], tags)
  {
    CommentLineEmitsNothing(lines, tags);
    NopLineEmits(lines, tags);
  }

  class Assembler {
    var lineNumber: nat
    var lines: seq<seq<string>>
    var tagLineNumberMap: map<string, Byte>

    constructor()
      ensures lineNumber == 0 && lines == [] && tagLineNumberMap == map[]
    {
      lineNumber := 0;
      lines := [];
      tagLineNumberMap := map[];
    }

    /** parse_reg, reporting lineNumber when the register is out of range. */
    method ParseReg(input: string) returns (r: Step<Byte>)
      ensures r == RegOf(input, lineNumber)
    {
      if input == [] {
        return Undefined;
      }
      var rest := input[1..];
      var result := Stoi(rest);
      match result
      case Done(v) =>
        var byte := ToByte(v);
        if byte > 15 {
          return Threw(RegisterOutOfRange(lineNumber));
        }
        return Done(byte);
      case Threw(e) =>
        return Threw(e);
      case Undefined =>
        return Undefined;
    }

    /** parse_imm: looks a tag up with operator[], inserting it with 0 when
        it is missing. */
    method ParseImm(input: string) returns (r: Step<Byte>)
      modifies this
      ensures (r, tagLineNumberMap) == ImmOf(input, old(tagLineNumberMap))
      ensures lineNumber == old(lineNumber) && lines == old(lines)
    {
      var isTag := StringAddons.StringContains(input, ":");
      StringAddons.ContainsOneChar(input, ':');
      if isTag {
        if input !in tagLineNumberMap {
          tagLineNumberMap := tagLineNumberMap[input := 0];
        }
        return Done(tagLineNumberMap[input]);
      }
      var result := Stoi(input);
      match result
      case Done(v) =>
        return Done(ToByte(v));
      case Threw(e) =>
        return Threw(e);
      case Undefined =>
        return Undefined;
    }

    /** parse_reg on line[k]; indexing past the end of the line is
        undefined behaviour. */
    method RegisterAt(line: seq<string>, k: nat) returns (r: Step<Byte>)
      ensures r == RegAt(line, k, lineNumber)
    {
      if k >= |line| {
        return Undefined;
      }
      r := ParseReg(line[k]);
    }

    /** parse_imm on line[k]. */
    method ImmediateAt(line: seq<string>, k: nat) returns (r: Step<Byte>)
      modifies this
      ensures (r, tagLineNumberMap) == ImmAt(line, k, old(tagLineNumberMap))
      ensures lineNumber == old(lineNumber) && lines == old(lines)
    {
      if k >= |line| {
        return Undefined;
      }
      r := ParseImm(line[k]);
    }

    /** The pseudo-instruction branches on the new, empty entry. */
    method PseudoBranch(line: seq<string>) returns (b: Body)
      requires line != []
      modifies this
      ensures b == PseudoEntry(line, lineNumber, old(tagLineNumberMap))
      ensures !b.Broken? ==> tagLineNumberMap == b.tags
      ensures lineNumber == old(lineNumber) && lines == old(lines)
    {
      if line[0] == "NOP" {
        return Finished([0, 0, 0, 0], tagLineNumberMap);
      } else if line[0] == "MOV" {
        var x := RegisterAt(line, 1);
        if x.IsFailure() {
          return Assign(x.PropagateFailure(), [], tagLineNumberMap);
        }
        var y := RegisterAt(line, 2);
        if y.IsFailure() {
          return Assign(y.PropagateFailure(), [], tagLineNumberMap);
        }
        return Finished([0, x.value, 0, y.value], tagLineNumberMap);
      } else if line[0] == "JMP" {
        var t := ImmediateAt(line, 1);
        if t.IsFailure() {
          return Assign(t.PropagateFailure(), [], tagLineNumberMap);
        }
        return Finished([11, t.value, 15], tagLineNumberMap);
      } else if line[0] == "EXIT" {
        return Finished([13, 0, 0, 0], tagLineNumberMap);
      }
      return Finished([], tagLineNumberMap);
    }

    /** The branch of one matching table entry, chosen by its encoding
        type, writing over back. */
    method EncodingBranch(inst: CppInstruction, line: seq<string>, back: seq<Byte>) returns (b: Body)
      modifies this
      ensures b == Layout(inst, line, lineNumber, back, old(tagLineNumberMap))
      ensures !b.Broken? ==> tagLineNumberMap == b.tags
      ensures lineNumber == old(lineNumber) && lines == old(lines)
    {
      var op := inst.opdCode;
      if inst.encodingType == "CAB" {
        var a := RegisterAt(line, 2);
        if a.IsFailure() { return Assign(a.PropagateFailure(), back, tagLineNumberMap); }
        var b' := RegisterAt(line, 3);
        if b'.IsFailure() { return Assign(b'.PropagateFailure(), back, tagLineNumberMap); }
        var c := RegisterAt(line, 1);
        if c.IsFailure() { return Assign(c.PropagateFailure(), back, tagLineNumberMap); }
        return Finished([op, a.value, b'.value, c.value], tagLineNumberMap);
      } else if inst.encodingType == "CA" {
        var a := RegisterAt(line, 2);
        if a.IsFailure() { return Assign(a.PropagateFailure(), back, tagLineNumberMap); }
        var c := RegisterAt(line, 1);
        if c.IsFailure() { return Assign(c.PropagateFailure(), back, tagLineNumberMap); }
        return Finished([op, a.value, c.value], tagLineNumberMap);
      } else if inst.encodingType == "AB" {
        var a := RegisterAt(line, 1);
        if a.IsFailure() { return Assign(a.PropagateFailure(), back, tagLineNumberMap); }
        var b' := RegisterAt(line, 2);
        if b'.IsFailure() { return Assign(b'.PropagateFailure(), back, tagLineNumberMap); }
        return Finished([op, a.value, b'.value], tagLineNumberMap);
      } else if inst.encodingType == "C immediate" {
        var i := ImmediateAt(line, 2);
        if i.IsFailure() { return Assign(i.PropagateFailure(), back, tagLineNumberMap); }
        var c := RegisterAt(line, 1);
        if c.IsFailure() { return Assign(c.PropagateFailure(), back, tagLineNumberMap); }
        return Finished([op, i.value, c.value], tagLineNumberMap);
      } else if inst.encodingType == "immediate C" {
        var i := ImmediateAt(line, 1);
        if i.IsFailure() { return Assign(i.PropagateFailure(), back, tagLineNumberMap); }
        var c := RegisterAt(line, 2);
        if c.IsFailure() { return Assign(c.PropagateFailure(), back, tagLineNumberMap); }
        return Finished([op, i.value, c.value], tagLineNumberMap);
      }
      return Finished(back, tagLineNumberMap);
    }

    /** The loop body of the second pass for a line that is not skipped:
        the pseudo-instructions, the loop over the table, and the test for
        an entry left empty. */
    method EmitLine(line: seq<string>) returns (b: Body)
      requires line != []
      modifies this
      ensures b == EntryOf(line, lineNumber, old(tagLineNumberMap))
      ensures !b.Broken? ==> tagLineNumberMap == b.tags
      ensures lineNumber == old(lineNumber) && lines == old(lines)
    {
      var p := PseudoBranch(line);
      if !p.Finished? {
        return p;
      }
      var back := p.back;
      for i := 0 to |Table|
        invariant lineNumber == old(lineNumber) && lines == old(lines)
        invariant TableFold(line, lineNumber, p, Table) == TableFold(line, lineNumber, Finished(back, tagLineNumberMap), Table[i..])
      {
        TableFoldUnfolds(line, lineNumber, Finished(back, tagLineNumberMap), Table, i);
        if line[0] == Table[i].name {
          var next := EncodingBranch(Table[i], line, back);
          if !next.Finished? {
            return next;
          }
          back := next.back;
        }
      }
      if back == [] {
        return Raised([], tagLineNumberMap, SomethingWentWrong(lineNumber));
      }
      return Finished(back, tagLineNumberMap);
    }

    /** The first loop of run: splits each line at the blanks and records
        and erases its tag. */
    method LoadLines(unparsed: seq<string>) returns (ok: bool)
      requires lines == [] && tagLineNumberMap == map[]
      modifies this
      ensures ok <==> LoadPass(unparsed).Some?
      ensures ok ==> LoadPass(unparsed) == Some(Loaded(lines, tagLineNumberMap))
      ensures ok ==> lineNumber == |unparsed|
    {
      lineNumber := 0;
      for i := 0 to |unparsed|
        invariant lineNumber == i
        invariant LoadPass(unparsed[..i]) == Some(Loaded(lines, tagLineNumberMap))
      {
        assert unparsed[..i + 1][..i] == unparsed[..i];
        var tokens := StringAddons.StringSplit(unparsed[i], Blanks);
        if tokens == [] {
          LoadStopsAfter(unparsed, i + 1);
          return false;
        }
        lines := lines + [tokens];
        var isTag := StringAddons.StringContains(tokens[0], ":");
        StringAddons.ContainsOneChar(tokens[0], ':');
        if isTag {
          tagLineNumberMap := tagLineNumberMap[tokens[0] := ToByte(lineNumber)];
          lines := lines[..|lines| - 1] + [tokens[1..]];
        }
        lineNumber := lineNumber + 1;
      }
      assert unparsed[..|unparsed|] == unparsed;
      return true;
    }

    /** The second loop of run: one entry per line that is not skipped,
        until an exception. */
    method EmitLines() returns (program: seq<seq<Byte>>, outcome: RunOutcome)
      modifies this
      ensures lines == old(lines)
      ensures var e := EmitPass(lines, old(tagLineNumberMap));
        && (e.Broke? <==> outcome == UndefinedBehaviour)
        && (e.Emitting? ==> outcome == Returned && program == e.program && tagLineNumberMap == e.tags)
        && (e.Halted? ==> outcome == Exception(e.error) && program == e.program && tagLineNumberMap == e.tags)
    {
      ghost var loadedTags := tagLineNumberMap;
      ghost var all := lines;
      program := [];
      lineNumber := 0;
      while lineNumber < |lines|
        invariant lineNumber <= |all| && lines == all && all == old(lines)
        invariant EmitPass(all[..lineNumber], loadedTags) == Emitting(program, tagLineNumberMap)
        decreases |all| - lineNumber
      {
        var line := lines[lineNumber];
        ghost var k := lineNumber;
        ghost var tags0 := tagLineNumberMap;
        ghost var before := program;
        if Skipped(line) {
          EmitSkippedLine(all, loadedTags, k, before, tags0);
          lineNumber := lineNumber + 1;
          continue;
        }
        // program.push_back({}) and the writes to program.back(), as one
        // append of the entry's final value
        var b := EmitLine(line);
        EmitEntryLine(all, loadedTags, k, before, tags0, b);
        match b {
          case Finished(back, _) =>
            program := program + [back];
          case Raised(back, _, e) =>
            program := program + [back];
            return program, Exception(e);
          case Broken =>
            return program, UndefinedBehaviour;
        }
        lineNumber := lineNumber + 1;
      }
      EmitPassOfWhole(all, loadedTags);
      outcome := Returned;
    }

    /** run: clears the members and the program, loads the lines and the
        tags, then appends one entry per line that is not skipped. */
    method Run(rawFile: string) returns (program: seq<seq<Byte>>, outcome: RunOutcome)
      modifies this
      ensures var e := Assembled(rawFile);
        && (e.Broke? <==> outcome == UndefinedBehaviour)
        && (e.Emitting? ==> outcome == Returned && program == e.program && tagLineNumberMap == e.tags)
        && (e.Halted? ==> outcome == Exception(e.error) && program == e.program && tagLineNumberMap == e.tags)
      ensures var l := LoadPass(StringAddons.Segments(rawFile, ['\n']));
        l.Some? ==> lines == l.value.lines
    {
      tagLineNumberMap := map[];
      lines := [];
      program := [];
      var unparsed := StringAddons.StringSplit(rawFile, ['\n']);
      var loaded := LoadLines(unparsed);
      if !loaded {
        return program, UndefinedBehaviour;
      }
      program, outcome := EmitLines();
    }
  }
}
