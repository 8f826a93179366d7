/** The assembler of the web application (internal/app/assembler.go): two
    passes over the lines of the text. The first records, for each line whose
    first token ends in ':', the index of that line among the significant
    lines (non-blank, not a comment); the second parses every significant line
    into one 16-bit word written to the program ROM, and the rest of the ROM is
    cleared. */
module WebAssembler {
  import opened Wrappers
  import opened Isa
  import opened GoText
  import opened AsmText
  import StringAddons

  /** Why a single line could not be assembled. */
  datatype LineError =
    | ParseFailed                               // "error parsing instruction"
    | UnknownInstruction(mnemonic: string)
    | NotEnoughArgs(expected: int, got: int)
    | RegisterEmpty                             // "error parsing register"
    | RegisterSyntax(digits: string)            // "failed to parse register"
    | RegisterOutOfRange(digits: string)
    | ImmediateEmpty                            // "error parsing immediate"
    | UnknownTag(tag: string)
    | ImmediateSyntax(text: string)             // "failed to parse immediate"

  /** The error Assemble returns. */
  datatype AsmError =
    | TooLong                                   // "program is too long"
    | AtLine(line: nat, cause: LineError)       // "line %d: ..." (1-based)

  /** What a call of Assemble ends with; Panicked is an index-out-of-range
      panic of the Go runtime, which never returns to the caller. */
  datatype Outcome = Assembled(count: nat) | Failed(error: AsmError) | Panicked

  /** What parseInstruction gives for one trimmed line. */
  datatype LineResult = Encoded(word: Word) | Rejected(cause: LineError) | IndexPanic

  /** The operand variables of parseInstruction; those a format does not
      name stay 0. */
  datatype Operands = Operands(a: Nibble, b: Nibble, c: Nibble, imm: Byte)

  // ---- significant lines ----

  /** A trimmed line the passes do not skip. */
  predicate IsSignificant(line: string) {
    |line| != 0 && !HasPrefix(line, "//") && !HasPrefix(line, "#")
  }

  function SignificantCount(lines: seq<string>): nat {
    if lines == [] then 0
    else SignificantCount(lines[..|lines| - 1]) + (if IsSignificant(TrimSpace(lines[|lines| - 1])) then 1 else 0)
  }

  /** A significant trimmed line has a first token, so the first pass's guard
      against an empty token list never fires. */
  lemma SignificantLineHasFields(line: string)
    requires IsSignificant(TrimSpace(line))
    ensures |Fields(TrimSpace(line))| > 0 && |Fields(TrimSpace(line))[0]| > 0
  {
    var t := TrimSpace(line);
    FieldsNotEmpty(t);
    FieldsAreWords(t);
  }

  // ---- operands ----

  /** input without one leading 'r'. */
  function Unprefixed(input: string): string {
    if input != [] && input[0] == 'r' then input[1..] else input
  }

  /** The parseReg closure: one optional leading 'r', then a decimal of at
      most 15. */
  function ParseReg(input: string): (r: Result<Nibble, LineError>)
    ensures input == [] ==> r == Err(RegisterEmpty)
    ensures r.Ok? ==> AllDigits(Unprefixed(input)) && DecimalValue(Unprefixed(input)) == r.value
    ensures r.Err? && input != [] ==> r.error in {RegisterSyntax(Unprefixed(input)), RegisterOutOfRange(Unprefixed(input))}
  {
    if |input| == 0 then Err(RegisterEmpty)
    else
      var digits := Unprefixed(input);
      match ParseUint8(digits)
      case None => Err(RegisterSyntax(digits))
      case Some(reg) => if reg > 15 then Err(RegisterOutOfRange(digits)) else Ok(reg)
  }

  lemma ParseRegOfName(n: Nibble)
    ensures ParseReg(RegisterName(n)) == Ok(n)
    ensures ParseReg(Decimal(n)) == Ok(n)
  {
    assert Unprefixed(RegisterName(n)) == Decimal(n);
  }

  /** The parseImm closure: a token ending in ':' is a tag and gives the low
      byte of its line index; anything else is a decimal of at most 255. */
  function ParseImm(input: string, tagMap: map<string, Word>): (r: Result<Byte, LineError>)
    ensures r.Ok? && EndsWithColon(input) ==> input in tagMap && r.value == tagMap[input] % 256
    ensures r.Ok? && !EndsWithColon(input) ==> AllDigits(input) && DecimalValue(input) == r.value
    ensures EndsWithColon(input) && input !in tagMap ==> r == Err(UnknownTag(input))
  {
    if |input| == 0 then Err(ImmediateEmpty)
    else if EndsWithColon(input) then
      if input in tagMap then Ok(tagMap[input] % 256) else Err(UnknownTag(input))
    else
      match ParseUint8(input)
      case Some(imm) => Ok(imm)
      case None => Err(ImmediateSyntax(input))
  }

  /** The number of tokens, mnemonic included, a format needs at least. */
  function MinTokens(format: Format): nat {
    if format == CAB then 4 else 3
  }

  /** The operands in the order the format names them; the first failing
      operand is reported and the later ones are not looked at. */
  function ParseOperands(format: Format, tokens: seq<string>, tagMap: map<string, Word>): Result<Operands, LineError>
    requires |tokens| >= MinTokens(format)
  {
    match format
    case AB =>
      var a :- ParseReg(tokens[1]);
      var b :- ParseReg(tokens[2]);
      Ok(Operands(a, b, 0, 0))
    case CA =>
      var c :- ParseReg(tokens[1]);
      var a :- ParseReg(tokens[2]);
      Ok(Operands(a, 0, c, 0))
    case CAB =>
      var c :- ParseReg(tokens[1]);
      var a :- ParseReg(tokens[2]);
      var b :- ParseReg(tokens[3]);
      Ok(Operands(a, b, c, 0))
    case CImm =>
      var c :- ParseReg(tokens[1]);
      var imm :- ParseImm(tokens[2], tagMap);
      Ok(Operands(0, 0, c, imm))
    case ImmC =>
      var imm :- ParseImm(tokens[1], tagMap);
      var c :- ParseReg(tokens[2]);
      Ok(Operands(0, 0, c, imm))
  }

  /** The word for an instruction and its operands, in the layout its
      format uses. */
  function EncodeOperands(instruction: Instruction, ops: Operands): Word {
    if instruction.format == CImm || instruction.format == ImmC then
      EncodeImm(instruction.opcode, ops.imm, ops.c)
    else
      Encode(instruction.opcode, ops.a, ops.b, ops.c)
  }

  // ---- pseudo-instructions ----

  /** Go's copy(dst, src): the first min(|dst|, |src|) entries of dst are
      replaced, the length of dst never changes. */
  function CopyInto(src: seq<string>, dst: seq<string>): (r: seq<string>)
    ensures |r| == |dst|
    ensures forall i :: 0 <= i < |r| ==> r[i] == (if i < |src| then src[i] else dst[i])
  {
    if |src| >= |dst| then src[..|dst|] else src + dst[|src|..]
  }

  /** The expansion convertPseudoInstruction copies over the tokens; None
      when the tokens are not a pseudo-instruction. */
  function Expansion(tokens: seq<string>): Option<seq<string>>
    requires tokens != []
    requires tokens[0] == "MOV" ==> |tokens| >= 3
    requires tokens[0] == "JMP" ==> |tokens| >= 2
  {
    if tokens[0] == "NOP" then Some(["ADD", "r0", "r0", "r0"])
    else if tokens[0] == "MOV" then Some(["ADD", tokens[1], "r0", tokens[2]])
    else if tokens[0] == "JMP" then Some(["BEQ", tokens[1], "r15"])
    else if tokens[0] == "EXIT" then Some(["JMPL", "r0", "r0"])
    else None
  }

  /** Whether convertPseudoInstruction indexes past the token slice: reading
      tokens[0] of no tokens, or the operands of a short MOV or JMP. */
  predicate PseudoPanics(tokens: seq<string>) {
    tokens == [] || (tokens[0] == "MOV" && |tokens| < 3) || (tokens[0] == "JMP" && |tokens| < 2)
  }

  /** The tokens after convertPseudoInstruction: the expansion copied over
      them, keeping their number, so a short pseudo-instruction keeps only a
      prefix of its expansion. */
  function ConvertPseudo(tokens: seq<string>): (r: seq<string>)
    requires !PseudoPanics(tokens)
    ensures |r| == |tokens|
    ensures Expansion(tokens).None? ==> r == tokens
  {
    match Expansion(tokens)
    case None => tokens
    case Some(expansion) => CopyInto(expansion, tokens)
  }

  /** convertPseudoInstruction, which overwrites the token slice in place;
      panicked reports the index panic. */
  method ConvertPseudoInstruction(tokens: array<string>) returns (panicked: bool)
    modifies tokens
    ensures panicked == PseudoPanics(old(tokens[..]))
    ensures !panicked ==> tokens[..] == ConvertPseudo(old(tokens[..]))
    ensures panicked ==> tokens[..] == old(tokens[..])
  {
    if tokens.Length == 0 {
      return true;
    }
    var expansion: seq<string>;
    if tokens[0] == "NOP" {
      expansion := ["ADD", "r0", "r0", "r0"];
    } else if tokens[0] == "MOV" {
      if tokens.Length < 3 {
        return true;
      }
      expansion := ["ADD", tokens[1], "r0", tokens[2]];
    } else if tokens[0] == "JMP" {
      if tokens.Length < 2 {
        return true;
      }
      expansion := ["BEQ", tokens[1], "r15"];
    } else if tokens[0] == "EXIT" {
      expansion := ["JMPL", "r0", "r0"];
    } else {
      return false;
    }
    ghost var original := tokens[..];
    assert Expansion(original) == Some(expansion);
    var n := if tokens.Length < |expansion| then tokens.Length else |expansion|;
    for i := 0 to n
      invariant forall j :: 0 <= j < tokens.Length ==> tokens[j] == (if j < i then expansion[j] else original[j])
    {
      tokens[i] := expansion[i];
    }
    assert tokens[..] == CopyInto(expansion, original);
    return false;
  }

  // ---- one line ----

  /** The tokens of a line from the mnemonic on: a leading tag is dropped. */
  function WithoutTag(tokens: seq<string>): seq<string>
    requires tokens != []
  {
    if EndsWithColon(tokens[0]) then tokens[1..] else tokens
  }

  /** Looks the mnemonic up, checks the operand count and parses the
      operands of tokens already expanded. */
  function ParseTokens(tokens: seq<string>, tagMap: map<string, Word>): LineResult
    requires tokens != []
  {
    if tokens[0] !in Instructions then Rejected(UnknownInstruction(tokens[0]))
    else
      var instruction := Instructions[tokens[0]];
      var minArgCount := MinTokens(instruction.format);
      if |tokens| < minArgCount then Rejected(NotEnoughArgs(minArgCount - 1, |tokens| - 1))
      else
        match ParseOperands(instruction.format, tokens, tagMap)
        case Err(e) => Rejected(e)
        case Ok(ops) => Encoded(EncodeOperands(instruction, ops))
  }

  /** parseInstruction on one trimmed line. */
  function ParseLine(line: string, tagMap: map<string, Word>): LineResult {
    var fields := Fields(line);
    if |fields| < 1 then Rejected(ParseFailed)
    else
      var tokens := WithoutTag(fields);
      if PseudoPanics(tokens) then IndexPanic
      else ParseTokens(ConvertPseudo(tokens), tagMap)
  }

  /** parseInstruction: splits the line, drops a leading tag, rewrites a
      pseudo-instruction in the token slice and encodes the result. */
  method ParseInstruction(line: string, tagMap: map<string, Word>) returns (r: LineResult)
    ensures r == ParseLine(line, tagMap)
  {
    var fields := Fields(line);
    if |fields| < 1 {
      return Rejected(ParseFailed);
    }
    if EndsWithColon(fields[0]) {
      fields := fields[1..];
    }
    var tokens := new string[|fields|](i requires 0 <= i < |fields| => fields[i]);
    assert tokens[..] == fields;
    var panicked := ConvertPseudoInstruction(tokens);
    if panicked {
      return IndexPanic;
    }
    r := ParseTokens(tokens[..], tagMap);
  }

  // ---- the two passes, as functions of the lines read so far ----

  /** The tag map and line counter after the first pass has read lines. */
  datatype Pass1 = Pass1(tagMap: map<string, Word>, lineNumber: Word)

  /** The first pass's callback on one line. */
  function TagStep(p: Pass1, rawLine: string): Pass1 {
    var line := TrimSpace(rawLine);
    if !IsSignificant(line) then p
    else
      var tokens := Fields(line);
      if |tokens| == 0 || |tokens[0]| == 0 then p
      else
        var tagMap := if EndsWithColon(tokens[0]) then p.tagMap[tokens[0] := p.lineNumber] else p.tagMap;
        Pass1(tagMap, (p.lineNumber + 1) % 0x1_0000)
  }

  function TagPass(lines: seq<string>): Pass1 {
    if lines == [] then Pass1(map[], 0)
    else TagStep(TagPass(lines[..|lines| - 1]), lines[|lines| - 1])
  }

  /** The ROM words written so far and how the second pass stands. */
  datatype Pass2 =
    | Running(words: seq<Word>)
    | Aborted(words: seq<Word>, error: AsmError)
    | Crashed(words: seq<Word>)

  /** parseInstruction with the tag map of the first pass. */
  function LineParser(tagMap: map<string, Word>): string -> LineResult {
    line => ParseLine(line, tagMap)
  }

  /** The second pass's callback on the line with 0-based index index;
      parse is parseInstruction with the tag map fixed. */
  function Pass2Step(p: Pass2, index: nat, rawLine: string, parse: string -> LineResult): Pass2 {
    if !p.Running? then p
    else if |p.words| > 255 then Aborted(p.words, TooLong)
    else
      var line := TrimSpace(rawLine);
      if !IsSignificant(line) then p
      else
        match parse(line)
        case Encoded(w) => Running(p.words + [w])
        case Rejected(e) => Aborted(p.words, AtLine(index + 1, e))
        case IndexPanic => Crashed(p.words)
  }

  function Pass2Of(lines: seq<string>, parse: string -> LineResult): (p: Pass2)
    ensures |p.words| <= 256
    ensures p.Running? ==> |p.words| == SignificantCount(lines)
  {
    if lines == [] then Running([])
    else Pass2Step(Pass2Of(lines[..|lines| - 1], parse), |lines| - 1, lines[|lines| - 1], parse)
  }

  function OutcomeOf(p: Pass2): Outcome {
    match p
    case Running(words) => Assembled(|words|)
    case Aborted(_, error) => Failed(error)
    case Crashed(_) => Panicked
  }

  // ---- Assemble ----

  /** The first pass of Assemble, the tag map it builds and the line
      counter it ends with. */
  method FirstPass(lines: seq<string>) returns (tagMap: map<string, Word>, lineNumber: Word)
    ensures Pass1(tagMap, lineNumber) == TagPass(lines)
  {
    tagMap := map[];
    lineNumber := 0;
    for index := 0 to |lines|
      invariant Pass1(tagMap, lineNumber) == TagPass(lines[..index])
    {
      assert lines[..index + 1][..index] == lines[..index];
      assert TagPass(lines[..index + 1]) == TagStep(TagPass(lines[..index]), lines[index]);
      var line := TrimSpace(lines[index]);
      if |line| == 0 || HasPrefix(line, "//") || HasPrefix(line, "#") {
        continue;
      }
      var tokens := Fields(line);
      if |tokens| == 0 || |tokens[0]| == 0 {
        continue;
      }
      if tokens[0][|tokens[0]| - 1] == ':' {
        tagMap := tagMap[tokens[0] := lineNumber];
      }
      lineNumber := (lineNumber + 1) % 0x1_0000;
    }
    assert lines[..|lines|] == lines;
  }

  /** The second pass's callback on the line with 0-based index index: the
      length check, the skip of blank and comment lines, and the parse; a
      parsed word goes to programROM[lineNumber]. stop carries the outcome
      when the pass ends here. */
  method AssembleLine(index: nat, rawLine: string, tagMap: map<string, Word>, programROM: array<Word>, lineNumber: nat)
    returns (stop: Option<Outcome>, next: nat)
    requires programROM.Length == 256 && lineNumber <= 256
    modifies programROM
    ensures var p := Pass2Step(Running(old(programROM[..lineNumber])), index, rawLine, LineParser(tagMap));
      && (stop.None? <==> p.Running?)
      && (stop.Some? ==> stop.value == OutcomeOf(p))
      && lineNumber <= next == |p.words| <= 256
      && programROM[..next] == p.words
      && programROM[next..] == old(programROM[next..])
  {
    next := lineNumber;
    if lineNumber > 255 {
      return Some(Failed(TooLong)), next;
    }
    var line := TrimSpace(rawLine);
    if |line| == 0 || HasPrefix(line, "//") || HasPrefix(line, "#") {
      return None, next;
    }
    var encoded := ParseInstruction(line, tagMap);
    match encoded
    case Rejected(e) =>
      stop := Some(Failed(AtLine(index + 1, e)));
    case IndexPanic =>
      stop := Some(Panicked);
    case Encoded(w) =>
      programROM[lineNumber] := w;
      assert programROM[..lineNumber + 1] == old(programROM[..lineNumber]) + [w];
      stop, next := None, lineNumber + 1;
  }

  /** The second pass of Assemble: writes the words of the significant lines
      from the start of the ROM and stops at the first error. */
  method SecondPass(lines: seq<string>, tagMap: map<string, Word>, programROM: array<Word>) returns (outcome: Outcome, lineNumber: nat)
    requires programROM.Length == 256
    modifies programROM
    ensures var p := Pass2Of(lines, LineParser(tagMap));
      && lineNumber == |p.words|
      && programROM[..lineNumber] == p.words
      && programROM[lineNumber..] == old(programROM[lineNumber..])
      && outcome == OutcomeOf(p)
  {
    ghost var initial := programROM[..];
    lineNumber := 0;
    for index := 0 to |lines|
      invariant lineNumber <= 256
      invariant Pass2Of(lines[..index], LineParser(tagMap)) == Running(programROM[..lineNumber])
      invariant programROM[lineNumber..] == initial[lineNumber..]
    {
      assert lines[..index + 1][..index] == lines[..index];
      ghost var before := programROM[..];
      ghost var start := lineNumber;
      var stop;
      stop, lineNumber := AssembleLine(index, lines[index], tagMap, programROM, lineNumber);
      FrameStep(before, programROM[..], initial, start, lineNumber);
      if stop.Some? {
        PassStopsAfter(lines, index + 1, LineParser(tagMap));
        return stop.value, lineNumber;
      }
    }
    assert lines[..|lines|] == lines;
    outcome := Assembled(lineNumber);
  }

  /** Once the second pass has stopped, further lines change nothing. */
  lemma {:induction false} PassStopsAfter(lines: seq<string>, k: nat, parse: string -> LineResult)
    requires k <= |lines| && !Pass2Of(lines[..k], parse).Running?
    ensures Pass2Of(lines, parse) == Pass2Of(lines[..k], parse)
    decreases |lines| - k
  {
    if k < |lines| {
      assert lines[..k + 1][..k] == lines[..k];
      PassStopsAfter(lines, k + 1, parse);
    } else {
      assert lines[..k] == lines;
    }
  }

  /** Assemble: the first pass fills the tag map, the second writes one word
      per significant line and stops at the first error; on success the
      rest of the ROM is cleared and the count returned. */
  method Assemble(assembly: string, programROM: array<Word>) returns (outcome: Outcome)
    requires programROM.Length == 256
    modifies programROM
    ensures var lines := SplitLines(assembly);
      var p := Pass2Of(lines, LineParser(TagPass(lines).tagMap));
      && outcome == OutcomeOf(p)
      && programROM[..|p.words|] == p.words
      && (p.Running? ==> forall i :: |p.words| <= i < 256 ==> programROM[i] == 0)
      && (!p.Running? ==> programROM[|p.words|..] == old(programROM[|p.words|..]))
  {
    var lines := SplitLines(assembly);
    var tagMap, _ := FirstPass(lines);
    var lineNumber;
    outcome, lineNumber := SecondPass(lines, tagMap, programROM);
    if !outcome.Assembled? {
      return;
    }
    // clear the rest of the ROM
    ghost var words := programROM[..lineNumber];
    for i := lineNumber to 256
      invariant programROM[..lineNumber] == words
      invariant forall j :: lineNumber <= j < i ==> programROM[j] == 0
    {
      programROM[i] := 0;
    }
  }

  // ---- properties of the first pass ----

  /** The first pass counts the significant lines, modulo 2^16 (its counter
      is a uint16). */
  lemma {:induction false} TagPassCountsSignificantLines(lines: seq<string>)
    ensures TagPass(lines).lineNumber == SignificantCount(lines) % 0x1_0000
  {
    if lines != [] {
      var init := lines[..|lines| - 1];
      var last := lines[|lines| - 1];
      TagPassCountsSignificantLines(init);
      var n := SignificantCount(init);
      if IsSignificant(TrimSpace(last)) {
        SignificantLineHasFields(last);
        assert TagPass(lines).lineNumber == (TagPass(init).lineNumber + 1) % 0x1_0000;
        assert SignificantCount(lines) == n + 1;
        IncrementModulo(n);
      } else {
        assert TagPass(lines) == TagPass(init);
        assert SignificantCount(lines) == n;
      }
    }
  }

  /** rawLine's first token is tag, and tag ends in ':'. */
  predicate DefinesTag(rawLine: string, tag: string) {
    var line := TrimSpace(rawLine);
    IsSignificant(line) && |Fields(line)| > 0 && Fields(line)[0] == tag && EndsWithColon(tag)
  }

  /** A tag maps to the significant-line index of its last definition. */
  lemma {:induction false} TagIsLastDefinition(lines: seq<string>, k: nat, tag: string)
    requires k < |lines| && DefinesTag(lines[k], tag)
    requires forall j :: k < j < |lines| ==> !DefinesTag(lines[j], tag)
    ensures tag in TagPass(lines).tagMap
    ensures TagPass(lines).tagMap[tag] == SignificantCount(lines[..k]) % 0x1_0000
  {
    var init := lines[..|lines| - 1];
    if k == |lines| - 1 {
      assert init == lines[..k];
      TagPassCountsSignificantLines(init);
    } else {
      assert init[..k] == lines[..k];
      TagIsLastDefinition(init, k, tag);
    }
  }

  /** Every tag in the map was defined by some line. */
  lemma {:induction false} TagsComeFromDefinitions(lines: seq<string>, tag: string)
    requires tag in TagPass(lines).tagMap
    ensures exists k :: 0 <= k < |lines| && DefinesTag(lines[k], tag)
  {
    var init := lines[..|lines| - 1];
    var last := lines[|lines| - 1];
    if DefinesTag(last, tag) {
      assert DefinesTag(lines[|lines| - 1], tag);
    } else {
      TagsComeFromDefinitions(init, tag);
      var k :| 0 <= k < |init| && DefinesTag(init[k], tag);
      assert lines[k] == init[k];
    }
  }

  /** An immediate naming a tag resolves to the low byte of the index of the
      tag's last definition, wherever that definition is, before or after
      the use. */
  lemma TagOperandResolves(lines: seq<string>, k: nat, tag: string)
    requires k < |lines| && DefinesTag(lines[k], tag)
    requires forall j :: k < j < |lines| ==> !DefinesTag(lines[j], tag)
    ensures ParseImm(tag, TagPass(lines).tagMap) == Ok(SignificantCount(lines[..k]) % 0x1_0000 % 256)
  {
    TagIsLastDefinition(lines, k, tag);
  }

  // ---- properties of the second pass ----

  /** An error names the 1-based number of the physical line it comes from:
      that line is significant, every line before it was assembled, and
      parsing it gives the reported cause. */
  lemma {:induction false} ErrorNamesItsLine(lines: seq<string>, parse: string -> LineResult)
    ensures var p := Pass2Of(lines, parse);
      p.Aborted? && p.error.AtLine? ==>
        var n := p.error.line;
        && 1 <= n <= |lines|
        && Pass2Of(lines[..n - 1], parse).Running?
        && IsSignificant(TrimSpace(lines[n - 1]))
        && parse(TrimSpace(lines[n - 1])) == Rejected(p.error.cause)
  {
    if lines != [] {
      var init := lines[..|lines| - 1];
      ErrorNamesItsLine(init, parse);
      var q := Pass2Of(init, parse);
      if q.Aborted? && q.error.AtLine? {
        var n := q.error.line;
        assert lines[..n - 1] == init[..n - 1];
        assert lines[n - 1] == init[n - 1];
      } else if q.Running? {
        assert lines[..|lines| - 1] == init;
      }
    }
  }

  /** Once 256 words are written, any further line, even a blank one or a
      comment, ends the pass with "program is too long". */
  lemma TooLongAfterFullRom(lines: seq<string>, k: nat, parse: string -> LineResult)
    requires k < |lines|
    requires Pass2Of(lines[..k], parse).Running? && |Pass2Of(lines[..k], parse).words| == 256
    ensures Pass2Of(lines, parse) == Aborted(Pass2Of(lines[..k], parse).words, TooLong)
  {
    assert lines[..k + 1][..k] == lines[..k];
    PassStopsAfter(lines, k + 1, parse);
  }

  // ---- properties of one line ----

  /** Tokens beyond those the format needs are never looked at. */
  lemma ExtraTokensIgnored(tokens: seq<string>, extra: seq<string>, tagMap: map<string, Word>)
    requires tokens != [] && tokens[0] in Instructions
    requires |tokens| >= MinTokens(Instructions[tokens[0]].format)
    ensures ParseTokens(tokens + extra, tagMap) == ParseTokens(tokens, tagMap)
  {
    var all := tokens + extra;
    assert all[0] == tokens[0] && all[1] == tokens[1] && all[2] == tokens[2];
    if |tokens| > 3 {
      assert all[3] == tokens[3];
    }
  }

  /** The operand variables parseInstruction ends with for OperandTokens. */
  function NamedOperands(format: Format, a: Nibble, b: Nibble, c: Nibble, imm: Byte): Operands {
    match format
    case AB => Operands(a, b, 0, 0)
    case CA => Operands(a, 0, c, 0)
    case CAB => Operands(a, b, c, 0)
    case CImm => Operands(0, 0, c, imm)
    case ImmC => Operands(0, 0, c, imm)
  }

  lemma ParseOperandsOfNames(m: string, format: Format, a: Nibble, b: Nibble, c: Nibble, imm: Byte, tagMap: map<string, Word>)
    ensures var tokens := [m] + OperandTokens(format, a, b, c, imm);
      |tokens| >= MinTokens(format) &&
      ParseOperands(format, tokens, tagMap) == Ok(NamedOperands(format, a, b, c, imm))
  {
    ParseRegOfName(a);
    ParseRegOfName(b);
    ParseRegOfName(c);
    DecimalIsField(imm);
    ParseUint8OfDecimal(imm);
  }

  /** A line whose fields are a table mnemonic and its operands is parsed
      from those fields, with no tag and no pseudo-instruction rewriting. */
  lemma ParseLineOfInstruction(line: string, tokens: seq<string>, tagMap: map<string, Word>)
    requires Fields(line) == tokens && tokens != [] && tokens[0] in Instructions
    ensures ParseLine(line, tagMap) == ParseTokens(tokens, tagMap)
  {
    MnemonicIsField(tokens[0]);
    assert WithoutTag(tokens) == tokens;
    assert Expansion(tokens).None?;
  }

  /** Assembling a line and decoding the word gives back the instruction's
      opcode and the operands it was written with; the fields its format
      does not name are 0. */
  lemma AssembleThenDecode(mnemonic: string, a: Nibble, b: Nibble, c: Nibble, imm: Byte, tagMap: map<string, Word>)
    requires mnemonic in Instructions
    ensures var instruction := Instructions[mnemonic];
      var tokens := [mnemonic] + OperandTokens(instruction.format, a, b, c, imm);
      var r := ParseLine(StringAddons.Join(tokens, ' '), tagMap);
      && r.Encoded?
      && OpcodeOf(r.word) == instruction.opcode
      && (instruction.format == AB ==> FieldA(r.word) == a && FieldB(r.word) == b && FieldC(r.word) == 0)
      && (instruction.format == CA ==> FieldA(r.word) == a && FieldB(r.word) == 0 && FieldC(r.word) == c)
      && (instruction.format == CAB ==> FieldA(r.word) == a && FieldB(r.word) == b && FieldC(r.word) == c)
      && (instruction.format in {CImm, ImmC} ==> FieldImm(r.word) == imm && FieldC(r.word) == c)
  {
    var instruction := Instructions[mnemonic];
    var tokens := InstructionTokens(mnemonic, a, b, c, imm);
    FieldsOfInstruction(mnemonic, a, b, c, imm);
    ParseLineOfInstruction(StringAddons.Join(tokens, ' '), tokens, tagMap);
    ParseOperandsOfNames(mnemonic, instruction.format, a, b, c, imm, tagMap);
    var ops := NamedOperands(instruction.format, a, b, c, imm);
    assert ParseTokens(tokens, tagMap) == Encoded(EncodeOperands(instruction, ops));
  }

  // ---- pseudo-instructions ----

  /** A bare NOP keeps only "ADD" of its expansion and fails the operand
      count; a bare EXIT likewise. */
  lemma BarePseudoInstructionsAreRejected(tagMap: map<string, Word>)
    ensures ParseLine("NOP", tagMap) == Rejected(NotEnoughArgs(3, 0))
    ensures ParseLine("EXIT", tagMap) == Rejected(NotEnoughArgs(2, 0))
  {
    BareNopIsRejected(tagMap);
    BareExitIsRejected(tagMap);
  }

  lemma BareNopIsRejected(tagMap: map<string, Word>)
    ensures ParseLine("NOP", tagMap) == Rejected(NotEnoughArgs(3, 0))
  {
    BareLineParsesAlone("NOP", tagMap);
    BareNopIsShortAdd(tagMap);
  }

  lemma BareExitIsRejected(tagMap: map<string, Word>)
    ensures ParseLine("EXIT", tagMap) == Rejected(NotEnoughArgs(2, 0))
  {
    BareLineParsesAlone("EXIT", tagMap);
    BareExitIsShortJmpl(tagMap);
  }

  /** A single untagged word is parsed as a one-token instruction. */
  lemma BareLineParsesAlone(w: string, tagMap: map<string, Word>)
    requires w != [] && NoSpace(w) && !EndsWithColon(w)
    requires w != "MOV" && w != "JMP"
    ensures ParseLine(w, tagMap) == ParseTokens(ConvertPseudo([w]), tagMap)
  {
    FieldsOfWord(w);
    assert WithoutTag([w]) == [w];
  }

  lemma BareNopIsShortAdd(tagMap: map<string, Word>)
    ensures ParseTokens(ConvertPseudo(["NOP"]), tagMap) == Rejected(NotEnoughArgs(3, 0))
  {
    assert ConvertPseudo(["NOP"]) == ["ADD"];
    assert Instructions["ADD"].format == CAB;
  }

  lemma BareExitIsShortJmpl(tagMap: map<string, Word>)
    ensures ParseTokens(ConvertPseudo(["EXIT"]), tagMap) == Rejected(NotEnoughArgs(2, 0))
  {
    assert ConvertPseudo(["EXIT"]) == ["JMPL"];
    assert Instructions["JMPL"].format == CA;
  }

  /** MOV d s and JMP t as normally written are rejected: the copy keeps
      as many tokens as were written, so MOV keeps ["ADD", d, "r0"] without
      its second source and JMP keeps ["BEQ", t] without r15. */
  lemma MovAndJmpAreRejected(d: string, src: string, t: string, tagMap: map<string, Word>)
    requires d != [] && NoSpace(d) && src != [] && NoSpace(src) && t != [] && NoSpace(t)
    ensures ParseLine(StringAddons.Join(["MOV", d, src], ' '), tagMap) == Rejected(NotEnoughArgs(3, 2))
    ensures ParseLine(StringAddons.Join(["JMP", t], ' '), tagMap) == Rejected(NotEnoughArgs(2, 1))
  {
    MovIsRejected(d, src, tagMap);
    JmpIsRejected(t, tagMap);
  }

  lemma MovIsRejected(d: string, src: string, tagMap: map<string, Word>)
    requires d != [] && NoSpace(d) && src != [] && NoSpace(src)
    ensures ParseLine(StringAddons.Join(["MOV", d, src], ' '), tagMap) == Rejected(NotEnoughArgs(3, 2))
  {
    PseudoLineTokens(["MOV", d, src], tagMap);
    MovExpansion(d, src);
    ShortAdd(ConvertPseudo(["MOV", d, src]), tagMap);
  }

  lemma JmpIsRejected(t: string, tagMap: map<string, Word>)
    requires t != [] && NoSpace(t)
    ensures ParseLine(StringAddons.Join(["JMP", t], ' '), tagMap) == Rejected(NotEnoughArgs(2, 1))
  {
    PseudoLineTokens(["JMP", t], tagMap);
    JmpExpansion(t);
    ShortBeq(ConvertPseudo(["JMP", t]), tagMap);
  }

  /** A line of clean words starting with a pseudo name is parsed from the
      converted words. */
  lemma PseudoLineTokens(words: seq<string>, tagMap: map<string, Word>)
    requires |words| >= 2 && words[0] in {"MOV", "JMP"}
    requires forall k :: 0 <= k < |words| ==> words[k] != [] && NoSpace(words[k])
    requires words[0] == "MOV" ==> |words| >= 3
    ensures !PseudoPanics(words)
    ensures ParseLine(StringAddons.Join(words, ' '), tagMap) == ParseTokens(ConvertPseudo(words), tagMap)
  {
    FieldsOfJoin(words);
    assert !EndsWithColon(words[0]);
    assert WithoutTag(words) == words;
  }

  lemma MovExpansion(d: string, src: string)
    ensures !PseudoPanics(["MOV", d, src])
    ensures ConvertPseudo(["MOV", d, src]) == ["ADD", d, "r0"]
  {
    assert Expansion(["MOV", d, src]) == Some(["ADD", d, "r0", src]);
  }

  lemma JmpExpansion(t: string)
    ensures !PseudoPanics(["JMP", t])
    ensures ConvertPseudo(["JMP", t]) == ["BEQ", t]
  {
    assert Expansion(["JMP", t]) == Some(["BEQ", t, "r15"]);
  }

  lemma ShortAdd(tokens: seq<string>, tagMap: map<string, Word>)
    requires |tokens| == 3 && tokens[0] == "ADD"
    ensures ParseTokens(tokens, tagMap) == Rejected(NotEnoughArgs(3, 2))
  {
    assert Instructions["ADD"].format == CAB;
  }

  lemma ShortBeq(tokens: seq<string>, tagMap: map<string, Word>)
    requires |tokens| == 2 && tokens[0] == "BEQ"
    ensures ParseTokens(tokens, tagMap) == Rejected(NotEnoughArgs(2, 1))
  {
    assert Instructions["BEQ"].format == ImmC;
  }

  /** Written with enough tokens, EXIT becomes JMPL r0 r0, the word 0xD000,
      whatever those tokens were. */
  lemma ExitWithOperandsIsExitInstruction(x: string, y: string, tagMap: map<string, Word>)
    requires x != [] && NoSpace(x)
    requires y != [] && NoSpace(y)
    ensures ParseLine(StringAddons.Join(["EXIT", x, y], ' '), tagMap) == Encoded(ExitInstruction)
  {
    ExitLineTokens(x, y, tagMap);
    ExitExpansion(x, y);
    JmplR0R0IsExit(ConvertPseudo(["EXIT", x, y]), tagMap);
  }

  lemma ExitLineTokens(x: string, y: string, tagMap: map<string, Word>)
    requires x != [] && NoSpace(x)
    requires y != [] && NoSpace(y)
    ensures !PseudoPanics(["EXIT", x, y])
    ensures ParseLine(StringAddons.Join(["EXIT", x, y], ' '), tagMap)
         == ParseTokens(ConvertPseudo(["EXIT", x, y]), tagMap)
  {
    var words := ["EXIT", x, y];
    assert NoSpace(words[0]);
    FieldsOfJoin(words);
    assert WithoutTag(words) == words;
  }

  lemma ExitExpansion(x: string, y: string)
    ensures !PseudoPanics(["EXIT", x, y])
    ensures ConvertPseudo(["EXIT", x, y]) == ["JMPL", "r0", "r0"]
  {
    assert Expansion(["EXIT", x, y]) == Some(["JMPL", "r0", "r0"]);
  }

  lemma JmplR0R0IsExit(tokens: seq<string>, tagMap: map<string, Word>)
    requires tokens == ["JMPL", "r0", "r0"]
    ensures ParseTokens(tokens, tagMap) == Encoded(ExitInstruction)
  {
    JmplTokenIsListed(tokens);
    OperandsOfJmplR0R0(tokens, tagMap);
    JmplTokensEncode(tokens, tagMap);
    JmplR0R0Word();
  }

  lemma JmplR0R0Word()
    ensures EncodeOperands(Instruction(13, CA), Operands(0, 0, 0, 0)) == ExitInstruction
  {
    ExitIsJmplR0R0();
  }

  lemma JmplTokenIsListed(tokens: seq<string>)
    requires tokens == ["JMPL", "r0", "r0"]
    ensures tokens[0] in Instructions && Instructions[tokens[0]] == Instruction(13, CA)
  {
    JmplEntry();
    assert tokens[0] == "JMPL";
  }

  lemma JmplTokensEncode(tokens: seq<string>, tagMap: map<string, Word>)
    requires |tokens| == 3 && tokens[0] in Instructions && Instructions[tokens[0]] == Instruction(13, CA)
    requires ParseOperands(CA, tokens, tagMap) == Ok(Operands(0, 0, 0, 0))
    ensures ParseTokens(tokens, tagMap) == Encoded(EncodeOperands(Instruction(13, CA), Operands(0, 0, 0, 0)))
  {
    KnownInstructionEncodes(tokens, Instruction(13, CA), Operands(0, 0, 0, 0), tagMap);
  }

  lemma JmplEntry()
    ensures "JMPL" in Instructions && Instructions["JMPL"] == Instruction(13, CA)
  {
  }

  /** Tokens naming a listed mnemonic, long enough for its format and with
      operands that parse, encode those operands under that mnemonic. */
  lemma KnownInstructionEncodes(tokens: seq<string>, instruction: Instruction, ops: Operands, tagMap: map<string, Word>)
    requires tokens != [] && tokens[0] in Instructions && Instructions[tokens[0]] == instruction
    requires |tokens| >= MinTokens(instruction.format)
    requires ParseOperands(instruction.format, tokens, tagMap) == Ok(ops)
    ensures ParseTokens(tokens, tagMap) == Encoded(EncodeOperands(instruction, ops))
  {
  }

  lemma OperandsOfJmplR0R0(tokens: seq<string>, tagMap: map<string, Word>)
    requires tokens == ["JMPL", "r0", "r0"]
    ensures ParseOperands(CA, tokens, tagMap) == Ok(Operands(0, 0, 0, 0))
  {
    RegisterZeroParses();
    assert tokens[1] == "r0" && tokens[2] == "r0";
  }

  lemma RegisterZeroParses()
    ensures ParseReg("r0") == Ok(0)
  {
    ParseRegOfName(0);
    assert RegisterName(0) == "r0";
  }

  /** A line holding only a tag makes parseInstruction index an empty token
      slice: the Go runtime panics. */
  lemma TagOnlyLinePanics(tagMap: map<string, Word>)
    ensures ParseLine("loop:", tagMap) == IndexPanic
  {
    FieldsOfWord("loop:");
  }
}
