/** The assembler of the desktop application (src/assembler.go). It follows
    the same two-pass plan as the web assembler, with these differences of
    its own: the tag map is a package-level variable reset on every call;
    empty text is refused; a trimmed line shorter than two characters counts
    as a comment; the first pass takes the tag from the text before the first
    plain space; pseudo-instructions are replaced by a fresh token list;
    errors carry the 0-based line index; the rest of the ROM is cleared even
    after an error, and the length is returned as a uint8. */
module DesktopAssembler {
  import opened Wrappers
  import opened Isa
  import opened GoText
  import opened AsmText
  import StringAddons

  /** The errors of parseReg and parseImm; each names the line index. */
  datatype OperandError =
    | RegisterEmpty(line: Word)                      // "Error parsing register"
    | RegisterSyntax(line: Word, digits: string)     // "Failed to parse register"
    | RegisterOutOfRange(line: Word, digits: string)
    | ImmediateEmpty(line: Word)                     // "Error parsing immediate"
    | UnknownTag(line: Word, tag: string)
    | ImmediateSyntax(line: Word, text: string)      // "Failed to parse immediate"

  /** The errors AssembleFile returns. */
  datatype AsmError =
    | FileEmpty
    | TooLong
    | ParseFailed(line: Word)                        // "Error parsing instruction"
    | UnknownInstruction(line: Word, mnemonic: string)
    | NotEnoughArgs(line: Word, expected: int, got: int)
    /** An operand error wrapped with the raw line and the final tokens. */
    | OperandFailed(line: Word, raw: string, tokens: seq<string>, cause: OperandError)

  /** What parseInstruction gives for one trimmed line. */
  datatype LineResult = Encoded(word: Word) | Rejected(error: AsmError) | IndexPanic

  /** What AssembleFile ends with: the uint8 length and the error, or an
      index-out-of-range panic of the Go runtime. */
  datatype Outcome = Returned(length: Byte, error: Option<AsmError>) | Panicked

  datatype Operands = Operands(a: Nibble, b: Nibble, c: Nibble, imm: Byte)

  // ---- helpers ----

  /** isLineCommentOrEmpty: fewer than two characters, or a '#' or "//"
      comment. */
  predicate IsLineCommentOrEmpty(line: string) {
    |line| < 2 || line[0] == '#' || (line[0] == '/' && line[1] == '/')
  }

  /** input without one leading 'r'. */
  function Unprefixed(input: string): string {
    if input != [] && input[0] == 'r' then input[1..] else input
  }

  /** parseReg: one optional leading 'r', then a decimal of at most 15. */
  function ParseReg(input: string, sln: Word): (r: Result<Nibble, OperandError>)
    ensures input == [] ==> r == Err(RegisterEmpty(sln))
    ensures r.Ok? ==> AllDigits(Unprefixed(input)) && DecimalValue(Unprefixed(input)) == r.value
    ensures r.Err? && input != [] ==> r.error in {RegisterSyntax(sln, Unprefixed(input)), RegisterOutOfRange(sln, Unprefixed(input))}
  {
    if |input| == 0 then Err(RegisterEmpty(sln))
    else
      var digits := Unprefixed(input);
      match ParseUint8(digits)
      case None => Err(RegisterSyntax(sln, digits))
      case Some(reg) => if reg > 15 then Err(RegisterOutOfRange(sln, digits)) else Ok(reg)
  }

  lemma ParseRegOfName(n: Nibble, sln: Word)
    ensures ParseReg(RegisterName(n), sln) == Ok(n)
    ensures ParseReg(Decimal(n), sln) == Ok(n)
  {
    assert Unprefixed(RegisterName(n)) == Decimal(n);
  }

  /** parseImm, reading the tag map: a token ending in ':' is a tag and gives
      the low byte of its line index; anything else is a decimal of at most
      255. */
  function ParseImm(input: string, sln: Word, lineTagMap: map<string, Word>): (r: Result<Byte, OperandError>)
    ensures r.Ok? && EndsWithColon(input) ==> input in lineTagMap && r.value == lineTagMap[input] % 256
    ensures r.Ok? && !EndsWithColon(input) ==> AllDigits(input) && DecimalValue(input) == r.value
    ensures EndsWithColon(input) && input !in lineTagMap ==> r == Err(UnknownTag(sln, input))
  {
    if |input| == 0 then Err(ImmediateEmpty(sln))
    else if EndsWithColon(input) then
      if input in lineTagMap then Ok(lineTagMap[input] % 256) else Err(UnknownTag(sln, input))
    else
      match ParseUint8(input)
      case Some(imm) => Ok(imm)
      case None => Err(ImmediateSyntax(sln, input))
  }

  /** Whether convertPseudoIfPresent indexes past the tokens. */
  predicate PseudoPanics(tokens: seq<string>) {
    tokens == [] || (tokens[0] == "MOV" && |tokens| < 3) || (tokens[0] == "JMP" && |tokens| < 2)
  }

  /** convertPseudoIfPresent: a pseudo-instruction is replaced by a new token
      list; anything else is returned as it is. */
  function ConvertPseudoIfPresent(tokens: seq<string>): (r: seq<string>)
    requires !PseudoPanics(tokens)
    ensures r != []
    ensures tokens[0] !in ["NOP", "MOV", "JMP", "EXIT"] ==> r == tokens
  {
    if tokens[0] == "NOP" then ["ADD", "r0", "r0", "r0"]
    else if tokens[0] == "MOV" then ["ADD", tokens[1], "r0", tokens[2]]
    else if tokens[0] == "JMP" then ["BEQ", tokens[1], "r15"]
    else if tokens[0] == "EXIT" then ["JMPL", "r0", "r0"]
    else tokens
  }

  /** The number of tokens, mnemonic included, a format needs at least. */
  function MinTokens(format: Format): nat {
    if format == CAB then 4 else 3
  }

  /** The operand part of parseInstruction: the operands in the order the
      format names them, stopping at the first error. */
  function ParseOperands(format: Format, tokens: seq<string>, sln: Word, lineTagMap: map<string, Word>): Result<Operands, OperandError>
    requires |tokens| >= MinTokens(format)
  {
    match format
    case AB =>
      var a :- ParseReg(tokens[1], sln);
      var b :- ParseReg(tokens[2], sln);
      Ok(Operands(a, b, 0, 0))
    case CA =>
      var c :- ParseReg(tokens[1], sln);
      var a :- ParseReg(tokens[2], sln);
      Ok(Operands(a, 0, c, 0))
    case CAB =>
      var c :- ParseReg(tokens[1], sln);
      var a :- ParseReg(tokens[2], sln);
      var b :- ParseReg(tokens[3], sln);
      Ok(Operands(a, b, c, 0))
    case CImm =>
      var c :- ParseReg(tokens[1], sln);
      var imm :- ParseImm(tokens[2], sln, lineTagMap);
      Ok(Operands(0, 0, c, imm))
    case ImmC =>
      var imm :- ParseImm(tokens[1], sln, lineTagMap);
      var c :- ParseReg(tokens[2], sln);
      Ok(Operands(0, 0, c, imm))
  }

  /** A word without white space is its own trimmed form. */
  lemma TrimSpaceOfWord(w: string)
    requires w != [] && NoSpace(w)
    ensures TrimSpace(w) == w
  {
  }

  /** The tokens from the mnemonic on: a leading tag is dropped. */
  function WithoutTag(tokens: seq<string>): seq<string>
    requires tokens != []
  {
    if EndsWithColon(tokens[0]) then tokens[1..] else tokens
  }

  /** Looks the mnemonic up, checks the operand count, parses the operands
      and encodes them; an operand error is wrapped with the raw line and
      the tokens. */
  function ParseTokens(tokens: seq<string>, line: string, sln: Word, lineTagMap: map<string, Word>): LineResult
    requires tokens != []
  {
    if tokens[0] !in Instructions then Rejected(UnknownInstruction(sln, tokens[0]))
    else
      var inst := Instructions[tokens[0]];
      var minArgCount := MinTokens(inst.format);
      if |tokens| < minArgCount then Rejected(NotEnoughArgs(sln, minArgCount - 1, |tokens| - 1))
      else
        match ParseOperands(inst.format, tokens, sln, lineTagMap)
        case Err(e) => Rejected(OperandFailed(sln, line, tokens, e))
        case Ok(ops) =>
          if inst.format == CImm || inst.format == ImmC then Encoded(EncodeImm(inst.opcode, ops.imm, ops.c))
          else Encoded(Encode(inst.opcode, ops.a, ops.b, ops.c))
  }

  /** parseInstruction on a trimmed line with line index sln, with the
      fields taken as they come: trimming them changes nothing (see the
      method below). */
  function ParseLine(line: string, sln: Word, lineTagMap: map<string, Word>): LineResult {
    var fields := Fields(line);
    if |fields| < 1 then Rejected(ParseFailed(sln))
    else
      var untagged := WithoutTag(fields);
      if PseudoPanics(untagged) then IndexPanic
      else ParseTokens(ConvertPseudoIfPresent(untagged), line, sln, lineTagMap)
  }

  /** parseInstruction: splits the line, trims every token, drops a leading
      tag, expands a pseudo-instruction and encodes the result. */
  method ParseInstruction(line: string, sln: Word, lineTagMap: map<string, Word>) returns (r: LineResult)
    ensures r == ParseLine(line, sln, lineTagMap)
  {
    var rawTokens := Fields(line);
    if |rawTokens| < 1 {
      return Rejected(ParseFailed(sln));
    }
    ghost var fields := rawTokens;
    FieldsAreWords(line);
    for i := 0 to |rawTokens|
      invariant rawTokens == fields
    {
      TrimSpaceOfWord(fields[i]);
      rawTokens := rawTokens[i := TrimSpace(rawTokens[i])];
    }
    if rawTokens[0][|rawTokens[0]| - 1] == ':' {
      rawTokens := rawTokens[1..];
    }
    if PseudoPanics(rawTokens) {
      return IndexPanic;
    }
    var tokens := ConvertPseudoIfPresent(rawTokens);
    r := ParseTokens(tokens, line, sln, lineTagMap);
  }

  // ---- the two passes, as functions of the lines read so far ----

  datatype Pass1 = Pass1(lineTagMap: map<string, Word>, lineNumber: Word)

  /** The first pass's callback: the tag is the text before the first plain
      space of the trimmed line. */
  function TagStep(p: Pass1, rawLine: string): Pass1 {
    var line := TrimSpace(rawLine);
    if IsLineCommentOrEmpty(line) then p
    else
      var firstToken := FirstSpaceToken(line);
      var tags := if EndsWithColon(firstToken) then p.lineTagMap[firstToken := p.lineNumber] else p.lineTagMap;
      Pass1(tags, (p.lineNumber + 1) % 0x1_0000)
  }

  function TagPass(lines: seq<string>): Pass1 {
    if lines == [] then Pass1(map[], 0)
    else TagStep(TagPass(lines[..|lines| - 1]), lines[|lines| - 1])
  }

  function SignificantCount(lines: seq<string>): nat {
    if lines == [] then 0
    else SignificantCount(lines[..|lines| - 1]) + (if IsLineCommentOrEmpty(TrimSpace(lines[|lines| - 1])) then 0 else 1)
  }

  datatype Pass2 =
    | Running(words: seq<Word>)
    | Aborted(words: seq<Word>, error: AsmError)
    | Crashed(words: seq<Word>)

  /** parseInstruction with the tag map of the first pass. */
  function LineParser(lineTagMap: map<string, Word>): (string, Word) -> LineResult {
    (line: string, sln: Word) => ParseLine(line, sln, lineTagMap)
  }

  /** The second pass's callback on the line with 0-based index index, which
      is also the source line number it reports (a uint16). */
  function Pass2Step(p: Pass2, index: nat, rawLine: string, parse: (string, Word) -> LineResult): Pass2 {
    if !p.Running? then p
    else if |p.words| > 255 then Aborted(p.words, TooLong)
    else
      var line := TrimSpace(rawLine);
      if IsLineCommentOrEmpty(line) then p
      else
        match parse(line, index % 0x1_0000)
        case Encoded(w) => Running(p.words + [w])
        case Rejected(e) => Aborted(p.words, e)
        case IndexPanic => Crashed(p.words)
  }

  function Pass2Of(lines: seq<string>, parse: (string, Word) -> LineResult): (p: Pass2)
    ensures |p.words| <= 256
    ensures p.Running? ==> |p.words| == SignificantCount(lines)
  {
    if lines == [] then Running([])
    else Pass2Step(Pass2Of(lines[..|lines| - 1], parse), |lines| - 1, lines[|lines| - 1], parse)
  }

  /** What AssembleFile returns once the second pass is over: the length
      truncated to a uint8 and the error, if any. */
  function OutcomeOf(p: Pass2): Outcome {
    match p
    case Running(words) => Returned(|words| % 256, None)
    case Aborted(words, error) => Returned(|words| % 256, Some(error))
    case Crashed(_) => Panicked
  }

  lemma {:induction false} PassStopsAfter(lines: seq<string>, k: nat, parse: (string, Word) -> LineResult)
    requires k <= |lines| && !Pass2Of(lines[..k], parse).Running?
    ensures Pass2Of(lines, parse) == Pass2Of(lines[..k], parse)
    decreases |lines| - k
  {
    if k < |lines| {
      assert lines[..k + 1][..k] == lines[..k];
      PassStopsAfter(lines, k + 1, parse);
    } else {
      assert lines[..k] == lines;
    }
  }

  // ---- AssembleFile ----

  /** The package state of the assembler: line_tag_map. */
  class Assembler {
    var lineTagMap: map<string, Word>

    constructor()
      ensures lineTagMap == map[]
    {
      lineTagMap := map[];
    }

    /** The first pass: records the tags in lineTagMap. */
    method FirstPass(lines: seq<string>)
      requires lineTagMap == map[]
      modifies this
      ensures lineTagMap == TagPass(lines).lineTagMap
    {
      var lineNumber: Word := 0;
      for index := 0 to |lines|
        invariant Pass1(lineTagMap, lineNumber) == TagPass(lines[..index])
      {
        assert lines[..index + 1][..index] == lines[..index];
        assert TagPass(lines[..index + 1]) == TagStep(TagPass(lines[..index]), lines[index]);
        var line := TrimSpace(lines[index]);
        if IsLineCommentOrEmpty(line) {
          continue;
        }
        var firstToken := FirstSpaceToken(line);
        if firstToken[|firstToken| - 1] == ':' {
          lineTagMap := lineTagMap[firstToken := lineNumber];
        }
        lineNumber := (lineNumber + 1) % 0x1_0000;
      }
      assert lines[..|lines|] == lines;
    }

    /** The second pass's callback on one line; srcLineNumber is the line
        index it reports. */
    method AssembleLine(index: nat, rawLine: string, prom: array<Word>, lineNumber: nat, srcLineNumber: Word)
      returns (err: Option<AsmError>, panicked: bool, next: nat)
      requires prom.Length == 256 && lineNumber <= 256 && srcLineNumber == index % 0x1_0000
      modifies prom
      ensures var p := Pass2Step(Running(old(prom[..lineNumber])), index, rawLine, LineParser(lineTagMap));
        && (panicked <==> p.Crashed?)
        && (err.Some? <==> p.Aborted?)
        && (err.Some? ==> err.value == p.error)
        && lineNumber <= next == |p.words| <= 256
        && prom[..next] == p.words
        && prom[next..] == old(prom[next..])
    {
      next := lineNumber;
      panicked := false;
      if lineNumber > 255 {
        return Some(TooLong), false, next;
      }
      var line := TrimSpace(rawLine);
      if IsLineCommentOrEmpty(line) {
        return None, false, next;
      }
      var encoded := ParseInstruction(line, srcLineNumber, lineTagMap);
      match encoded
      case Rejected(e) =>
        err := Some(e);
      case IndexPanic =>
        err, panicked := None, true;
      case Encoded(w) =>
        prom[lineNumber] := w;
        assert prom[..lineNumber + 1] == old(prom[..lineNumber]) + [w];
        err, next := None, lineNumber + 1;
    }

    /** The second pass: one word per significant line from the start of
        prom, up to the first error. */
    method SecondPass(lines: seq<string>, prom: array<Word>) returns (err: Option<AsmError>, panicked: bool, lineNumber: nat)
      requires prom.Length == 256
      modifies prom
      ensures var p := Pass2Of(lines, LineParser(lineTagMap));
        && (panicked <==> p.Crashed?)
        && (err.Some? <==> p.Aborted?)
        && (err.Some? ==> err.value == p.error)
        && lineNumber == |p.words|
        && prom[..lineNumber] == p.words
        && prom[lineNumber..] == old(prom[lineNumber..])
    {
      ghost var initial := prom[..];
      lineNumber := 0;
      var srcLineNumber: Word := 0;
      for index := 0 to |lines|
        invariant lineNumber <= 256
        invariant srcLineNumber == index % 0x1_0000
        invariant Pass2Of(lines[..index], LineParser(lineTagMap)) == Running(prom[..lineNumber])
        invariant prom[lineNumber..] == initial[lineNumber..]
      {
        assert lines[..index + 1][..index] == lines[..index];
        ghost var before := prom[..];
        ghost var start := lineNumber;
        err, panicked, lineNumber := AssembleLine(index, lines[index], prom, lineNumber, srcLineNumber);
        FrameStep(before, prom[..], initial, start, lineNumber);
        if err.Some? || panicked {
          PassStopsAfter(lines, index + 1, LineParser(lineTagMap));
          return;
        }
        IncrementModulo(index);
        srcLineNumber := (srcLineNumber + 1) % 0x1_0000;
      }
      assert lines[..|lines|] == lines;
      err, panicked := None, false;
    }

    /** AssembleFile on the text of the file: resets the tag map, refuses an
        empty text, runs both passes, clears prom from the final count on
        (after an error too) and returns the count as a uint8 with the error
        of the second pass. */
    method AssembleFile(rawFile: string, prom: array<Word>) returns (outcome: Outcome)
      requires prom.Length == 256
      modifies this, prom
      ensures rawFile == [] ==> outcome == Returned(0, Some(FileEmpty)) && lineTagMap == map[] && prom[..] == old(prom[..])
      ensures rawFile != [] ==>
        var lines := SplitLines(rawFile);
        var p := Pass2Of(lines, LineParser(TagPass(lines).lineTagMap));
        && lineTagMap == TagPass(lines).lineTagMap
        && outcome == OutcomeOf(p)
        && prom[..|p.words|] == p.words
        && (!p.Crashed? ==> forall i :: |p.words| <= i < 256 ==> prom[i] == 0)
        && (p.Crashed? ==> prom[|p.words|..] == old(prom[|p.words|..]))
    {
      lineTagMap := map[];
      if |rawFile| == 0 {
        return Returned(0, Some(FileEmpty));
      }
      var lines := SplitLines(rawFile);
      FirstPass(lines);
      var err, panicked, lineNumber := SecondPass(lines, prom);
      if panicked {
        return Panicked;
      }
      // clear the rest of prom, whatever the second pass ended with
      ghost var words := prom[..lineNumber];
      for i := lineNumber to 256
        modifies prom
        invariant prom[..lineNumber] == words
        invariant forall j :: lineNumber <= j < i ==> prom[j] == 0
      {
        prom[i] := 0;
      }
      return Returned(lineNumber % 256, err);
    }
  }

  // ---- properties of the first pass ----

  /** The first pass's counter moves on exactly at the lines it does not
      skip. */
  lemma TagStepCounts(p: Pass1, rawLine: string)
    ensures TagStep(p, rawLine).lineNumber ==
      if IsLineCommentOrEmpty(TrimSpace(rawLine)) then p.lineNumber else (p.lineNumber + 1) % 0x1_0000
  {
  }

  lemma {:induction false} TagPassCountsSignificantLines(lines: seq<string>)
    ensures TagPass(lines).lineNumber == SignificantCount(lines) % 0x1_0000
  {
    if lines != [] {
      var init := lines[..|lines| - 1];
      TagPassCountsSignificantLines(init);
      TagStepCounts(TagPass(init), lines[|lines| - 1]);
      IncrementModulo(SignificantCount(init));
    }
  }

  /** rawLine defines tag: its trimmed text is not skipped, and the text
      before its first plain space is tag, which ends in ':'. */
  predicate DefinesTag(rawLine: string, tag: string) {
    var line := TrimSpace(rawLine);
    !IsLineCommentOrEmpty(line) && FirstSpaceToken(line) == tag && EndsWithColon(tag)
  }

  /** One line records tag at the current count when it defines it, and
      leaves the tag's entry alone otherwise. */
  lemma TagStepRecords(p: Pass1, rawLine: string, tag: string)
    ensures DefinesTag(rawLine, tag) ==>
      tag in TagStep(p, rawLine).lineTagMap && TagStep(p, rawLine).lineTagMap[tag] == p.lineNumber
    ensures !DefinesTag(rawLine, tag) ==>
      (tag in TagStep(p, rawLine).lineTagMap <==> tag in p.lineTagMap) &&
      (tag in p.lineTagMap ==> TagStep(p, rawLine).lineTagMap[tag] == p.lineTagMap[tag])
  {
  }

  /** A tag maps to the index, among the lines that are not skipped, of its
      last definition. */
  lemma {:induction false} TagIsLastDefinition(lines: seq<string>, k: nat, tag: string)
    requires k < |lines| && DefinesTag(lines[k], tag)
    requires forall j :: k < j < |lines| ==> !DefinesTag(lines[j], tag)
    ensures tag in TagPass(lines).lineTagMap
    ensures TagPass(lines).lineTagMap[tag] == SignificantCount(lines[..k]) % 0x1_0000
  {
    var init := lines[..|lines| - 1];
    var last := lines[|lines| - 1];
    var before := TagPass(init);
    assert TagPass(lines) == TagStep(before, last);
    if k == |lines| - 1 {
      assert init == lines[..k];
      TagPassCountsSignificantLines(init);
      TagStepRecords(before, last, tag);
    } else {
      assert k < |init| && DefinesTag(init[k], tag) && forall j :: k < j < |init| ==> !DefinesTag(init[j], tag) by {
        assert forall j :: k < j < |init| ==> init[j] == lines[j];
      }
      TagIsLastDefinition(init, k, tag);
      assert init[..k] == lines[..k];
      assert !DefinesTag(last, tag);
      TagStepRecords(before, last, tag);
    }
  }

  /** Every tag in the map was defined by some line. */
  lemma {:induction false} TagsComeFromDefinitions(lines: seq<string>, tag: string)
    requires tag in TagPass(lines).lineTagMap
    ensures exists k :: 0 <= k < |lines| && DefinesTag(lines[k], tag)
  {
    var init := lines[..|lines| - 1];
    var last := lines[|lines| - 1];
    TagStepRecords(TagPass(init), last, tag);
    if DefinesTag(last, tag) {
      assert DefinesTag(lines[|lines| - 1], tag);
    } else {
      TagsComeFromDefinitions(init, tag);
      var k :| 0 <= k < |init| && DefinesTag(init[k], tag);
      assert lines[k] == init[k];
    }
  }

  // ---- properties of the second pass ----

  /** An operand error names the 0-based index of the physical line it comes
      from, as a uint16: that line is not skipped, every line before it was
      assembled, and parsing it gives the reported error. */
  lemma {:induction false} ErrorNamesItsLine(lines: seq<string>, parse: (string, Word) -> LineResult)
    ensures var p := Pass2Of(lines, parse);
      p.Aborted? && p.error != TooLong ==>
        exists n ::
          && 0 <= n < |lines|
          && Pass2Of(lines[..n], parse).Running?
          && !IsLineCommentOrEmpty(TrimSpace(lines[n]))
          && parse(TrimSpace(lines[n]), n % 0x1_0000) == Rejected(p.error)
  {
    if lines != [] {
      var init := lines[..|lines| - 1];
      ErrorNamesItsLine(init, parse);
      var q := Pass2Of(init, parse);
      if q.Aborted? && q.error != TooLong {
        var n :| 0 <= n < |init| && Pass2Of(init[..n], parse).Running?
          && !IsLineCommentOrEmpty(TrimSpace(init[n]))
          && parse(TrimSpace(init[n]), n % 0x1_0000) == Rejected(q.error);
        assert lines[..n] == init[..n];
        assert lines[n] == init[n];
      } else if q.Running? {
        assert lines[..|lines| - 1] == init;
      }
    }
  }

  /** Once 256 words are written, any further line, even a blank one or a
      comment, ends the pass with "program is too long". */
  lemma TooLongAfterFullRom(lines: seq<string>, k: nat, parse: (string, Word) -> LineResult)
    requires k < |lines|
    requires Pass2Of(lines[..k], parse).Running? && |Pass2Of(lines[..k], parse).words| == 256
    ensures Pass2Of(lines, parse) == Aborted(Pass2Of(lines[..k], parse).words, TooLong)
  {
    assert lines[..k + 1][..k] == lines[..k];
    PassStopsAfter(lines, k + 1, parse);
  }

  /** The length is returned as a uint8: a program that fills the whole ROM
      reports length 0, with or without the "too long" error. */
  lemma FullRomReportsLengthZero(p: Pass2)
    requires !p.Crashed? && |p.words| == 256
    ensures OutcomeOf(p).Returned? && OutcomeOf(p).length == 0
  {
  }

  // ---- properties of one line ----

  /** The operand variables parseInstruction ends with for OperandTokens. */
  function NamedOperands(format: Format, a: Nibble, b: Nibble, c: Nibble, imm: Byte): Operands {
    match format
    case AB => Operands(a, b, 0, 0)
    case CA => Operands(a, 0, c, 0)
    case CAB => Operands(a, b, c, 0)
    case CImm => Operands(0, 0, c, imm)
    case ImmC => Operands(0, 0, c, imm)
  }

  lemma ParseOperandsOfNames(m: string, format: Format, a: Nibble, b: Nibble, c: Nibble, imm: Byte, sln: Word, lineTagMap: map<string, Word>)
    ensures var tokens := [m] + OperandTokens(format, a, b, c, imm);
      |tokens| >= MinTokens(format) &&
      ParseOperands(format, tokens, sln, lineTagMap) == Ok(NamedOperands(format, a, b, c, imm))
  {
    ParseRegOfName(a, sln);
    ParseRegOfName(b, sln);
    ParseRegOfName(c, sln);
    DecimalIsField(imm);
    ParseUint8OfDecimal(imm);
  }

  /** The tokens of a written instruction encode to its opcode and the
      operands it names, in the layout of its format. */
  lemma ParseTokensOfInstruction(mnemonic: string, a: Nibble, b: Nibble, c: Nibble, imm: Byte, line: string, sln: Word, lineTagMap: map<string, Word>)
    requires mnemonic in Instructions
    ensures var inst := Instructions[mnemonic];
      var ops := NamedOperands(inst.format, a, b, c, imm);
      ParseTokens(InstructionTokens(mnemonic, a, b, c, imm), line, sln, lineTagMap) ==
        if inst.format in {CImm, ImmC} then Encoded(EncodeImm(inst.opcode, imm, c))
        else Encoded(Encode(inst.opcode, ops.a, ops.b, ops.c))
  {
    ParseOperandsOfNames(mnemonic, Instructions[mnemonic].format, a, b, c, imm, sln, lineTagMap);
  }

  /** A line whose fields do not start with a tag and leave enough tokens
      for the expansion is parsed from its expanded fields. */
  lemma ParseLineOfFields(line: string, tokens: seq<string>, sln: Word, lineTagMap: map<string, Word>)
    requires Fields(line) == tokens && tokens != [] && !EndsWithColon(tokens[0]) && !PseudoPanics(tokens)
    ensures ParseLine(line, sln, lineTagMap) == ParseTokens(ConvertPseudoIfPresent(tokens), line, sln, lineTagMap)
  {
  }

  /** Assembling a line and decoding the word gives back the instruction's
      opcode and the operands it was written with; the fields its format
      does not name are 0. */
  lemma AssembleThenDecode(mnemonic: string, a: Nibble, b: Nibble, c: Nibble, imm: Byte, sln: Word, lineTagMap: map<string, Word>)
    requires mnemonic in Instructions
    ensures var inst := Instructions[mnemonic];
      var r := ParseLine(StringAddons.Join(InstructionTokens(mnemonic, a, b, c, imm), ' '), sln, lineTagMap);
      && r.Encoded?
      && OpcodeOf(r.word) == inst.opcode
      && (inst.format == AB ==> FieldA(r.word) == a && FieldB(r.word) == b && FieldC(r.word) == 0)
      && (inst.format == CA ==> FieldA(r.word) == a && FieldB(r.word) == 0 && FieldC(r.word) == c)
      && (inst.format == CAB ==> FieldA(r.word) == a && FieldB(r.word) == b && FieldC(r.word) == c)
      && (inst.format in {CImm, ImmC} ==> FieldImm(r.word) == imm && FieldC(r.word) == c)
  {
    var tokens := InstructionTokens(mnemonic, a, b, c, imm);
    var line := StringAddons.Join(tokens, ' ');
    FieldsOfInstruction(mnemonic, a, b, c, imm);
    MnemonicIsField(mnemonic);
    assert ConvertPseudoIfPresent(tokens) == tokens;
    ParseLineOfFields(line, tokens, sln, lineTagMap);
    ParseTokensOfInstruction(mnemonic, a, b, c, imm, line, sln, lineTagMap);
  }

  // ---- pseudo-instructions ----

  /** The table entries the pseudo-instructions expand to. */
  lemma ExpansionTargets()
    ensures "ADD" in Instructions && Instructions["ADD"] == Instruction(0, CAB)
    ensures "BEQ" in Instructions && Instructions["BEQ"] == Instruction(11, ImmC)
    ensures "JMPL" in Instructions && Instructions["JMPL"] == Instruction(13, CA)
  {
  }

  lemma RegisterNamesOfR0AndR15()
    ensures RegisterName(0) == "r0" && RegisterName(15) == "r15"
  {
  }

  lemma AddTokens(a: Nibble, b: Nibble, c: Nibble, line: string, sln: Word, lineTagMap: map<string, Word>)
    ensures ParseTokens(["ADD", RegisterName(c), RegisterName(a), RegisterName(b)], line, sln, lineTagMap)
      == Encoded(Encode(0, a, b, c))
  {
    ExpansionTargets();
    assert ["ADD", RegisterName(c), RegisterName(a), RegisterName(b)] == InstructionTokens("ADD", a, b, c, 0);
    ParseTokensOfInstruction("ADD", a, b, c, 0, line, sln, lineTagMap);
  }

  lemma JmplTokens(a: Nibble, c: Nibble, line: string, sln: Word, lineTagMap: map<string, Word>)
    ensures ParseTokens(["JMPL", RegisterName(c), RegisterName(a)], line, sln, lineTagMap)
      == Encoded(Encode(13, a, 0, c))
  {
    ExpansionTargets();
    assert ["JMPL", RegisterName(c), RegisterName(a)] == InstructionTokens("JMPL", a, 0, c, 0);
    ParseTokensOfInstruction("JMPL", a, 0, c, 0, line, sln, lineTagMap);
  }

  lemma BeqTokens(imm: Byte, c: Nibble, line: string, sln: Word, lineTagMap: map<string, Word>)
    ensures ParseTokens(["BEQ", Decimal(imm), RegisterName(c)], line, sln, lineTagMap)
      == Encoded(EncodeImm(11, imm, c))
  {
    ExpansionTargets();
    assert ["BEQ", Decimal(imm), RegisterName(c)] == InstructionTokens("BEQ", 0, 0, c, imm);
    ParseTokensOfInstruction("BEQ", 0, 0, c, imm, line, sln, lineTagMap);
  }

  /** Each pseudo-instruction becomes the instruction it stands for; the
      expansion is a new token list, so NOP and EXIT need no operands. */
  lemma NopIsAddR0(sln: Word, lineTagMap: map<string, Word>)
    ensures ParseLine("NOP", sln, lineTagMap) == Encoded(Encode(0, 0, 0, 0))
  {
    var expanded := ["ADD", "r0", "r0", "r0"];
    assert ConvertPseudoIfPresent(["NOP"]) == expanded;
    assert ParseLine("NOP", sln, lineTagMap) == ParseTokens(expanded, "NOP", sln, lineTagMap) by {
      FieldsOfWord("NOP");
      ParseLineOfFields("NOP", ["NOP"], sln, lineTagMap);
    }
    RegisterNamesOfR0AndR15();
    AddTokens(0, 0, 0, "NOP", sln, lineTagMap);
  }

  lemma ExitIsJmplR0(sln: Word, lineTagMap: map<string, Word>)
    ensures ParseLine("EXIT", sln, lineTagMap) == Encoded(ExitInstruction)
  {
    var expanded := ["JMPL", "r0", "r0"];
    assert ConvertPseudoIfPresent(["EXIT"]) == expanded;
    assert ParseLine("EXIT", sln, lineTagMap) == ParseTokens(expanded, "EXIT", sln, lineTagMap) by {
      FieldsOfWord("EXIT");
      ParseLineOfFields("EXIT", ["EXIT"], sln, lineTagMap);
    }
    RegisterNamesOfR0AndR15();
    JmplTokens(0, 0, "EXIT", sln, lineTagMap);
    ExitIsJmplR0R0();
  }

  /** MOV d s is ADD d r0 s: d is the destination c, r0 the a operand and s
      the b operand. */
  lemma MovIsAdd(d: Nibble, s: Nibble, sln: Word, lineTagMap: map<string, Word>)
    ensures ParseLine(StringAddons.Join(["MOV", RegisterName(d), RegisterName(s)], ' '), sln, lineTagMap)
      == Encoded(Encode(0, 0, s, d))
  {
    var tokens := ["MOV", RegisterName(d), RegisterName(s)];
    var line := StringAddons.Join(tokens, ' ');
    RegisterNamesOfR0AndR15();
    var expanded := ["ADD", RegisterName(d), RegisterName(0), RegisterName(s)];
    assert ConvertPseudoIfPresent(tokens) == expanded;
    assert ParseLine(line, sln, lineTagMap) == ParseTokens(expanded, line, sln, lineTagMap) by {
      RegisterNameIsField(d);
      RegisterNameIsField(s);
      FieldsOfJoin(tokens);
      ParseLineOfFields(line, tokens, sln, lineTagMap);
    }
    AddTokens(0, s, d, line, sln, lineTagMap);
  }

  /** JMP t is BEQ t r15: r15 equals itself, so the branch is always
      taken. */
  lemma JmpIsBeqR15(target: Byte, sln: Word, lineTagMap: map<string, Word>)
    ensures ParseLine(StringAddons.Join(["JMP", Decimal(target)], ' '), sln, lineTagMap)
      == Encoded(EncodeImm(11, target, 15))
  {
    var tokens := ["JMP", Decimal(target)];
    var line := StringAddons.Join(tokens, ' ');
    RegisterNamesOfR0AndR15();
    var expanded := ["BEQ", Decimal(target), RegisterName(15)];
    assert ConvertPseudoIfPresent(tokens) == expanded;
    assert ParseLine(line, sln, lineTagMap) == ParseTokens(expanded, line, sln, lineTagMap) by {
      DecimalIsField(target);
      FieldsOfJoin(tokens);
      ParseLineOfFields(line, tokens, sln, lineTagMap);
    }
    BeqTokens(target, 15, line, sln, lineTagMap);
  }

  /** A line holding only a tag leaves no tokens for convertPseudoIfPresent
      to index: the Go runtime panics. */
  lemma TagOnlyLinePanics(sln: Word, lineTagMap: map<string, Word>)
    ensures ParseLine("loop:", sln, lineTagMap) == IndexPanic
  {
    FieldsOfWord("loop:");
  }
}
