# Rails CPU: assemblers and emulators

Rails is a small 8-bit CPU with a 16-bit instruction word and sixteen
opcodes. Every opcode has a mnemonic:

- ADD, ADDC, SUB, SWB, NAND, RSFT;
- IMM, LD, LDIM, ST, STIM;
- BEQ, BGT, JMPL, IN, OUT.

A word holds either four 4-bit fields (opcode, a, b, c) or an opcode, an
8-bit immediate and c. The machine has:

- 256 words of program ROM;
- 256 bytes of RAM;
- sixteen registers, sixteen input registers and sixteen output registers;
- a carry flag and a program counter.

The repository ships three assemblers and three emulators for this machine:

- the Go assembler and emulator of the desktop application;
- the Go assembler of the web server and the JavaScript emulator of its
  front end;
- the legacy C++ assembler and emulator, which pass instructions as byte
  vectors instead of packed words.

They share some text and collection helpers:

- `string_split`, `string_matches` and `string_contains` in C++;
- `NumberToString`, `Contains`, `ContainsAny` and `Try` in Go.

This project restates each of them in Dafny and proves what they promise:

- Encoding and decoding are inverse.
- Each assembler reads a written instruction back to its word or entry.
- The desktop and C++ assemblers expand the pseudo-instructions NOP, MOV,
  JMP and EXIT to the instructions they stand for. The web assembler copies
  each expansion over the written tokens without growing them. It therefore
  rejects NOP, MOV and JMP as normally written, and accepts EXIT only when
  two extra tokens follow it.
- The first pass records the right line for each tag.
- The second pass writes one word per significant line and stops at the
  first error, which names its line.
- Each emulator's step follows the instruction set: carry as the ninth bit,
  borrow on subtraction, r0 forced to 0, branches and JMPL.
- The helpers do what their comments say.

The proofs also record where the implementations part ways. The lemmas in
`agreement.dfy` show that:

- the Go and JavaScript emulators agree on every step inside the ROM away
  from EXIT;
- they differ at the end of the ROM and at EXIT;
- the C++ emulator reads SWB's operands in the other order;
- the C++ assembler writes MOV in the other direction.

Layout:

| file | models |
|---|---|
| `wrappers.dfy` | Option and Result |
| `isa.dfy` | the shared instruction table and the two word layouts |
| `asm_text.dfy` | how an instruction line is normally written |
| `go_text.dfy` | the Go library text functions the assemblers use (`TrimSpace`, `Fields`, `Split`, `ParseUint`, line scanning) |
| `string_addons.dfy` | `Emulator/string_addons.hpp` |
| `utils.dfy` | `src/utils.go` |
| `misc.dfy` | `internal/utils/misc.go` |
| `web_assembler.dfy` | `internal/app/assembler.go` |
| `desktop_assembler.dfy` | `src/assembler.go` |
| `cpp_assembler.dfy` | `Emulator/assembler.hpp` |
| `go_emulator.dfy` | `src/emulator.go` |
| `js_emulator.dfy` | `internal/public/emulator.js` |
| `cpp_emulator.dfy` | `Emulator/emulator.hpp` |
| `agreement.dfy` | how the three emulators relate |

Conventions used throughout:

- Words, bytes and nibbles are integers in range.
- Go's uint8 and uint16 wrap-around is written out as `% 256` and
  `% 0x1_0000`.
- A Go index panic is a distinct outcome (`IndexPanic`, `Panicked`).
- C++ undefined behaviour is a distinct outcome (`Undefined`,
  `UndefinedBehaviour`), and C++ exceptions are values (`Threw`, `Raised`).
- Loops that may run for ever carry a `fuel` bound: Go `EvalUntil`, the
  C++ `run` loop, and the ticks of the JavaScript main loop.

## Model

| member | source | states |
|---|---|---|
| Isa.Encode | src/assembler.go:110-113 | opcode<<12 \| a<<8 \| b<<4 \| c fits 16 bits, and each of the four fields decodes back unchanged |
| Isa.EncodeImm | src/assembler.go:114-117 | opcode<<12 \| imm<<4 \| c fits 16 bits, and the opcode, the immediate and c decode back unchanged |
| Isa.DecodeIsInverse | src/emulator.go:84-88 | decoding loses nothing: every word re-encodes from its own fields in both layouts, and the immediate is the a and b nibbles together |
| Isa.MaskShiftIsDivision | internal/public/emulator.js:137-141 | each mask-and-shift of the decoder equals the division and remainder the model decodes with, on every 16-bit word |
| Isa.ExitIsJmplR0R0 | src/assembler.go:105 | EXIT's expansion JMPL r0 r0 encodes to 0xD000, the word the emulators treat as EXIT, and its opcode is 13 |
| Isa.MnemonicOf | src/assembler.go:27-44 | every opcode 0..15 is carried by some mnemonic of the table |
| Isa.OpcodesAreDistinct | src/assembler.go:27-44 | no two mnemonics share an opcode, so the opcode determines the mnemonic |
| AsmText.FieldsOfInstruction | internal/app/assembler.go:135 | a mnemonic and its operands written with single spaces split back into exactly those tokens |
| GoText.TrimSpace | src/assembler.go:205 | the trimmed text neither starts nor ends with white space |
| GoText.TrimSpaceIsSlice | src/assembler.go:225 | TrimSpace keeps one contiguous part of the text and drops only white space before and after it |
| GoText.FieldsAreWords | internal/app/assembler.go:66 | every field of strings.Fields is non-empty and free of white space |
| GoText.FieldsOfJoin | src/assembler.go:122 | Fields undoes joining non-empty space-free words with ' ' |
| GoText.FieldsOfWord | src/assembler.go:127 | a space-free word is its own single field |
| GoText.FieldsNotEmpty | internal/app/assembler.go:67-69 | text that does not start with white space has a first field, so the first pass's empty-token guard never fires |
| GoText.FirstSpaceToken | src/assembler.go:208 | the first piece of Split(s, " ") is a prefix of s with no plain space, followed in s by a space or by nothing |
| GoText.ParseUint8OfDecimal | src/assembler.go:67 | ParseUint(s, 10, 8) reads the decimal text of every byte back to that byte |
| GoText.SplitLines | src/utils.go:13-25 | the lines handed to the callback contain no newline, and there are none exactly when the text is empty |
| GoText.MnemonicIsField | src/assembler.go:27-44 | every mnemonic is one field that is not a tag and not a pseudo-instruction name |
| StringAddons.StringSplit | Emulator/string_addons.hpp:8-27 | the loop returns the segments of the input: the maximal delimiter-free runs, empty ones dropped |
| StringAddons.SegmentsAreCleanAndComplete | Emulator/string_addons.hpp:8-27 | every segment is non-empty and delimiter-free; concatenated, they give the input with its delimiters removed; empty input gives none |
| StringAddons.SegmentsOfJoin | Emulator/string_addons.hpp:8-27 | splitting undoes joining non-empty delimiter-free segments with a delimiter |
| StringAddons.SegmentsOfUndelimited | Emulator/string_addons.hpp:8-27 | a non-empty input without delimiters is one segment |
| StringAddons.SegmentsNotEmpty | Emulator/string_addons.hpp:8-27 | an input that does not start with a delimiter has a first segment |
| StringAddons.StringMatches | Emulator/string_addons.hpp:30-35 | true exactly when the target occurs in the input at the given index |
| StringAddons.StringContains | Emulator/string_addons.hpp:38-46 | true exactly when the target occurs at some index of the input; never true on an empty input, even for an empty target |
| StringAddons.ContainsOneChar | Emulator/string_addons.hpp:38-46 | a one-character target, such as ":", is found exactly when the input holds that character |
| Utils.FormatUintRoundTrip | src/utils.go:63 | the digits FormatUint writes are digits of the base, read back as the number, and start with '0' only for zero |
| Utils.FormatUintLength | src/utils.go:63 | a value below base^k is written with at most k digits |
| Utils.PadCountIsLeast | src/utils.go:67-69 | the padding loop adds the fewest copies that bring the string to the width |
| Utils.NumberToString | src/utils.go:55-71 | "invalid type" for a non-integer; otherwise the signed or unsigned digits with the least padding that reaches the width prepended |
| Utils.PadLeft | src/utils.go:67-69 | prepending the padding while the string is shorter than the width yields exactly the least number of copies that reaches the width, followed by the digits; the width is reached exactly when the padding is non-empty or the digits are wide enough, and an empty padding keeps the digits (corrected, see Findings) |
| Utils.EmptyPaddingNeverWidens | src/utils.go:67-69 | with an empty padding and digits shorter than the width, any number of rounds of the loop body as written (`s = paddingChar + s`, iterated by PadRounds) leaves the digits unchanged and still too short, so the loop never ends |
| Utils.DocumentedExamples | src/utils.go:55 | the two examples of the function's own comment: (5, 3, "0", 10) is "005" and (5, 3, "0", 2) is "101" |
| Utils.PaddingPrecedesSign | src/utils.go:60-69 | a negative value is padded in front of its '-': -5 to width 4 with "0" is "00-5" |
| Utils.Contains | src/utils.go:28-35 | true exactly when the element occurs in the slice |
| Utils.Try | src/utils.go:46-53 | the first error in call order is returned, no function after it is called, and all are called when none fails |
| Misc.ContainsIsMembership | internal/utils/misc.go:28-35 | Contains is true exactly when the element occurs in the slice |
| Misc.ContainsAnyIsOverlap | internal/utils/misc.go:38-47 | ContainsAny is true exactly when the two slices share an element, and so is false when either is empty |
| Misc.TryStopsAtFirstError | internal/utils/misc.go:58-65 | Try returns the error of the first failing function, whatever follows it |
| Misc.TryNoneWhenAllSucceed | internal/utils/misc.go:58-65 | Try returns no error exactly when every function succeeds |
| WebAssembler.SignificantLineHasFields | internal/app/assembler.go:66-69 | a significant trimmed line has a non-empty first token |
| WebAssembler.ParseReg | internal/app/assembler.go:164-191 | empty input fails; success means the text after an optional 'r' is a decimal of the returned value at most 15; other failures are a syntax or range error on that text |
| WebAssembler.ParseRegOfName | internal/app/assembler.go:164-191 | "r<n>" and the bare decimal n both read as register n |
| WebAssembler.ParseImm | internal/app/assembler.go:194-219 | a tag gives the low byte of its recorded line, and an unknown tag is an error; anything else succeeds only as a decimal of the value |
| WebAssembler.CopyInto | internal/app/assembler.go:120-126 | Go's copy keeps the destination's length and overwrites only its first min(len) entries |
| WebAssembler.ConvertPseudo | internal/app/assembler.go:117-130 | the token count is kept, and tokens that are not a pseudo-instruction are returned unchanged |
| WebAssembler.ConvertPseudoInstruction | internal/app/assembler.go:117-130 | panics exactly when it indexes past the tokens; otherwise the slice is rewritten in place to ConvertPseudo's result |
| WebAssembler.ParseInstruction | internal/app/assembler.go:133-249 | gives exactly what the line parser specification gives: tag dropped, pseudo rewritten, mnemonic looked up, count checked, operands parsed and encoded |
| WebAssembler.Pass2Of | internal/app/assembler.go:82-104 | at most 256 words are written, and a pass with no error writes one per significant line |
| WebAssembler.FirstPass | internal/app/assembler.go:59-78 | the loop builds the tag map and the counter of the first pass |
| WebAssembler.AssembleLine | internal/app/assembler.go:82-101 | one callback: the ROM and the count move as one step of the second pass says |
| WebAssembler.SecondPass | internal/app/assembler.go:80-104 | the ROM prefix holds the words of the pass, nothing after it changes, and the outcome is the pass's |
| WebAssembler.Assemble | internal/app/assembler.go:54-112 | returns the pass's count or error; the written words fill the ROM prefix; on success the rest of the ROM is zero, and on error it is untouched |
| WebAssembler.PassStopsAfter | internal/app/assembler.go:102-104 | once the second pass has stopped, later lines change nothing |
| WebAssembler.TagPassCountsSignificantLines | internal/app/assembler.go:74 | the first pass counts the significant lines modulo 2^16 |
| WebAssembler.TagIsLastDefinition | internal/app/assembler.go:71-73 | a tag maps to the significant-line index of its last definition |
| WebAssembler.TagsComeFromDefinitions | internal/app/assembler.go:71-73 | every tag in the map was defined by some line |
| WebAssembler.TagOperandResolves | internal/app/assembler.go:203-209 | a tag operand reads as the low byte of its last definition's index, whether it is defined before or after the use |
| WebAssembler.ErrorNamesItsLine | internal/app/assembler.go:93-96 | an error names the 1-based physical line it comes from; that line is significant, parsing it gives the cause, and all earlier lines were assembled |
| WebAssembler.TooLongAfterFullRom | internal/app/assembler.go:84-86 | once 256 words are written, any further line, even a blank or a comment, ends the pass with "program is too long" |
| WebAssembler.ExtraTokensIgnored | internal/app/assembler.go:155-161 | tokens beyond those the format needs do not change the result |
| WebAssembler.ParseLineOfInstruction | internal/app/assembler.go:133-152 | a line that starts with a table mnemonic is parsed from its fields with no tag or pseudo rewriting |
| WebAssembler.AssembleThenDecode | internal/app/assembler.go:221-248 | a written instruction assembles to a word that decodes to its opcode and the operands it was written with; operands the format does not name are 0 |
| WebAssembler.BarePseudoInstructionsAreRejected | internal/app/assembler.go:117-130 | copy keeps only "ADD" of a bare NOP's expansion and only "JMPL" of a bare EXIT's, so both fail the operand count |
| WebAssembler.MovAndJmpAreRejected | internal/app/assembler.go:117-130 | MOV d s keeps only ["ADD", d, "r0"] and JMP t only ["BEQ", t], so every such line fails the operand count with NotEnoughArgs(3, 2) and NotEnoughArgs(2, 1) |
| WebAssembler.ExitWithOperandsIsExitInstruction | internal/app/assembler.go:125-126 | EXIT followed by two tokens becomes 0xD000, whatever the tokens |
| WebAssembler.TagOnlyLinePanics | internal/app/assembler.go:141-146 | a line holding only a tag leaves no token, and the runtime panics |
| DesktopAssembler.ParseReg | src/assembler.go:57-76 | empty input fails; success means the text after one optional 'r' is a decimal of the value at most 15; other failures are syntax or range errors |
| DesktopAssembler.ParseRegOfName | src/assembler.go:57-76 | "r<n>" and the bare decimal n both read as register n |
| DesktopAssembler.ParseImm | src/assembler.go:79-97 | a tag gives the low byte of its line, and an unknown tag is an error; anything else succeeds only as a decimal of the value |
| DesktopAssembler.ConvertPseudoIfPresent | src/assembler.go:100-108 | the result is never empty, and tokens that are not a pseudo-instruction are returned unchanged |
| DesktopAssembler.TrimSpaceOfWord | src/assembler.go:126-128 | trimming a token of strings.Fields changes nothing |
| DesktopAssembler.ParseInstruction | src/assembler.go:120-190 | the method, with its token-trimming loop, gives exactly the line parser specification |
| DesktopAssembler.Pass2Of | src/assembler.go:220-240 | at most 256 words are written, and a pass with no error writes one per significant line |
| DesktopAssembler.PassStopsAfter | src/assembler.go:220-240 | once the second pass has stopped, later lines change nothing |
| DesktopAssembler.Assembler.constructor | src/assembler.go:46 | the package tag map starts empty |
| DesktopAssembler.Assembler.FirstPass | src/assembler.go:203-215 | the loop leaves the tag map of the first pass |
| DesktopAssembler.Assembler.AssembleLine | src/assembler.go:220-240 | one callback: the ROM and the count move as one step of the second pass says |
| DesktopAssembler.Assembler.SecondPass | src/assembler.go:217-240 | the ROM prefix holds the words of the pass, and the error, panic and count are the pass's |
| DesktopAssembler.Assembler.AssembleFile | src/assembler.go:193-248 | empty text is refused, leaving everything as it was; otherwise the ROM prefix holds the words, the rest is cleared even after an error, and the count is returned as a uint8 |
| DesktopAssembler.TagStepCounts | src/assembler.go:204-215 | the first-pass counter moves on exactly at the lines not skipped |
| DesktopAssembler.TagPassCountsSignificantLines | src/assembler.go:213 | the first pass counts the significant lines modulo 2^16 |
| DesktopAssembler.TagStepRecords | src/assembler.go:208-212 | a line records the text before its first space when that ends in ':', and leaves other tags alone |
| DesktopAssembler.TagIsLastDefinition | src/assembler.go:208-212 | a tag maps to the significant-line index of its last definition |
| DesktopAssembler.TagsComeFromDefinitions | src/assembler.go:208-212 | every tag in the map was defined by some line |
| DesktopAssembler.ErrorNamesItsLine | src/assembler.go:225-233 | an error names the 0-based physical line it comes from; that line is significant, parsing it gives the error, and all earlier lines were assembled |
| DesktopAssembler.TooLongAfterFullRom | src/assembler.go:222 | once 256 words are written, any further line ends the pass with "too long" |
| DesktopAssembler.FullRomReportsLengthZero | src/assembler.go:247 | a full ROM of 256 words reports length 0, because the count is truncated to a uint8 |
| DesktopAssembler.ParseLineOfFields | src/assembler.go:120-140 | a line without a tag is parsed from its expanded fields |
| DesktopAssembler.AssembleThenDecode | src/assembler.go:150-189 | a written instruction assembles to a word that decodes to its opcode and operands; operands the format does not name are 0 |
| DesktopAssembler.ExpansionTargets | src/assembler.go:27-44 | ADD, BEQ and JMPL, the targets of the expansions, have the opcodes and formats the expansions assume |
| DesktopAssembler.NopIsAddR0 | src/assembler.go:102 | a bare NOP assembles to ADD r0 r0 r0, the word 0 |
| DesktopAssembler.ExitIsJmplR0 | src/assembler.go:105 | a bare EXIT assembles to 0xD000 |
| DesktopAssembler.MovIsAdd | src/assembler.go:103 | MOV d s assembles to ADD with c = d, a = r0 and b = s |
| DesktopAssembler.JmpIsBeqR15 | src/assembler.go:104 | JMP t assembles to BEQ t r15, a branch that is always taken |
| DesktopAssembler.TagOnlyLinePanics | src/assembler.go:131-136 | a line holding only a tag leaves no token, and the runtime panics |
| CppAssembler.Stoi | Emulator/assembler.hpp:45 | never undefined; a value is a 32-bit int; it throws invalid_argument exactly when no digit follows the spaces and sign |
| CppAssembler.StoiOfDecimal | Emulator/assembler.hpp:45 | stoi reads the decimal text of every int back |
| CppAssembler.StoiIgnoresTrailingText | Emulator/assembler.hpp:56 | text after the digits is ignored |
| CppAssembler.RegOf | Emulator/assembler.hpp:43-50 | a register read is at most 15, and is undefined exactly on the empty token |
| CppAssembler.ImmOf | Emulator/assembler.hpp:53-61 | a token with ':' reads the tag's value, or 0 with the tag inserted; any other token leaves the map alone |
| CppAssembler.RegOfStoi | Emulator/assembler.hpp:43-50 | the first character is dropped whatever it is, and stoi reads the rest |
| CppAssembler.RegOfAnyPrefix | Emulator/assembler.hpp:43-50 | "x5" and "$5" name r5 like "r5" |
| CppAssembler.RegOfName | Emulator/assembler.hpp:43-50 | "r<n>" reads back as register n |
| CppAssembler.RegisterRangeIsCheckedAfterTruncation | Emulator/assembler.hpp:45-48 | r16 is refused, but r256 wraps to r0 and r257 to r1, and a bare "5" throws |
| CppAssembler.ImmediateIsTruncated | Emulator/assembler.hpp:56-59 | an immediate is taken modulo 256: "256" is 0 and "-1" is 255 |
| CppAssembler.UnknownTagReadsZero | Emulator/assembler.hpp:54-55 | an undefined tag reads as 0 and is then in the map with 0 |
| CppAssembler.PseudoEntry | Emulator/assembler.hpp:97-105 | a pseudo branch leaves the entry empty or shaped like an instruction, and an exception leaves it empty |
| CppAssembler.Layout | Emulator/assembler.hpp:108-122 | a matching encoding type writes 3 or 4 bytes headed by the opcode; an unknown type or an exception leaves the entry as it was |
| CppAssembler.TableFold | Emulator/assembler.hpp:108-122 | the loop changes the entry only when some table entry has the mnemonic's name, and it keeps the entry's shape |
| CppAssembler.EntryOf | Emulator/assembler.hpp:94-127 | a line that completes yields an entry with an opcode and 3 or 4 bytes |
| CppAssembler.TableIsInstructionSet | Emulator/assembler.hpp:15-32 | entry i of the C++ table is the mnemonic with opcode i and the same format as the Go tables |
| CppAssembler.TableNames | Emulator/assembler.hpp:15-32 | a name matches table entry i exactly when it is the mnemonic with opcode i |
| CppAssembler.TableFoldMisses | Emulator/assembler.hpp:108-122 | with no matching name, the table loop changes nothing |
| CppAssembler.TableFoldHits | Emulator/assembler.hpp:108-122 | with one matching name, the loop gives that entry's branch |
| CppAssembler.EntryOfInstruction | Emulator/assembler.hpp:108-122 | a line starting with a mnemonic gets the layout of that mnemonic's table entry |
| CppAssembler.UnknownMnemonicThrows | Emulator/assembler.hpp:125-126 | an unknown first token leaves the entry empty, and the assembler throws "something went wrong" |
| CppAssembler.LayoutOfOperands | Emulator/assembler.hpp:110-120 | each encoding type reads its written operand tokens back into the bytes of its layout |
| CppAssembler.AssembleThenRead | Emulator/assembler.hpp:94-127 | a written instruction becomes the entry of its format with its opcode and operands |
| CppAssembler.PseudoIsNotInTable | Emulator/assembler.hpp:15-32 | no pseudo-instruction name is in the table |
| CppAssembler.NopEntry | Emulator/assembler.hpp:97-98 | NOP is {0, 0, 0, 0}, whatever follows it |
| CppAssembler.ExitEntry | Emulator/assembler.hpp:103-104 | EXIT is {13, 0, 0, 0} |
| CppAssembler.MovEntry | Emulator/assembler.hpp:99-100 | MOV x y is {0, x, 0, y}, the CAB layout of ADD with A = x, B = r0, C = y |
| CppAssembler.MovReadsRegisters | Emulator/assembler.hpp:99-100 | MOV builds its entry from the two registers parse_reg reads |
| CppAssembler.JmpReadsImmediate | Emulator/assembler.hpp:101-102 | JMP t is {11, t, 15}, with t read by parse_imm |
| CppAssembler.JmpEntry | Emulator/assembler.hpp:101-102 | JMP with a number jumps to that number |
| CppAssembler.JmpToTag | Emulator/assembler.hpp:101-102 | JMP to a tag jumps to its recorded line; an undefined tag jumps to 0 and is added to the map |
| CppAssembler.LoadPass | Emulator/assembler.hpp:74-84 | a completed first pass keeps one token list per non-empty line |
| CppAssembler.LoadStopsAfter | Emulator/assembler.hpp:74-84 | undefined behaviour on a prefix of the lines is undefined behaviour for the whole file |
| CppAssembler.EmitStopsAfter | Emulator/assembler.hpp:87-128 | once the second pass has thrown or hit undefined behaviour, later lines change nothing |
| CppAssembler.ProgramLength | Emulator/assembler.hpp:87-128 | a completed pass has one entry per line not skipped; a throw comes after the failing line's entry was appended |
| CppAssembler.ProgramEntries | Emulator/assembler.hpp:87-128 | every entry of the program has an opcode and 3 or 4 bytes |
| CppAssembler.TagIsLastDefinition | Emulator/assembler.hpp:79-82 | a tag holds, modulo 256, the index of its last defining line among all non-empty lines, comments included |
| CppAssembler.TagsComeFromDefinitions | Emulator/assembler.hpp:79-82 | every tag in the map was defined by some line |
| CppAssembler.BlankLineIsUndefined | Emulator/assembler.hpp:77-79 | a line of blanks only has no first token to read, which is undefined behaviour |
| CppAssembler.TagCountsSkippedLines | Emulator/assembler.hpp:79-92 | behind a comment line, a tag on the NOP line holds 1, so "JMP" to it loops on itself instead of reaching entry 0 |
| CppAssembler.Assembler.constructor | Emulator/assembler.hpp:38-40 | the members start empty |
| CppAssembler.Assembler.ParseReg | Emulator/assembler.hpp:43-50 | parse_reg gives what RegOf specifies |
| CppAssembler.Assembler.ParseImm | Emulator/assembler.hpp:53-61 | parse_imm gives ImmOf's value and tag map, and leaves the other members alone |
| CppAssembler.Assembler.RegisterAt | Emulator/assembler.hpp:110-120 | reads the register token at an index, undefined past the line |
| CppAssembler.Assembler.ImmediateAt | Emulator/assembler.hpp:110-120 | reads the immediate token at an index and updates the map as ImmOf does |
| CppAssembler.Assembler.PseudoBranch | Emulator/assembler.hpp:97-105 | the pseudo-instruction branches give PseudoEntry's entry and map |
| CppAssembler.Assembler.EncodingBranch | Emulator/assembler.hpp:110-120 | the branch of one table entry gives Layout's entry and map |
| CppAssembler.Assembler.EmitLine | Emulator/assembler.hpp:94-127 | the loop body gives EntryOf's entry and map |
| CppAssembler.Assembler.LoadLines | Emulator/assembler.hpp:74-84 | the first loop succeeds exactly when the first-pass specification does, leaving its lines and tag map |
| CppAssembler.Assembler.EmitLines | Emulator/assembler.hpp:87-128 | the second loop returns the specification's program and tags, an exception, or undefined behaviour |
| CppAssembler.Assembler.Run | Emulator/assembler.hpp:66-130 | run ends as both passes specify: a program, an exception with the entries so far, or undefined behaviour |
| GoEmulator.Zeros | src/emulator.go:60-70 | n zero bytes |
| GoEmulator.Effect | src/emulator.go:89-171 | the switch keeps the state valid and the program, the input registers and the counter unchanged |
| GoEmulator.Execute | src/emulator.go:83-177 | an instruction keeps the state valid and leaves the program, the input registers and the length alone |
| GoEmulator.RegisterZeroStaysZero | src/emulator.go:175 | r0 reads 0 after every instruction that does not branch, and a state with r0 = 0 keeps it |
| GoEmulator.ProgramCounterRule | src/emulator.go:148-176 | the counter becomes the immediate after a taken branch, register a after JMPL, and pc+1 modulo 256 otherwise |
| GoEmulator.TakenBranchChangesOnlyPc | src/emulator.go:148-159 | a taken branch changes only the counter and the carry |
| GoEmulator.ExitJumpsToStart | src/emulator.go:160-165 | EXIT (JMPL r0 r0) jumps to 0, leaves the registers with r0 = 0, clears the carry and leaves the RAM alone |
| GoEmulator.ArithmeticRules | src/emulator.go:91-126 | ADD and ADDC produce the sum with the carry as ninth bit; SUB and SWB produce the difference modulo 256, with the carry set exactly on a borrow |
| GoEmulator.ComputeWritesThrough | src/emulator.go:91-126 | an arithmetic result into a register other than r0 survives the r0 reset |
| GoEmulator.WrappedDifference | src/emulator.go:109-126 | a byte difference held in a uint16 exceeds 255 exactly when it is negative, and keeps its value modulo 256 |
| GoEmulator.StepFrame | src/emulator.go:136-171 | only ST and STIM write the RAM, and only OUT writes the output registers |
| GoEmulator.Cleared | src/emulator.go:60-70 | the state Reset leaves is valid |
| GoEmulator.ResetRestartsProgram | src/emulator.go:60-70 | after Reset the program and its length are kept, and the counter, carry, registers and RAM are 0 |
| GoEmulator.EvalLoop | src/emulator.go:196-235 | the loop keeps the state valid |
| GoEmulator.Iterate | src/emulator.go:180-185 | n instructions in a row keep the state valid |
| GoEmulator.EvalRunsUntilTarget | src/emulator.go:196-235 | EvalUntil stops after n instructions none of which was a target; when it reports a target, the word at the counter is one, not yet executed |
| GoEmulator.InstructionStringShape | src/emulator.go:73-79 | the string is 19 characters: four groups of four binary digits with '-' at 4, 9 and 14, and the digits read back as the word |
| GoEmulator.RailsEmulator.constructor | src/emulator.go:32-37 | the zero value of the struct: everything 0, not busy |
| GoEmulator.RailsEmulator.ExecuteInstruction | src/emulator.go:83-177 | the method leaves exactly the state Execute specifies |
| GoEmulator.RailsEmulator.Compute | src/emulator.go:91-132 | the arithmetic cases leave Effect's state |
| GoEmulator.RailsEmulator.Transfer | src/emulator.go:133-171 | the data-moving cases leave Effect's state |
| GoEmulator.RailsEmulator.Reset | src/emulator.go:60-70 | panics while busy and changes nothing; otherwise clears the machine and keeps the program |
| GoEmulator.RailsEmulator.Eval | src/emulator.go:180-185 | panics while busy and changes nothing; otherwise runs one instruction |
| GoEmulator.RailsEmulator.EvalUntil | src/emulator.go:196-235 | panics while busy; otherwise ends in the loop specification's state, and is no longer busy unless the fuel ran out |
| GoEmulator.RailsEmulator.ExitLoop | src/emulator.go:204-208 | leaves the state alone and clears both the stop request and the busy flag |
| GoEmulator.RailsEmulator.InstructionToString | src/emulator.go:73-79 | the word's 16 binary digits, grouped by four with '-' |
| JsEmulator.StepKeepsMachineValid | internal/public/emulator.js:120-222 | a step keeps every value at most 256 and never touches the ROM or the input registers |
| JsEmulator.EffectKeepsMachineValid | internal/public/emulator.js:145-218 | the switch keeps the machine valid |
| JsEmulator.ExitStops | internal/public/emulator.js:123-125 | the EXIT word returns false and changes nothing |
| JsEmulator.BreakpointPauses | internal/public/emulator.js:128-134 | a breakpoint stops a running emulator before the instruction; a single step while not running ignores it |
| JsEmulator.ProgramCounterRunsOffTheRom | internal/public/emulator.js:219-221 | a non-jumping instruction at 255 moves the counter to 256, and the next step throws |
| JsEmulator.ReturnAddressAtTheEnd | internal/public/emulator.js:203-208 | JMPL at 255 stores 256, a value no byte holds |
| JsEmulator.RegisterZeroAfterStep | internal/public/emulator.js:219 | r0 reads 0 after every completed step that is not a taken branch |
| JsEmulator.ArithmeticRules | internal/public/emulator.js:146-167 | ADD and ADDC produce the sum with the carry as ninth bit; SUB and SWB (b - a - borrow) produce the difference modulo 256, with the carry set exactly on a borrow |
| JsEmulator.RailsEmulator.constructor | internal/public/emulator.js:108-118 | every array is zero, the flags are clear and there are no breakpoints |
| JsEmulator.RailsEmulator.Step | internal/public/emulator.js:120-222 | returns, and leaves, exactly what the step specification gives |
| JsEmulator.RailsEmulator.Execute | internal/public/emulator.js:136-218 | from a program counter inside the ROM, decodes the word and leaves exactly the execution specification's outcome and machine, touching no flag of the emulator |
| JsEmulator.RailsEmulator.Advance | internal/public/emulator.js:145-218 | an instruction that does not jump has its effect, then r0 is 0 and the program counter is one more; a RAM access out of range changes nothing |
| JsEmulator.RailsEmulator.Compute | internal/public/emulator.js:146-173 | the arithmetic cases leave Effect's machine |
| JsEmulator.RailsEmulator.Transfer | internal/public/emulator.js:174-214 | the data-moving cases give Effect's outcome and machine, and a RAM index past 255 changes nothing |
| JsEmulator.RailsEmulator.MainLoopTick | internal/public/emulator.js:88-101 | a pending stop ends the run without stepping; a running emulator steps and keeps running only if Step returns true; a throw ends the loop and escapes before `isRunning` is assigned, so the machine is unchanged and the emulator still counts as running |
| JsEmulator.RailsEmulator.Start | internal/public/emulator.js:33-40 | afterwards the emulator runs with no stop pending and is initialized; the first call runs one tick |
| JsEmulator.RailsEmulator.RequestStop | internal/public/emulator.js:50-53 | a running emulator gets a stop request; nothing else changes |
| JsEmulator.RailsEmulator.Reset | internal/public/emulator.js:228-237 | a running emulator is first stopped: its stop request is honoured by one main-loop tick without a step, leaving it neither running nor with a stop pending; a stopped one keeps its flags; then the registers, RAM, output registers, counter and carry are cleared, and the program and the input registers are kept |
| CppEmulator.AluRules | Emulator/emulator.hpp:13-32 | add and addc produce the sum with the carry as ninth bit; sub and swb produce a - b - carry modulo 256, with the carry set exactly on a borrow |
| CppEmulator.Wrap16 | Emulator/emulator.hpp:24-26 | a negative byte difference in a uint16_t wraps above 255 and keeps its low byte |
| CppEmulator.NandRules | Emulator/emulator.hpp:33-35 | nand flips all eight bits of the AND, and nand of a value with itself is 255 minus it |
| CppEmulator.ArithmeticLogicUnit.constructor | Emulator/emulator.hpp:11 | the carry starts clear |
| CppEmulator.ArithmeticLogicUnit.Add | Emulator/emulator.hpp:13-17 | the result plus 256 times the new carry is a + b |
| CppEmulator.ArithmeticLogicUnit.Addc | Emulator/emulator.hpp:18-22 | the result plus 256 times the new carry is a + b + the old carry |
| CppEmulator.ArithmeticLogicUnit.Sub | Emulator/emulator.hpp:23-27 | (a - b) modulo 256, with the carry set exactly when a < b |
| CppEmulator.ArithmeticLogicUnit.Swb | Emulator/emulator.hpp:28-32 | (a - b - old carry) modulo 256, with the carry set exactly on a borrow |
| CppEmulator.ArithmeticLogicUnit.Nand | Emulator/emulator.hpp:33-35 | 255 minus the AND of the operands |
| CppEmulator.Resize | Emulator/emulator.hpp:68-70 | std::vector::resize gives the new length, keeping the old values and zero-filling the rest |
| CppEmulator.TickOf | Emulator/emulator.hpp:76-151 | an iteration that goes on or halts keeps the sixteen registers, sixteen I/O registers and 256 bytes of RAM |
| CppEmulator.ComputeTick | Emulator/emulator.hpp:79-96 | the arithmetic cases keep the vector sizes whenever the loop goes on |
| CppEmulator.TransferTick | Emulator/emulator.hpp:97-146 | the immediate, memory, branch, jump and I/O cases keep the vector sizes whenever the loop goes on or halts |
| CppEmulator.Started | Emulator/emulator.hpp:68-74 | the state run starts its loop from has the sizes the loop needs |
| CppEmulator.RegisterZeroIsWritable | Emulator/emulator.hpp:79-81 | nothing forces r0 to 0: an ADD into r0 keeps its sum |
| CppEmulator.TakenBranchKeepsCarry | Emulator/emulator.hpp:112-117 | a taken BEQ jumps to its immediate and changes nothing else, the carry included |
| CppEmulator.JumpTargetIsTheOperand | Emulator/emulator.hpp:124-132 | JMPL jumps to the byte in the entry, not to a register's value, and links pc+1; {13, 0, 0, 0} ends the run |
| CppEmulator.AssembledCaReadsPastTheEntry | Emulator/emulator.hpp:94-101 | the emulator reads a fourth byte of RSFT, LD and JMPL entries, which the assembler writes as three, so these are undefined; IN reads only three |
| CppEmulator.InputIsTruncated | Emulator/emulator.hpp:133-140 | IN stores what stoi reads, modulo 256, and throws on a line without digits |
| CppEmulator.RunningPastTheProgram | Emulator/emulator.hpp:77 | a counter past the program, or an empty program, is undefined behaviour |
| CppEmulator.AssembledProgramHasNoInvalidOpcode | Emulator/emulator.hpp:144-146 | a program of well-shaped entries never reaches the invalid-instruction case |
| CppEmulator.Emulator.constructor | Emulator/emulator.hpp:41-45 | the members start empty, with the counter and carry 0 |
| CppEmulator.Emulator.Run | Emulator/emulator.hpp:67-160 | run ends as the loop specification says from the started state |
| CppEmulator.Emulator.RunLoop | Emulator/emulator.hpp:76-150 | the while (running) loop ends as the loop specification says from the machine it starts on, and keeps the same ALU |
| CppEmulator.Emulator.Prepare | Emulator/emulator.hpp:68-74 | resizes the vectors and resets the counter, and leaves the ALU alone |
| CppEmulator.Emulator.Iteration | Emulator/emulator.hpp:77-150 | one iteration gives TickOf's tick and state, or changes nothing when it stops abnormally |
| CppEmulator.Emulator.Compute | Emulator/emulator.hpp:79-96 | the arithmetic cases give ComputeTick's tick and state |
| CppEmulator.Emulator.Operate | Emulator/emulator.hpp:79-93 | the ALU call gives AluResult's value and carry |
| CppEmulator.Emulator.Transfer | Emulator/emulator.hpp:97-146 | the other cases give TransferTick's tick and state |
| Agreement.NandAgrees | internal/public/emulator.js:168-170 | the BigInt ~(x & y) & 0xFF and Go's uint8 ^(x & y) agree on bytes |
| Agreement.ComputeAgrees | internal/public/emulator.js:146-173 | the Go and JavaScript arithmetic cases agree on corresponding states |
| Agreement.TransferAgrees | internal/public/emulator.js:174-214 | the data-moving cases agree, and JavaScript never leaves the RAM |
| Agreement.GoAndJsAgree | internal/public/emulator.js:120-222 | inside the ROM, away from EXIT and breakpoints, a JavaScript step does what Go's executeInstruction does, and the states stay in step |
| Agreement.CounterWrapDiffers | internal/public/emulator.js:220 | at address 255 Go's counter wraps to 0 while JavaScript's goes to 256 |
| Agreement.ExitDiffers | internal/public/emulator.js:123-125 | Go runs EXIT as a jump to 0; JavaScript stops on it and changes nothing |
| Agreement.SwbOperandOrderDiffers | Emulator/emulator.hpp:88-89 | with 5 in r1, 3 in r2 and no carry, SWB gives 254 with the carry in Go and 2 without it in C++ |
| Agreement.MovDirectionDiffers | Emulator/assembler.hpp:99-100 | the desktop assembler's MOV x y copies y into x on the Go emulator; the C++ entry copies x into y |

## Left out

- ForEachLine (src/utils.go:13-25, internal/utils/misc.go:13-25): the scanner and the callback loop are not a separate member. `GoText.SplitLines` gives the lines the callback receives, and the passes fold over them. bufio's 64 KiB token limit is not modelled.
- Ternary (src/utils.go:38-43, internal/utils/misc.go:50-55): defined as `Utils.Ternary` and `Misc.Ternary`, with no contract, because it would only restate the body.
- Misc.Contains, Misc.ContainsAny, Misc.Try: functions over slices rather than loops. Their lemmas carry the contracts, and `Utils.Contains` and `Utils.Try` are the loop versions.
- File reading (`ReadStringFromFile`, `AssembleFile`'s path): `AssembleFile` takes the file's text, so read errors are not modelled.
- SaveState, LoadState and the mutex of src/emulator.go: the state is a value. The goroutine that sets ShouldStop is an input function of `EvalUntil`.
- Console and UI: printing, `UpdateUI`, `console.log`, `print_registers` and the art banner have no effect on the machine and are left out.
- JavaScript timers: `setTimeout`, `StepRateLimit`, `UiUpdateLimit`, the `Stop` promise and its timeout. `RequestStop` models the flag it sets, and `MainLoopTick` models one timer tick.
- GoEmulator.RailsEmulator.EvalUntil: the loop is bounded by `fuel`. A program that never reaches its target is observed for `fuel` iterations only.
- JsEmulator.RailsEmulator.Reset: the 5 s timeout of the awaited `Stop` is not modelled. The model lets the next main-loop tick honour the stop request. When the main loop has already ended because a `Step` threw, nothing clears `isRunning`, so the source's `Stop` rejects after 5 s and `Reset` clears nothing.
- Utils.NumberToString: a base outside 2..36 is excluded by a precondition, because strconv's `FormatInt` and `FormatUint` panic on it. An empty `paddingChar` with digits shorter than the width makes the source loop for ever; the model keeps the digits instead (see Findings). Every caller in the program passes base 2 or 10 and a non-empty padding.
- CppEmulator.Emulator.Run: the loop is bounded by `fuel`, and console input is the function `inputs`.
- JsEmulator.RailsEmulator.Transfer: LD or ST through a register holding 256 indexes past the 256-entry RAM array. A read gives `undefined` and a write grows the array. The model reports `OutsideRam` and does not follow either.
- JsEmulator.ArithmeticRules: the ADD and ADDC carry rule is stated only for sums below 512. A register can hold 256 after JMPL at 255, and then `& 0xFF` drops more than the ninth bit.
- CppAssembler.Assembler.EmitLines: `program.push_back({})` and the writes to `program.back()` are one append of the finished entry. No reader sees the empty entry in between, except after an exception, which the model reports with the entry's contents.
- C++ undefined behaviour is an outcome of its own. Reading a vector or string out of bounds, an empty token's first character, a line of blanks only, or a counter past the program: the model does not guess what the compiled program does.
- Go strings are sequences of code points, not UTF-8 bytes. `len` is taken as the character count, which is exact for ASCII assembly text.

## Findings

| source | as written | input that shows it | evidently intended | confidence | as-written member | corrected member |
|---|---|---|---|---|---|---|
| internal/app/assembler.go:121-124 | `copy(tokens, ...)` writes the expansion into the token slice without growing it, so a pseudo-instruction keeps only as many tokens as were written | `MOV r1 r2` becomes `ADD r1 r0` and `JMP 5` becomes `BEQ 5`; both fail the operand count | the whole expansion replaces the tokens, as `convertPseudoIfPresent` in src/assembler.go does | high, not executed | WebAssembler.MovAndJmpAreRejected | DesktopAssembler.MovIsAdd |
| src/utils.go:67-69 | `for len(s) < int(width) { s = paddingChar + s }` never lengthens `s` when `paddingChar` is empty | `NumberToString(5, 3, "", 10)` | the digits are returned unpadded | high, not executed | Utils.EmptyPaddingNeverWidens | Utils.PadLeft |
