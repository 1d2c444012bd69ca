# chip8asm in Dafny

A model of `chip8asm`, a two-pass assembler for the CHIP-8 virtual machine,
together with proofs about it. The assembler reads a text file of CHIP-8
assembly and writes the raw program image that an interpreter loads at
address 0x200.

- **Pass 1** walks the lines and keeps a current address (starting at 0x200),
  the largest address reached so far, the list of instructions, the list of
  labels and the `@db` data blocks. Each line is one of four kinds:
  - a `;` comment;
  - a `name:` label, optionally followed by an instruction;
  - an `@org` or `@db` directive;
  - an instruction.
- **Each instruction's** mnemonic is checked against the list of twenty names
  and the arity table. Every operand goes through a per-mnemonic validator,
  which also records encoding hints in the instruction record: refers to a
  label, has an immediate, special register. Every operand but the last must
  end with a comma.
- **Pass 2** copies the data blocks into a 0xE00-byte buffer standing for
  memory 0x200..0xFFF. It then encodes every instruction into its 16-bit
  opcode, with fields named as in section 3.1 of Cowgod's Chip-8 Technical
  Reference, and writes it high byte first. The output is the buffer up to
  the largest address reached. The first label reference that does not
  resolve ends the run without output.

## Modules

- `wrappers.dfy` — `Option`, `Result` and `Outcome`, a success-or-error value
  with no payload.
- `tokens.dfy` — string helpers, line classification, the mnemonic and arity
  tables, and literal parsing in the manner of Rust's `u16::from_str_radix`.
  It also writes literals back out, for the round-trip proof, and holds the
  register names.
- `operands.dfy` — the instruction record, the validator as a decision
  function `ValidateParam`, and the class `PendingInstr`. Its method
  `ParamValid` updates the record's flags in place and is proved equal to
  `ValidateParam`.
- `encoder.dfy` — opcode fields and packing, the first-match label search, and
  `OpcodeFor`. Around them are lemmas that decode every field of every
  instruction form back to its operand.
- `scan.dfy` — the specification of pass 1 and its proofs:
  - `Step` for one line and `ScanPrefix` for the first n lines;
  - lemmas on lines, labels, directives and the largest address reached;
  - the class `Assembler`, whose method `ScanLine` updates the pass-1 state
    in place and is proved equal to `Step`.
- `image.dfy` — pass 2 and the whole assembler:
  - the specification functions `WriteData`, `WriteCode`, `Image` and
    `Assembled`;
  - lemmas on where each byte lands;
  - the methods that write into an `array<byte>`, proved equal to the
    specification.

Opcodes are integers in 0..0xFFFF. The source builds them with `|` over
fields whose bits do not overlap, so the model writes `a | (b << k)` as
`a + b * 2^k` and `v & (2^k - 1)` as `v % 2^k`.

Rust panics become preconditions. They are named so that their meaning
stays visible:
- `LinesWellFormed`: directive literals parse.
- `AddressesFit`: the current address stays a u16.
- `Encodable`: the operands the encoder slices and unwraps are readable.
- `PassTwoSafe`: buffer indices and the output slice are in range.

`SourceDoesNotPanic` gathers them for a whole program.

Behaviour of the code worth knowing:
- **The largest address reached** is a high-water mark of the current
  address. It is updated after instruction lines, `@db` lines and empty
  lines, and not after `@org`, comments or lone labels. `Covered` proves
  that every instruction and data block lies below it.
- **`shl`, `shr` and `subn`** pass the mnemonic and arity checks, but the
  validator has no row for them and rejects every operand. A line using them
  never assembles (`ShiftsNeverAssemble`), so although the encoder's default
  arm gives them the opcode 0, no such record reaches pass 2.
- **`@db` operands**: `@db` with no operand is accepted and emits an empty
  block. Its values are truncated to a byte without a range check.
- **Operand checks**: an unknown directive with operands fails the operand
  count check before it is reported as unknown.
- **Trailing commas**: an operand is validated with all its trailing commas
  removed, but stored with only one comma removed, and the last operand is
  stored as written. What pass 2 makes of a leftover comma depends on the
  operand:
  - a register still reads correctly, because the encoder looks only at its
    second character (`RegisterLineEncodable`);
  - a literal that pass 2 reads no longer parses, and pass 2 panics, so
    such a program is outside `SourceDoesNotPanic`; a literal pass 2 never
    reads (the first operand of a two-operand `jmp`, say `jmp 5,, 6`, which
    is stored as `5,`) does no harm, since `Encodable` checks only the
    operands the encoder reads;
  - a label name is looked up with the comma, so it normally finds no label
    and the run stops with `UnresolvedLabel`.
- **After a label**, the rest of the line is read as an instruction, even
  when it starts with `@` or `;`.

## Model

| member | source | states |
|---|---|---|
| Tokens.RemovePrefix | src/main.rs:522-528 | when `s` starts with `p` the result is what follows `p` (`p + r == s`), otherwise `s` unchanged |
| Tokens.RemoveSuffix | src/main.rs:514-520 | when `s` ends with `p` the result is what precedes it (`r + p == s`), otherwise `s` unchanged |
| Tokens.TrimStartMatches | src/main.rs:53-60 | the result is a suffix of the input that no longer starts with the pattern |
| Tokens.TrimmedOnlyPattern | src/main.rs:53-60 | `trim_start_matches` drops only whole copies of the pattern: the input is some number of copies followed by the result |
| Tokens.TrimRepeated | src/main.rs:53-60 | any number of copies of the pattern in front of a string that does not start with it are all removed |
| Tokens.TrimEndCommas | src/main.rs:666 | the result is no longer than the input and does not end with a comma |
| Tokens.TrimmedOnlyCommas | src/main.rs:666 | trimming keeps a prefix of the operand and every character it drops is a comma |
| Tokens.LabelIsNotDirective | src/main.rs:32-38 | no word is both a label and a directive; a label word ends with `:` |
| Tokens.WordKinds | src/main.rs:32-38 | `name:` is a label word and not a directive, and reading it back gives `name` (for a name not starting with `@`); `@d` is a directive word naming `d` and never a label |
| Tokens.ArityTableMatchesMnemonics | src/main.rs:500-512 | `instruction_is_valid` holds exactly when the arity table accepts some operand count for the word, and no count above 3 is ever accepted |
| Tokens.ArityCounts | src/main.rs:40-49 | the accepted counts: 0 for cls, ret and sys; 1 or 2 for jmp; 1 for call, skp and sknp; 3 for drw; 2 for every other listed mnemonic; none for an unlisted word |
| Tokens.ExpectedParamsForDirective | src/main.rs:530-536 | `org` and `db` expect one operand, every other name none |
| Tokens.FromStrRadix | src/main.rs:56-64 | a successful parse is a u16 value of a non-empty string |
| Tokens.NumForString | src/main.rs:246-263 | the value is a u16; with forced hex it is exactly the base-16 parse of the token |
| Tokens.ValueIsTheBound | src/main.rs:51-65 | for a token that parses, `immediate_is_valid(t, m)` holds exactly when `num_for_string(t, false) <= m`: the validator and the encoder agree on the value |
| Tokens.EmptyLiteralRejected | src/main.rs:51-65 | `immediate_is_valid` rejects an empty literal and a lone `+` |
| Tokens.PrefixOnlyRejected | src/main.rs:51-65 | a literal made only of `0x` prefixes, or only of `0b` prefixes, is rejected |
| Tokens.DigitsDenote | src/main.rs:246-263 | the digits written for a value are digits of the base and denote that value |
| Tokens.ParseDigits | src/main.rs:246-263 | the digit string of any u16 value parses back to it in bases 2, 10 and 16 |
| Tokens.DigitsUnprefixed | src/main.rs:53-60 | a plain digit string never starts with `0x`, nor with `0b` outside base 16, so it is not mistaken for a prefixed literal |
| Tokens.LiteralRoundTrip | src/main.rs:51-65 | a u16 written as `0x…`, `0b…` or decimal is a valid immediate and `num_for_string` returns the value written |
| Tokens.RepeatedHexPrefix | src/main.rs:53-56 | a u16 written with any number of `0x` prefixes is valid and reads back as its value |
| Tokens.RegisterIndex | src/main.rs:310-311 | the register number read from a token's second character is below 16 |
| Tokens.RegisterIndexOfToken | src/main.rs:68 | token `vX` at position X of the register list reads back as register X |
| Operands.NewInstr | src/main.rs:651-659 | a fresh record has the mnemonic and address, no operands and every flag clear |
| Operands.SpecialCode | src/main.rs:170-175 | the code recorded for `I`, `dt`, `st`, `key` is its position in the special-register list plus one |
| Operands.ValidateParam | src/main.rs:67-238 | the validator never changes mnemonic, operands or address, and never clears `refs_label` or `has_immediate` once set |
| Operands.ValidationTable | src/main.rs:71-236 | the decision table: se/sne/add take a register then a register or a byte (the byte sets `has_immediate`); sub/xor/or/and and skp/sknp registers only; rnd a register then a byte; drw two registers and a nibble without touching flags; jmp's second operand must be a literal of at most 0xfff and sets `has_immediate`; jmp takes no third operand and call no second; only ld changes the special register; mnemonics without a row reject everything |
| Operands.LabelFallback | src/main.rs:71-100 | the address operand of jmp, call and `ld I` is never rejected; one that is not a 12-bit literal sets `refs_label` (except `v0` for jmp); and `refs_label` is never set anywhere else |
| Operands.LoadOperands | src/main.rs:162-215 | ld position 0 accepts exactly general and special registers, recording the special one as destination; after dt/st/key only a general register is accepted; a special register as source is recorded as source; after a general register any other token is accepted exactly when it is a byte literal, and `has_immediate` is set |
| Operands.FindToken | src/main.rs:118-122 | found exactly when the token is in the table, at its first position |
| Operands.PendingInstr.constructor | src/main.rs:651-659 | the record starts as `NewInstr` |
| Operands.PendingInstr.ParamValid | src/main.rs:67-70 | the answer and the updated record are those of `ValidateParam` |
| Operands.PendingInstr.AddressParam | src/main.rs:71-100 | jmp and call operands: answer and updated record as `ValidateParam` |
| Operands.PendingInstr.LoadParam | src/main.rs:162-215 | ld operands: answer and updated record as `ValidateParam` |
| Operands.PendingInstr.RegisterParam | src/main.rs:101-161 | the other mnemonics' operands: answer and updated record as `ValidateParam` |
| Encoder.FindLabel | src/main.rs:273-282 | no result exactly when no label has the name; otherwise the address of a label with that name before which no label has it (first match) |
| Encoder.ResolveLabelFields | src/main.rs:273-282 | a label that is found gives the opcode family asked for with its address's low 12 bits as nnn; a missing one gives 0xFFFF |
| Encoder.Pack4 | src/main.rs:321 | the four nibbles decode back as family, x, y and n |
| Encoder.PackByte | src/main.rs:313 | family, x and kk decode back from the opcode |
| Encoder.PackAddress | src/main.rs:278 | family and nnn decode back from the opcode |
| Encoder.Reg | src/main.rs:310-311 | a register operand reads as a number below 16 |
| Encoder.Num | src/main.rs:312 | a literal operand reads as a u16 |
| Encoder.FixedOpcodes | src/main.rs:267-269 | cls is 00E0, ret is 00EE, and sys, shl, shr and subn encode as 0 |
| Encoder.RegisterCompareFields | src/main.rs:308-337 | se/sne with two registers give 5xy0 / 9xy0 with x and y the operand registers |
| Encoder.RegisterArithmeticFields | src/main.rs:415-494 | ld/or/and/xor/add/sub with two registers give 8xyN, N = 0..5 in that order, x and y the operand registers |
| Encoder.ArithmeticOpcode | src/main.rs:426-494 | or/and/xor/sub and register-to-register ld/add are packed as 8xyn from the two registers, n taken from the operation |
| Encoder.RegisterByteFields | src/main.rs:308-474 | se/sne/ld/add/rnd with a byte give 3/4/6/7/C xkk: x the register and kk the literal's low byte |
| Encoder.AddressFields | src/main.rs:283-305 | jmp (1nnn, or Bnnn with two operands), call (2nnn) and `ld I` (Annn) with a literal: nnn is the literal's low 12 bits |
| Encoder.LabelResolution | src/main.rs:273-302 | a label operand encodes the address of the first label of that name, masked to 12 bits, or 0xFFFF when there is none |
| Encoder.SentinelOnlyFromLabels | src/main.rs:718-720 | 0xFFFF comes only from a label lookup, so pass 2 stops only on an unresolved label |
| Encoder.DrawFields | src/main.rs:476-485 | drw gives Dxyn with the two registers and the literal's low nibble |
| Encoder.KeySkipFields | src/main.rs:340-348 | skp/sknp give Ex9E / ExA1 with x the register |
| Encoder.SpecialLoadFields | src/main.rs:391-411 | `ld vX, dt` is Fx07, `ld vX, st`/`ld vX, I`/`ld vX, key` Fx0A, `ld dt, vX` Fx15, `ld st, vX`/`ld I, vX`/`ld key, vX` Fx18, with x the general register |
| Encoder.LoadFamily | src/main.rs:350-425 | every `ld` opcode other than the sentinel lies in its form's family: 6xkk, Annn, Fx.. or 8xy0, and family 0 for an immediate into dt, st or key |
| Encoder.OpcodeFamily | src/main.rs:265-498 | every opcode other than the sentinel carries the family nibble the instruction set assigns to its mnemonic and operand form |
| Scan.Reach | src/main.rs:700-703 | the largest address reached becomes the maximum of itself and the current address; nothing else changes |
| Scan.StoredOperands | src/main.rs:672-683 | one stored operand per source operand; one followed by another and ending with a comma is stored with exactly that comma removed; the last is stored as written |
| Scan.DataBytes | src/main.rs:626-630 | one byte per `@db` operand, each that operand's value truncated to a byte |
| Scan.DataAdvance | src/main.rs:631-636 | `@db` with n values advances by n rounded up to even |
| Scan.OperandsRecorded | src/main.rs:662-685 | `ScanOperands`: an accepted operand list had a comma after every operand but the last and is stored in order without those commas; a rejected one fails with an invalid operand or a missing comma |
| Scan.InstructionLine | src/main.rs:650-697 | `ScanInstruction`: an instruction line is accepted only when the mnemonic is listed, the arity fits and the commas are there; it then appends one record at the current address with the stored operands, advances by 2 and leaves labels and data alone; every error is one of the four instruction errors |
| Scan.ShiftsNeverAssemble | src/main.rs:236 | a line with shl, shr or subn always fails |
| Scan.StoredRegister | src/main.rs:672-683 | a register operand, stored with a leftover comma, still reads as the register the validator accepted |
| Scan.RegisterPrefix | src/main.rs:310-311 | a stored operand that begins with a register token reads as that register |
| Scan.RegistersAccepted | src/main.rs:146-160 | for or, and, xor and sub every accepted operand, commas trimmed, is a register token |
| Scan.RegisterLineEncodable | src/main.rs:426-452 | a register operation that pass 1 accepts is `Encodable`: the encoder's register reads succeed and name the registers written on the line |
| Scan.LabelLine | src/main.rs:579-594 | a label is bound to the current address before the rest of the line, so an instruction on the same line gets the label's address; a lone label changes nothing else |
| Scan.DirectiveLine | src/main.rs:595-648 | `ScanDirective` and `DataStep`: `@org` needs one operand and moves the address to v when v < 0x1000, else fails; `@db` appends a block of its values truncated to bytes at the current address and advances by n rounded up to even; any other directive fails |
| Scan.InstructionCovers | src/main.rs:692-703 | after an instruction line everything recorded still lies below the largest address reached |
| Scan.DirectiveCovers | src/main.rs:617-641 | after a directive line everything recorded still lies below the largest address reached |
| Scan.StepCovers | src/main.rs:566-704 | each line keeps everything recorded below the largest address reached, which never decreases |
| Scan.ScanCovers | src/main.rs:566-704 | after any prefix of the program every instruction and data block lies below the largest address reached |
| Scan.StepExtends | src/main.rs:566-704 | `Step` keeps every instruction, label and data block recorded before the line, adds at most one of each, and never lowers the largest address reached |
| Scan.ScanExtends | src/main.rs:566-704 | `ScanPrefix`: a later prefix of pass 1 that succeeds extends every earlier one |
| Scan.ErrorPersists | src/main.rs:566-704 | the first error ends pass 1: later lines cannot undo or replace it |
| Scan.Assembler.constructor | src/main.rs:559-564 | the pass starts at 0x200 with nothing recorded |
| Scan.Assembler.ScanLine | src/main.rs:566-704 | one loop iteration gives the state `Step` specifies, or its error |
| Scan.Assembler.ScanInstructionLine | src/main.rs:650-697 | an instruction line as `ScanInstruction` specifies |
| Scan.Assembler.AddInstruction | src/main.rs:651-693 | on accepted operands the record is appended and the address advances by 2; otherwise nothing changes |
| Scan.Assembler.ScanParams | src/main.rs:662-685 | the operand loop agrees with `ScanOperands` |
| Scan.Assembler.NextOperand | src/main.rs:663-684 | one round of the operand loop agrees with `ScanOperands` |
| Scan.Assembler.ScanDirectiveLine | src/main.rs:595-648 | a directive line as `ScanDirective` specifies |
| Scan.Assembler.DataLine | src/main.rs:617-641 | a `@db` line appends its block and advances the address as `DataStep` specifies |
| Image.Zeros | src/main.rs:706 | the buffer holds 0xE00 zero bytes |
| Image.PutBytes | src/main.rs:722-723 | the written bytes replace the cells from the offset on and no other cell changes |
| Image.WriteCode | src/main.rs:714-724 | when pass 2 finishes, every label resolved and the buffer keeps its size |
| Image.DataLands | src/main.rs:708-712 | `WriteData`: a data byte lands at its address less 0x200 unless a later block covers the cell |
| Image.DataUntouched | src/main.rs:708-712 | a cell no block covers keeps its value |
| Image.AllResolvedWrites | src/main.rs:714-724 | when every label resolves, pass 2 writes every instruction |
| Image.FirstUnresolvedStops | src/main.rs:716-720 | pass 2 stops at the first instruction whose label does not resolve |
| Image.CodeLands | src/main.rs:722-723 | an opcode's high byte lands at its address less 0x200 and its low byte one after, unless a later instruction writes the cell |
| Image.CodeUntouched | src/main.rs:714-724 | a cell no instruction writes keeps its value |
| Image.ImageOutcome | src/main.rs:714-730 | `Image`: there is output exactly when every label resolves, and its length is the largest address reached less 0x200 |
| Image.ImageStops | src/main.rs:718-720 | the first unresolved label ends the run with no output, naming its mnemonic |
| Image.ImageOpcode | src/main.rs:706-724 | opcodes are written after the data, so an opcode byte wins over data in its cell |
| Image.ImageData | src/main.rs:708-712 | a cell no instruction writes holds the byte of the last block that covers it |
| Image.ImageZero | src/main.rs:706 | a cell nothing writes is zero |
| Image.OutputHoldsProgram | src/main.rs:700-730 | every instruction and every non-empty data block lies inside the output |
| Image.WriteCodeStopsEarly | src/main.rs:718-720 | once pass 2 stops, later instructions change nothing |
| Image.WriteCodeErrors | src/main.rs:716-720 | the only error of pass 2 is an unresolved label |
| Image.AssembledOutcome | src/main.rs:559-730 | `Assembled`: a pass-1 error is the result; otherwise there is output exactly when every label resolves, its length is the largest address reached less 0x200, and the only other error is an unresolved label |
| Image.WriteBlock | src/main.rs:709-711 | one block's bytes are copied to its address less 0x200 |
| Image.WriteBlocks | src/main.rs:708-712 | the blocks are copied in order as `WriteData` specifies |
| Image.PutOpcode | src/main.rs:722-723 | high byte at the offset, low byte after it |
| Image.WriteOpcodes | src/main.rs:714-724 | the opcodes are written in order as `WriteCode` specifies, stopping at an unresolved label |
| Image.WriteImage | src/main.rs:706-730 | pass 2 over the array gives `Image` of the first pass's result |
| Image.ScanLines | src/main.rs:566-704 | pass 1 over all lines gives `ScanPrefix`, stopping at the first error |
| Image.Assemble | src/main.rs:559-730 | the assembler gives `Assembled`: pass 1, then pass 2 on its result |

## Left out

- Command-line handling and the usage message are process plumbing
  (src/main.rs:541-545).
- File reading, `File::create` and the final `write` are I/O
  (src/main.rs:550-557, 727-734). The input is a sequence of lines already
  split into words, and the output is the byte sequence. A failed write is
  not modelled.
- Unicode `split_whitespace` is not modelled: words are given.
- `println!` diagnostics are not modelled; errors are `Error` values with
  the 1-based line number where the code prints one.
- The `Directive` struct has no counterpart of its own: its `name` and
  `dtype` fields are written but never read, and its `data` field only
  carries the `@org` target, which the `@org` branch of `ScanDirective`
  models directly (src/main.rs:21-25, 598-616).
- The commented-out `valid_tokens_for_param` has no counterpart.
- Panics are preconditions, not behaviour: `SourceDoesNotPanic`,
  `Encodable`, `PassTwoSafe` and `AddressesFit` exclude:
  - `unwrap` on a literal that does not parse;
  - u16 overflow of the current address;
  - u16 underflow or out-of-range indexing in pass 2.
- Scan.DataBytes: a `@db` value that does not parse makes the source panic.
  `LinesWellFormed` excludes it, and `DataByte` gives 0 there, a case that
  never arises.
- Label addresses are held as `nat`. The source's `as u16` conversions never
  change a value, because `AddressesFit` keeps the current address within
  u16.
