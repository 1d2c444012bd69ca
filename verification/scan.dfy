/**
 * The first pass of the assembler: a state machine over the lines of the
 * source, each given as its whitespace-separated words. It keeps the
 * current address, the largest address reached so far, and the
 * instructions, labels and data blocks collected so far.
 *
 * `Step` is the specification of one line; `Assembler.ScanLine` is the
 * imperative pass that the assembler runs, proved to agree with it.
 */
module Scan {
  import opened Wrappers
  import opened Tokens
  import opened Operands
  import opened Encoder

  type byte = x: int | 0 <= x < 0x100

  /** The bytes of one `@db` line and the address they start at. */
  datatype Data = Data(bytes: seq<byte>, address: nat)

  datatype ScanState = ScanState(
    address: nat,
    maxRom: nat,
    instrs: seq<Instr>,
    labels: seq<Label>,
    data: seq<Data>)

  /** Programs are loaded at 0x200; nothing has been reached yet. */
  const Initial: ScanState := ScanState(0x200, 0, [], [], [])

  /** Why the assembler stops; line numbers count from 1. */
  datatype Error =
    | NotAnInstruction(line: nat)
    | BadParamCount(line: nat)
    | InvalidParam(line: nat)
    | MissingComma(line: nat)
    | BadDirectiveParams(line: nat)
    | OrgOutOfBounds
    | UnknownDirective(line: nat)
    | UnresolvedLabel(mnemonic: string)

  function Max(a: nat, b: nat): nat { if a >= b then a else b }

  /** The largest address reached now includes the current address. */
  function Reach(s: ScanState): (r: ScanState)
    ensures r == s.(maxRom := Max(s.maxRom, s.address))
  {
    if s.address > s.maxRom then s.(maxRom := s.address) else s
  }

  /** How an operand is stored: every operand but the last loses the comma that separates it from the next. */
  function Stored(ops: seq<string>, k: nat): string
    requires k < |ops|
  {
    if k < |ops| - 1 && EndsWith(ops[k], ",") then ops[k][..|ops[k]| - 1] else ops[k]
  }

  /**
   * The operands of an accepted line as they are stored: an operand followed
   * by another loses exactly one trailing comma, and the last operand is
   * stored as written.
   */
  function StoredOperands(ops: seq<string>): (stored: seq<string>)
    ensures |stored| == |ops|
    ensures forall k :: 0 <= k < |ops| - 1 && EndsWith(ops[k], ",") ==> stored[k] + "," == ops[k]
    ensures |ops| > 0 ==> stored[|ops| - 1] == ops[|ops| - 1]
  {
    seq(|ops|, k requires 0 <= k < |ops| => Stored(ops, k))
  }

  /**
   * The operand loop of one instruction line, from operand `i` on: each
   * operand, with its trailing commas trimmed, goes to the validator at its
   * position; every operand but the last must end with a comma.
   */
  function ScanOperands(instr: Instr, ops: seq<string>, i: nat, line: nat): Result<Instr, Error>
    requires i <= |ops|
    decreases |ops| - i
  {
    if i == |ops| then Ok(instr)
    else
      var v := ValidateParam(TrimEndCommas(ops[i]), i, instr);
      if !v.accepted then Err(InvalidParam(line))
      else if i < |ops| - 1 && !EndsWith(ops[i], ",") then Err(MissingComma(line))
      else ScanOperands(v.instr.(params := v.instr.params + [Stored(ops, i)]), ops, i + 1, line)
  }

  /** An instruction line whose mnemonic is `words[offset]`. */
  function ScanInstruction(s: ScanState, words: seq<string>, offset: nat, line: nat): Result<ScanState, Error>
    requires offset < |words|
  {
    var word := words[offset];
    var ops := words[offset + 1..];
    if !InstructionIsValid(word) then Err(NotAnInstruction(line))
    else if !NumParamsValidForInstruction(|ops|, word) then Err(BadParamCount(line))
    else
      match ScanOperands(NewInstr(word, s.address), ops, 0, line)
      case Err(e) => Err(e)
      case Ok(instr) => Ok(Reach(s.(instrs := s.instrs + [instr], address := s.address + 2)))
  }

  /** The literals of a `@db` line parse once their trailing commas are removed (the source unwraps them). */
  predicate DataLiteralsParse(ops: seq<string>) {
    forall k :: 0 <= k < |ops| ==> ImmediateIsValid(TrimEndCommas(ops[k]), 0xFFFF)
  }

  /**
   * One `@db` value: the literal with its trailing commas removed, truncated
   * to a byte. The source unwraps the parse; a literal that does not parse
   * never gets here (DataLiteralsParse), and is given 0.
   */
  function DataByte(op: string): byte {
    var lit := TrimEndCommas(op);
    if ImmediateIsValid(lit, 0xFFFF) then NumForString(lit, false) % 0x100 else 0
  }

  /** One more element of a sequence's prefix is that element appended. */
  lemma PrefixGrows<T>(s: seq<T>, i: nat)
    requires i < |s|
    ensures s[..i + 1] == s[..i] + [s[i]]
  {
  }

  /** A sequence's suffix from `i` is its element at `i` followed by the suffix from `i + 1`. */
  lemma SuffixShrinks<T>(s: seq<T>, i: nat)
    requires i < |s|
    ensures s[i..] == [s[i]] + s[i + 1..]
  {
  }

  /** The values of a `@db` line, each truncated to a byte, in line order. */
  function DataBytes(ops: seq<string>): (bytes: seq<byte>)
    ensures |bytes| == |ops|
    ensures forall k :: 0 <= k < |ops| ==> bytes[k] == DataByte(ops[k])
  {
    seq(|ops|, k requires 0 <= k < |ops| => DataByte(ops[k]))
  }

  /** `@db` takes whole instruction slots: n bytes advance the address by n rounded up to even. */
  function DataAdvance(n: nat): (a: nat)
    ensures a % 2 == 0 && n <= a <= n + 1
  {
    if n % 2 != 0 then n + 1 else n
  }

  /** A `@db` line with operands `ops`: one block at the current address, which moves on by whole instruction slots. */
  function DataStep(s: ScanState, ops: seq<string>): ScanState
  {
    Reach(s.(data := s.data + [Data(DataBytes(ops), s.address)], address := s.address + DataAdvance(|ops|)))
  }

  /** The literals a directive line parses can be parsed (the source unwraps them). */
  predicate DirectiveLiteralsParse(words: seq<string>)
    requires |words| > 0
  {
    var name := RemovePrefix(words[0], "@");
    (name == "org" && |words| == 2 ==> ImmediateIsValid(words[1], 0xFFFF))
    && (name == "db" ==> DataLiteralsParse(words[1..]))
  }

  /** A directive line; `@db` takes any number of operands, `@org` exactly one. */
  function ScanDirective(s: ScanState, words: seq<string>, line: nat): Result<ScanState, Error>
    requires |words| > 0 && DirectiveLiteralsParse(words)
  {
    var name := RemovePrefix(words[0], "@");
    var n := |words| - 1;
    if n != ExpectedParamsForDirective(name) && name != "db" then Err(BadDirectiveParams(line))
    else if name == "org" then
      var target := NumForString(words[1], false);
      if target >= 0x1000 then Err(OrgOutOfBounds)
      else Ok(s.(address := target))
    else if name == "db" then Ok(DataStep(s, words[1..]))
    else Err(UnknownDirective(line))
  }

  predicate LineWellFormed(words: seq<string>) {
    |words| > 0 && IsPreprocessor(words[0]) ==> DirectiveLiteralsParse(words)
  }

  /**
   * One line. A comment or a lone label does not move the largest address
   * reached, and neither does `@org`; an instruction, a `@db` line and an
   * empty line do. After a label the rest of the line is always read as an
   * instruction.
   */
  function Step(s: ScanState, words: seq<string>, line: nat): Result<ScanState, Error>
    requires LineWellFormed(words)
  {
    if |words| == 0 then Ok(Reach(s))
    else if StartsWith(words[0], ";") then Ok(s)
    else if IsLabel(words[0]) then
      var bound := s.(labels := s.labels + [Label(RemoveSuffix(words[0], ":"), s.address)]);
      if |words| < 2 then Ok(bound) else ScanInstruction(bound, words, 1, line)
    else if IsPreprocessor(words[0]) then ScanDirective(s, words, line)
    else ScanInstruction(s, words, 0, line)
  }

  predicate LinesWellFormed(lines: seq<seq<string>>) {
    forall k :: 0 <= k < |lines| ==> LineWellFormed(lines[k])
  }

  /** The first pass over the first `n` lines; the first error stops it. */
  function ScanPrefix(lines: seq<seq<string>>, n: nat): Result<ScanState, Error>
    requires n <= |lines| && LinesWellFormed(lines)
  {
    if n == 0 then Ok(Initial)
    else
      match ScanPrefix(lines, n - 1)
      case Err(e) => Err(e)
      case Ok(s) => Step(s, lines[n - 1], n)
  }

  /**
   * The current address is a u16 in the source: no prefix of the program
   * that scans without error takes it past 0xFFFF.
   */
  predicate AddressesFit(lines: seq<seq<string>>)
    requires LinesWellFormed(lines)
  {
    forall n :: 0 <= n <= |lines| && ScanPrefix(lines, n).Ok? ==> ScanPrefix(lines, n).value.address <= 0xFFFF
  }

  // ----- one instruction line -----

  /**
   * An accepted operand list has a comma after every operand but the last,
   * and each operand is stored without that comma; a rejected one stops
   * the run at an invalid operand or a missing comma.
   */
  lemma {:induction false} OperandsRecorded(instr: Instr, ops: seq<string>, i: nat, line: nat)
    requires i <= |ops|
    ensures var r := ScanOperands(instr, ops, i, line);
            r.Ok? ==>
              (forall k :: i <= k < |ops| - 1 ==> EndsWith(ops[k], ","))
              && r.value.name == instr.name && r.value.address == instr.address
              && r.value.params == instr.params + StoredOperands(ops)[i..]
    ensures var r := ScanOperands(instr, ops, i, line);
            r.Err? ==> r.error == InvalidParam(line) || r.error == MissingComma(line)
    decreases |ops| - i
  {
    if i < |ops| {
      var v := ValidateParam(TrimEndCommas(ops[i]), i, instr);
      if v.accepted && !(i < |ops| - 1 && !EndsWith(ops[i], ",")) {
        var next := v.instr.(params := v.instr.params + [Stored(ops, i)]);
        assert ScanOperands(instr, ops, i, line) == ScanOperands(next, ops, i + 1, line);
        OperandsRecorded(next, ops, i + 1, line);
        var r := ScanOperands(next, ops, i + 1, line);
        if r.Ok? {
          forall k | i <= k < |ops| - 1
            ensures EndsWith(ops[k], ",")
          {
            if k == i {
              assert i < |ops| - 1 && EndsWith(ops[i], ",");
            }
          }
        }
        var stored := StoredOperands(ops);
        SuffixShrinks(stored, i);
        assert next.params == instr.params + [stored[i]];
        AppendAssociates(instr.params, [stored[i]], stored[i + 1..]);
      }
    }
  }

  /** One round of the operand loop. */
  lemma OperandStep(instr: Instr, ops: seq<string>, i: nat, line: nat)
    requires i < |ops|
    ensures var v := ValidateParam(TrimEndCommas(ops[i]), i, instr);
            ScanOperands(instr, ops, i, line)
            == if !v.accepted then Err(InvalidParam(line))
               else if i < |ops| - 1 && !EndsWith(ops[i], ",") then Err(MissingComma(line))
               else ScanOperands(v.instr.(params := v.instr.params + [Stored(ops, i)]), ops, i + 1, line)
  {
  }

  /**
   * An instruction line is accepted only when its mnemonic is one of the
   * twenty names, its operand count fits the arity table and every operand
   * but the last ends with a comma. It appends one record at the current
   * address, holding the mnemonic and the stored operands, and advances the
   * address by 2.
   */
  lemma InstructionLine(s: ScanState, words: seq<string>, offset: nat, line: nat)
    requires offset < |words|
    ensures var word, ops, r := words[offset], words[offset + 1..], ScanInstruction(s, words, offset, line);
            (!InstructionIsValid(word) ==> r == Err(NotAnInstruction(line)))
            && (InstructionIsValid(word) && !NumParamsValidForInstruction(|ops|, word) ==> r == Err(BadParamCount(line)))
            && (r.Err? ==> r.error in {NotAnInstruction(line), BadParamCount(line), InvalidParam(line), MissingComma(line)})
    ensures var word, ops, r := words[offset], words[offset + 1..], ScanInstruction(s, words, offset, line);
            r.Ok? ==>
              InstructionIsValid(word) && NumParamsValidForInstruction(|ops|, word)
              && (forall k :: 0 <= k < |ops| - 1 ==> EndsWith(ops[k], ","))
              && r.value.address == s.address + 2 && r.value.maxRom == Max(s.maxRom, s.address + 2)
              && r.value.labels == s.labels && r.value.data == s.data
              && |r.value.instrs| == |s.instrs| + 1 && r.value.instrs[..|s.instrs|] == s.instrs
              && r.value.instrs[|s.instrs|].name == word && r.value.instrs[|s.instrs|].address == s.address
              && r.value.instrs[|s.instrs|].params == StoredOperands(ops)
  {
    var word, ops := words[offset], words[offset + 1..];
    if InstructionIsValid(word) && NumParamsValidForInstruction(|ops|, word) {
      OperandsRecorded(NewInstr(word, s.address), ops, 0, line);
      assert StoredOperands(ops)[0..] == StoredOperands(ops);
    }
  }

  /** shl, shr and subn are listed mnemonics but no operand is valid for them, so a line using them never assembles. */
  lemma ShiftsNeverAssemble(s: ScanState, words: seq<string>, offset: nat, line: nat)
    requires offset < |words| && words[offset] in {"shl", "shr", "subn"}
    ensures ScanInstruction(s, words, offset, line).Err?
  {
    var word, ops := words[offset], words[offset + 1..];
    if NumParamsValidForInstruction(|ops|, word) {
      assert |ops| == 2;
      assert word !in ValidatedMnemonics;
      assert !ValidateParam(TrimEndCommas(ops[0]), 0, NewInstr(word, s.address)).accepted;
    }
  }

  /**
   * A register operand survives storage: the validator sees it without its
   * trailing commas, the encoder reads the stored form, and both name the
   * same register.
   */
  lemma StoredRegister(ops: seq<string>, k: nat)
    requires k < |ops| && IsRegister(TrimEndCommas(ops[k]))
    ensures RegisterReadable(StoredOperands(ops)[k])
    ensures RegisterTokens[RegisterIndex(StoredOperands(ops)[k])] == TrimEndCommas(ops[k])
  {
    var op, t, stored := ops[k], TrimEndCommas(ops[k]), StoredOperands(ops)[k];
    TrimmedOnlyCommas(op);
    assert |t| == 2;
    if stored != op {
      assert stored + "," == op;
      assert |t| < |op|;
    }
    assert stored[..2] == t by {
      assert stored == op[..|stored|];
    }
    RegisterPrefix(stored, t);
  }

  /** A string that begins with a register token reads as that register. */
  lemma RegisterPrefix(p: string, t: string)
    requires IsRegister(t) && |p| >= 2 && p[..2] == t
    ensures RegisterReadable(p) && RegisterTokens[RegisterIndex(p)] == t
  {
    var i :| 0 <= i < |RegisterTokens| && RegisterTokens[i] == t;
    RegisterIndexOfToken(i);
    assert p[1..2] == t[1..2];
  }

  /** For the register operations every accepted operand, commas trimmed, is a register token. */
  lemma {:induction false} RegistersAccepted(instr: Instr, ops: seq<string>, i: nat, line: nat)
    requires i <= |ops| && instr.name in {"or", "and", "xor", "sub"}
    ensures ScanOperands(instr, ops, i, line).Ok? ==> forall k :: i <= k < |ops| ==> IsRegister(TrimEndCommas(ops[k]))
    decreases |ops| - i
  {
    if i < |ops| {
      var param := TrimEndCommas(ops[i]);
      ValidationTable(param, i, instr);
      var v := ValidateParam(param, i, instr);
      if v.accepted && !(i < |ops| - 1 && !EndsWith(ops[i], ",")) {
        RegistersAccepted(v.instr.(params := v.instr.params + [Stored(ops, i)]), ops, i + 1, line);
      }
    }
  }

  /**
   * A register operation that pass 1 accepts can be encoded, and the
   * registers the encoder reads from its stored operands are the registers
   * written on the line, even when an operand carried extra commas.
   */
  lemma RegisterLineEncodable(s: ScanState, words: seq<string>, offset: nat, line: nat)
    requires offset < |words| && words[offset] in {"or", "and", "xor", "sub"}
    ensures var r := ScanInstruction(s, words, offset, line);
            r.Ok? ==>
              |words| == offset + 3 && |r.value.instrs| == |s.instrs| + 1
              && var instr := r.value.instrs[|s.instrs|];
                 Encodable(instr) && RegAt(instr, 0) && RegAt(instr, 1)
                 && RegisterTokens[Reg(instr, 0)] == TrimEndCommas(words[offset + 1])
                 && RegisterTokens[Reg(instr, 1)] == TrimEndCommas(words[offset + 2])
  {
    var word, ops := words[offset], words[offset + 1..];
    var r := ScanInstruction(s, words, offset, line);
    if r.Ok? {
      var start := NewInstr(word, s.address);
      assert |ops| == 2 && ScanOperands(start, ops, 0, line).Ok?
             && r.value.instrs == s.instrs + [ScanOperands(start, ops, 0, line).value] by {
        assert InstructionIsValid(word) && NumParamsValidForInstruction(|ops|, word);
      }
      var instr := ScanOperands(start, ops, 0, line).value;
      assert instr.name == word && instr.params == StoredOperands(ops) by {
        OperandsRecorded(start, ops, 0, line);
        assert StoredOperands(ops)[0..] == StoredOperands(ops);
      }
      assert IsRegister(TrimEndCommas(ops[0])) && IsRegister(TrimEndCommas(ops[1])) by {
        RegistersAccepted(start, ops, 0, line);
      }
      RegistersRead(instr, ops);
      assert ops[0] == words[offset + 1] && ops[1] == words[offset + 2];
    }
  }

  /** Two stored register operands of a register operation read back as the registers written. */
  lemma RegistersRead(instr: Instr, ops: seq<string>)
    requires instr.name in {"or", "and", "xor", "sub"} && |ops| == 2 && instr.params == StoredOperands(ops)
    requires IsRegister(TrimEndCommas(ops[0])) && IsRegister(TrimEndCommas(ops[1]))
    ensures Encodable(instr) && RegAt(instr, 0) && RegAt(instr, 1)
    ensures RegisterTokens[Reg(instr, 0)] == TrimEndCommas(ops[0]) && RegisterTokens[Reg(instr, 1)] == TrimEndCommas(ops[1])
  {
    StoredRegister(ops, 0);
    StoredRegister(ops, 1);
  }

  // ----- the other kinds of line -----

  /**
   * A label is bound to the current address before the rest of its line is
   * read, so an instruction on the same line gets the label's address.
   */
  lemma LabelLine(s: ScanState, words: seq<string>, line: nat)
    requires |words| > 0 && IsLabel(words[0]) && !StartsWith(words[0], ";")
    ensures LineWellFormed(words)
    ensures var r := Step(s, words, line);
            r.Ok? ==>
              r.value.labels == s.labels + [Label(RemoveSuffix(words[0], ":"), s.address)]
              && (|words| == 1 ==> r.value == s.(labels := r.value.labels))
              && (|words| >= 2 ==>
                    r.value.address == s.address + 2
                    && |r.value.instrs| == |s.instrs| + 1
                    && r.value.instrs[|s.instrs|].name == words[1]
                    && r.value.instrs[|s.instrs|].address == s.address)
  {
    LabelIsNotDirective(words[0]);
    if |words| >= 2 {
      var bound := s.(labels := s.labels + [Label(RemoveSuffix(words[0], ":"), s.address)]);
      InstructionLine(bound, words, 1, line);
    }
  }

  /**
   * `@org v` needs exactly one operand and moves the current address to v
   * when v < 0x1000; `@db` with n values appends a block of n bytes at the
   * current address and advances it by n rounded up to even; any other
   * directive stops the run.
   */
  lemma DirectiveLine(s: ScanState, words: seq<string>, line: nat)
    requires |words| > 0 && IsPreprocessor(words[0]) && DirectiveLiteralsParse(words)
    ensures LineWellFormed(words)
    ensures var name, n, r := RemovePrefix(words[0], "@"), |words| - 1, Step(s, words, line);
            name == "org" ==>
              (n != 1 ==> r == Err(BadDirectiveParams(line)))
              && (n == 1 ==> r == if NumForString(words[1], false) < 0x1000
                                  then Ok(s.(address := NumForString(words[1], false)))
                                  else Err(OrgOutOfBounds))
    ensures var name, n, r := RemovePrefix(words[0], "@"), |words| - 1, Step(s, words, line);
            name == "db" ==>
              r.Ok? && r.value.address == s.address + DataAdvance(n)
              && r.value.maxRom == Max(s.maxRom, s.address + DataAdvance(n))
              && r.value.instrs == s.instrs && r.value.labels == s.labels
              && |r.value.data| == |s.data| + 1 && r.value.data[..|s.data|] == s.data
              && r.value.data[|s.data|].address == s.address && |r.value.data[|s.data|].bytes| == n
              && forall k :: 0 <= k < n ==>
                   r.value.data[|s.data|].bytes[k] == NumForString(TrimEndCommas(words[k + 1]), false) % 0x100
    ensures var name, n, r := RemovePrefix(words[0], "@"), |words| - 1, Step(s, words, line);
            name !in {"org", "db"} ==> r == Err(if n == 0 then UnknownDirective(line) else BadDirectiveParams(line))
  {
    assert !StartsWith(words[0], ";");
    assert !IsLabel(words[0]);
  }

  // ----- what the first pass keeps true -----

  /** Every instruction and every data block lies below the largest address reached. */
  predicate Covered(s: ScanState) {
    (forall k :: 0 <= k < |s.instrs| ==> s.instrs[k].address + 2 <= s.maxRom)
    && (forall k :: 0 <= k < |s.data| ==> s.data[k].address + |s.data[k].bytes| <= s.maxRom)
  }

  /** An instruction line records its instruction below the new largest address reached. */
  lemma InstructionCovers(s: ScanState, words: seq<string>, offset: nat, line: nat)
    requires offset < |words| && Covered(s)
    ensures var r := ScanInstruction(s, words, offset, line);
            r.Ok? ==> Covered(r.value) && r.value.maxRom >= s.maxRom
  {
    var word, ops := words[offset], words[offset + 1..];
    if InstructionIsValid(word) && NumParamsValidForInstruction(|ops|, word) {
      OperandsRecorded(NewInstr(word, s.address), ops, 0, line);
    }
  }

  /** A `@db` line records its block below the new largest address reached; `@org` moves only the address. */
  lemma DirectiveCovers(s: ScanState, words: seq<string>, line: nat)
    requires |words| > 0 && DirectiveLiteralsParse(words) && Covered(s)
    ensures var r := ScanDirective(s, words, line);
            r.Ok? ==> Covered(r.value) && r.value.maxRom >= s.maxRom
  {
  }

  /** Each line keeps everything it found below the largest address reached, which never decreases. */
  lemma StepCovers(s: ScanState, words: seq<string>, line: nat)
    requires Covered(s) && LineWellFormed(words)
    ensures Step(s, words, line).Ok? ==> Covered(Step(s, words, line).value) && Step(s, words, line).value.maxRom >= s.maxRom
  {
    if |words| > 0 && !StartsWith(words[0], ";") {
      if IsLabel(words[0]) {
        LabelIsNotDirective(words[0]);
        if |words| >= 2 {
          InstructionCovers(s.(labels := s.labels + [Label(RemoveSuffix(words[0], ":"), s.address)]), words, 1, line);
        }
      } else if IsPreprocessor(words[0]) {
        DirectiveCovers(s, words, line);
      } else {
        InstructionCovers(s, words, 0, line);
      }
    }
  }

  /** The first pass keeps every instruction and data block below the largest address it reached. */
  lemma {:induction false} ScanCovers(lines: seq<seq<string>>, n: nat)
    requires n <= |lines| && LinesWellFormed(lines)
    ensures ScanPrefix(lines, n).Ok? ==> Covered(ScanPrefix(lines, n).value)
  {
    if n > 0 {
      ScanCovers(lines, n - 1);
      if ScanPrefix(lines, n - 1).Ok? {
        StepCovers(ScanPrefix(lines, n - 1).value, lines[n - 1], n);
      }
    }
  }

  /** One more line of pass 1 after a prefix that scanned without error. */
  lemma ScanPrefixNext(lines: seq<seq<string>>, n: nat, s: ScanState)
    requires n < |lines| && LinesWellFormed(lines) && ScanPrefix(lines, n) == Ok(s)
    ensures LineWellFormed(lines[n]) && ScanPrefix(lines, n + 1) == Step(s, lines[n], n + 1)
  {
  }

  /** The first error ends the pass: no later line can undo or replace it. */
  lemma {:induction false} ErrorPersists(lines: seq<seq<string>>, n: nat, m: nat)
    requires n <= m <= |lines| && LinesWellFormed(lines)
    ensures ScanPrefix(lines, n).Err? ==> ScanPrefix(lines, m) == ScanPrefix(lines, n)
    decreases m - n
  {
    if n < m {
      ErrorPersists(lines, n, m - 1);
    }
  }

  /** Pass 1 only appends: what a state has recorded is kept by every later state. */
  predicate Extends(s: ScanState, t: ScanState) {
    s.instrs <= t.instrs && s.labels <= t.labels && s.data <= t.data && s.maxRom <= t.maxRom
  }

  /**
   * A line keeps everything recorded before it and adds at most one label,
   * one instruction and one data block; the largest address reached never
   * decreases.
   */
  lemma StepExtends(s: ScanState, words: seq<string>, line: nat)
    requires LineWellFormed(words)
    ensures var r := Step(s, words, line);
            r.Ok? ==>
              Extends(s, r.value)
              && |r.value.instrs| <= |s.instrs| + 1 && |r.value.labels| <= |s.labels| + 1 && |r.value.data| <= |s.data| + 1
  {
    if |words| > 0 && !StartsWith(words[0], ";") {
      if IsLabel(words[0]) {
        LabelIsNotDirective(words[0]);
        if |words| >= 2 {
          InstructionLine(s.(labels := s.labels + [Label(RemoveSuffix(words[0], ":"), s.address)]), words, 1, line);
        }
      } else if IsPreprocessor(words[0]) {
        DirectiveLine(s, words, line);
      } else {
        InstructionLine(s, words, 0, line);
      }
    }
  }

  /** A later prefix of pass 1 that scans without error extends every earlier one. */
  lemma {:induction false} ScanExtends(lines: seq<seq<string>>, n: nat, m: nat)
    requires n <= m <= |lines| && LinesWellFormed(lines)
    ensures ScanPrefix(lines, m).Ok? ==> ScanPrefix(lines, n).Ok? && Extends(ScanPrefix(lines, n).value, ScanPrefix(lines, m).value)
    decreases m - n
  {
    if n < m && ScanPrefix(lines, m).Ok? {
      ScanExtends(lines, n + 1, m);
      if ScanPrefix(lines, n).Err? {
        ErrorPersists(lines, n, n + 1);
      } else {
        StepExtends(ScanPrefix(lines, n).value, lines[n], n + 1);
      }
    }
  }

  // ----- the first pass as the assembler runs it -----

  /** The state of the first pass, updated in place line by line. */
  class Assembler {
    var currentAddress: nat
    var maxRomSize: nat
    var instrs: seq<Instr>
    var labels: seq<Label>
    var data: seq<Data>

    function State(): ScanState
      reads this
    {
      ScanState(currentAddress, maxRomSize, instrs, labels, data)
    }

    constructor ()
      ensures State() == Initial
    {
      currentAddress := 0x200;
      maxRomSize := 0;
      instrs := [];
      labels := [];
      data := [];
    }

    /**
     * One iteration of the pass-1 loop over lines: the state the
     * specification gives, or its error. On an error the run stops, so the
     * state left behind is never read.
     */
    method ScanLine(words: seq<string>, line: nat) returns (r: Outcome<Error>)
      requires LineWellFormed(words)
      modifies this
      ensures Step(old(State()), words, line) == if r.Pass? then Ok(State()) else Err(r.error)
    {
      if |words| > 0 {
        if StartsWith(words[0], ";") {
          return Pass;
        }
        var offset := 0;
        if IsLabel(words[0]) {
          labels := labels + [Label(RemoveSuffix(words[0], ":"), currentAddress)];
          if |words| < 2 {
            return Pass;
          }
          offset := 1;
        } else if IsPreprocessor(words[0]) {
          r := ScanDirectiveLine(words, line);
          return;
        }
        r := ScanInstructionLine(words, offset, line);
        if r.Fail? {
          return;
        }
      }
      if currentAddress > maxRomSize {
        maxRomSize := currentAddress;
      }
      return Pass;
    }

    /**
     * An instruction line: validates and stores each operand in a record,
     * then appends the record and advances the address. The largest address
     * reached is updated by the caller.
     */
    method ScanInstructionLine(words: seq<string>, offset: nat, line: nat) returns (r: Outcome<Error>)
      requires offset < |words|
      modifies this
      ensures ScanInstruction(old(State()), words, offset, line) == if r.Pass? then Ok(Reach(State())) else Err(r.error)
    {
      var word := words[offset];
      if !InstructionIsValid(word) {
        return Fail(NotAnInstruction(line));
      }
      var numParams := |words| - offset - 1;
      if !NumParamsValidForInstruction(numParams, word) {
        return Fail(BadParamCount(line));
      }
      ghost var before := State();
      assert |words[offset + 1..]| == numParams;
      r := AddInstruction(words, offset, line);
      assert ScanInstruction(before, words, offset, line)
          == match ScanOperands(NewInstr(word, before.address), words[offset + 1..], 0, line)
             case Err(e) => Err(e)
             case Ok(v) => Ok(Reach(before.(instrs := before.instrs + [v], address := before.address + 2)));
    }

    /** Validates and stores the operands of the mnemonic `words[offset]`, then appends the record and moves on by one slot. */
    method AddInstruction(words: seq<string>, offset: nat, line: nat) returns (r: Outcome<Error>)
      requires offset < |words|
      modifies this
      ensures match ScanOperands(NewInstr(words[offset], old(currentAddress)), words[offset + 1..], 0, line)
              case Err(e) => r == Fail(e) && State() == old(State())
              case Ok(v) => r == Pass && State() == old(State()).(instrs := old(instrs) + [v], address := old(currentAddress) + 2)
    {
      var instr := new PendingInstr(words[offset], currentAddress);
      r := ScanParams(instr, words, offset, line);
      if r.Fail? {
        return;
      }
      instrs := instrs + [instr.Value()];
      currentAddress := currentAddress + 2;
    }

    /** The operand loop: each operand is validated with its trailing commas trimmed, then stored in the record. */
    static method ScanParams(instr: PendingInstr, words: seq<string>, offset: nat, line: nat) returns (r: Outcome<Error>)
      requires offset < |words| && instr.params == []
      modifies instr
      ensures ScanOperands(old(instr.Value()), words[offset + 1..], 0, line) == if r.Pass? then Ok(instr.Value()) else Err(r.error)
    {
      ghost var ops := words[offset + 1..];
      var numParams := |words| - offset - 1;
      var i := 0;
      while i < numParams
        invariant i <= numParams
        invariant ScanOperands(instr.Value(), ops, i, line) == ScanOperands(old(instr.Value()), ops, 0, line)
      {
        r := NextOperand(instr, words, offset, i, line);
        if r.Fail? {
          return;
        }
        i := i + 1;
      }
      return Pass;
    }

    /** One round of the operand loop: operand `i` is validated, checked for its comma and stored. */
    static method NextOperand(instr: PendingInstr, words: seq<string>, offset: nat, i: nat, line: nat) returns (r: Outcome<Error>)
      requires offset + 1 + i < |words|
      modifies instr
      ensures var ops := words[offset + 1..];
              ScanOperands(old(instr.Value()), ops, i, line)
              == if r.Pass? then ScanOperands(instr.Value(), ops, i + 1, line) else Err(r.error)
    {
      ghost var ops := words[offset + 1..];
      var numParams := |words| - offset - 1;
      var theStr := words[i + 1 + offset];
      assert theStr == ops[i];
      OperandStep(instr.Value(), ops, i, line);
      var ok := instr.ParamValid(TrimEndCommas(theStr), i);
      if !ok {
        return Fail(InvalidParam(line));
      }
      if i < numParams - 1 {
        if EndsWith(theStr, ",") {
          theStr := theStr[..|theStr| - 1];
        } else {
          return Fail(MissingComma(line));
        }
      }
      assert theStr == Stored(ops, i);
      instr.params := instr.params + [theStr];
      return Pass;
    }

    /** A directive line: `@org`, `@db` or an error. */
    method ScanDirectiveLine(words: seq<string>, line: nat) returns (r: Outcome<Error>)
      requires |words| > 0 && DirectiveLiteralsParse(words)
      modifies this
      ensures ScanDirective(old(State()), words, line) == if r.Pass? then Ok(State()) else Err(r.error)
    {
      var name := RemovePrefix(words[0], "@");
      var numParams := |words| - 1;
      if numParams != ExpectedParamsForDirective(name) && name != "db" {
        return Fail(BadDirectiveParams(line));
      }
      if name == "org" {
        var target := NumForString(words[1], false);
        if target >= 0x1000 {
          return Fail(OrgOutOfBounds);
        }
        currentAddress := target;
      } else if name == "db" {
        assert name != "org";
        DataLine(words[1..]);
      } else {
        return Fail(UnknownDirective(line));
      }
      return Pass;
    }

    /** A `@db` line: its values truncated to bytes, at the current address, which moves on by whole instruction slots. */
    method DataLine(ops: seq<string>)
      requires DataLiteralsParse(ops)
      modifies this
      ensures State() == DataStep(old(State()), ops)
    {
      var numParams := |ops|;
      ghost var before := State();
      ghost var values := DataBytes(ops);
      var bytes: seq<byte> := [];
      var i := 0;
      while i < numParams
        invariant 0 <= i <= numParams
        invariant bytes == values[..i]
        invariant State() == before
      {
        var value := DataByte(ops[i]);
        PrefixGrows(values, i);
        bytes := bytes + [value];
        i := i + 1;
      }
      assert values[..i] == values;
      var block := Data(bytes, currentAddress);
      if numParams % 2 != 0 {
        currentAddress := currentAddress + numParams + 1;
      } else {
        currentAddress := currentAddress + numParams;
      }
      data := data + [block];
      if currentAddress > maxRomSize {
        maxRomSize := currentAddress;
      }
      assert State() == Reach(before.(data := before.data + [Data(values, before.address)],
                                      address := before.address + DataAdvance(numParams)));
    }
  }
}
