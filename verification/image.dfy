/**
 * The second pass of the assembler: the data blocks, then the encoded
 * instructions, are written into a 0xE00-byte buffer that stands for
 * memory 0x200..0xFFF; the output is the prefix of the buffer up to the
 * largest address the first pass reached. An opcode is written high byte
 * first. The first instruction whose label does not resolve stops the
 * pass without output.
 */
module Image {
  import opened Wrappers
  import opened Operands
  import opened Encoder
  import opened Scan

  /** Programs start at 0x200; the buffer covers the rest of the 4 KiB address space. */
  const LoadAddress: nat := 0x200
  const ImageSize: nat := 0xE00

  function Zeros(): (buf: seq<byte>)
    ensures |buf| == ImageSize && forall k :: 0 <= k < ImageSize ==> buf[k] == 0
  {
    seq(ImageSize, k => 0)
  }

  /** `bytes` written over `buf` from offset `at`; nothing else changes. */
  function PutBytes(buf: seq<byte>, bytes: seq<byte>, at: nat): (r: seq<byte>)
    requires at + |bytes| <= |buf|
    ensures |r| == |buf|
    ensures forall k :: 0 <= k < |buf| ==> r[k] == if at <= k < at + |bytes| then bytes[k - at] else buf[k]
  {
    buf[..at] + bytes + buf[at + |bytes|..]
  }

  // ----- data blocks -----

  /** Offset `k` of the buffer lies in the block. */
  predicate Covers(d: Data, k: nat) {
    d.address <= k + LoadAddress < d.address + |d.bytes|
  }

  /** The source indexes the buffer with `address - 0x200 + i`: a block with bytes must lie inside it. */
  predicate BlockFits(d: Data) {
    |d.bytes| > 0 ==> LoadAddress <= d.address && d.address + |d.bytes| <= LoadAddress + ImageSize
  }

  predicate DataFits(data: seq<Data>) {
    forall j :: 0 <= j < |data| ==> BlockFits(data[j])
  }

  /** The buffer after the blocks are written in order. */
  function WriteData(buf: seq<byte>, data: seq<Data>): (r: seq<byte>)
    requires |buf| == ImageSize && DataFits(data)
    ensures |r| == ImageSize
  {
    if |data| == 0 then buf
    else
      var prev := WriteData(buf, data[..|data| - 1]);
      var d := data[|data| - 1];
      if |d.bytes| == 0 then prev else PutBytes(prev, d.bytes, d.address - LoadAddress)
  }

  // ----- instructions -----

  /** Offset `k` is one of the two cells the instruction's opcode goes to. */
  predicate Writes(instr: Instr, k: nat) {
    instr.address <= k + LoadAddress <= instr.address + 1
  }

  /** The opcode byte an instruction puts at offset `k`: the high byte first, then the low byte. */
  function OpcodeByte(instr: Instr, labels: seq<Label>, k: nat): byte
    requires Encodable(instr)
  {
    var op := OpcodeFor(instr, labels);
    if k + LoadAddress == instr.address then op / 0x100 else op % 0x100
  }

  /** Pass 2 reaches instruction `j` when every earlier label resolved. */
  predicate Reached(instrs: seq<Instr>, labels: seq<Label>, j: nat)
    requires j <= |instrs|
  {
    forall i :: 0 <= i < j ==> Encodable(instrs[i]) && OpcodeFor(instrs[i], labels) != 0xFFFF
  }

  /** The source indexes the buffer with `address - 0x200` and `+ 1`. */
  predicate InstrFits(instr: Instr) {
    LoadAddress <= instr.address && instr.address + 2 <= LoadAddress + ImageSize
  }

  /** Every instruction pass 2 reaches can be encoded and, unless it stops the pass, written inside the buffer. */
  predicate CodeSafe(instrs: seq<Instr>, labels: seq<Label>) {
    forall j :: 0 <= j < |instrs| && Reached(instrs, labels, j) ==>
      Encodable(instrs[j]) && (OpcodeFor(instrs[j], labels) != 0xFFFF ==> InstrFits(instrs[j]))
  }

  lemma ReachedPrefix(instrs: seq<Instr>, labels: seq<Label>, n: nat, j: nat)
    requires j <= n <= |instrs|
    ensures Reached(instrs[..n], labels, j) == Reached(instrs, labels, j)
  {
    assert forall i :: 0 <= i < j ==> instrs[..n][i] == instrs[i];
  }

  lemma CodeSafePrefix(instrs: seq<Instr>, labels: seq<Label>, n: nat)
    requires n <= |instrs| && CodeSafe(instrs, labels)
    ensures CodeSafe(instrs[..n], labels)
  {
    forall j | 0 <= j < n && Reached(instrs[..n], labels, j)
      ensures Encodable(instrs[..n][j]) && (OpcodeFor(instrs[..n][j], labels) != 0xFFFF ==> InstrFits(instrs[..n][j]))
    {
      ReachedPrefix(instrs, labels, n, j);
    }
  }

  /**
   * The buffer after the instructions are written in order over `buf`, or
   * the error of the first instruction whose label does not resolve.
   */
  function WriteCode(buf: seq<byte>, instrs: seq<Instr>, labels: seq<Label>): (r: Result<seq<byte>, Error>)
    requires |buf| == ImageSize && CodeSafe(instrs, labels)
    ensures r.Ok? ==> |r.value| == ImageSize && Reached(instrs, labels, |instrs|)
  {
    if |instrs| == 0 then Ok(buf)
    else
      var n := |instrs| - 1;
      CodeSafePrefix(instrs, labels, n);
      match WriteCode(buf, instrs[..n], labels)
      case Err(e) => Err(e)
      case Ok(prev) =>
        ReachedPrefix(instrs, labels, n, n);
        var instr := instrs[n];
        var op := OpcodeFor(instr, labels);
        if op == 0xFFFF then Err(UnresolvedLabel(instr.name))
        else
          assert Reached(instrs, labels, n + 1);
          Ok(PutBytes(prev, [op / 0x100, op % 0x100], instr.address - LoadAddress))
  }

  // ----- the whole second pass -----

  /** What the second pass needs of the first pass's result in order not to panic. */
  predicate PassTwoSafe(s: ScanState) {
    DataFits(s.data) && CodeSafe(s.instrs, s.labels)
    && (Reached(s.instrs, s.labels, |s.instrs|) ==> LoadAddress <= s.maxRom <= LoadAddress + ImageSize)
  }

  /** The output of the second pass: the buffer prefix up to the largest address reached. */
  function Image(s: ScanState): Result<seq<byte>, Error>
    requires PassTwoSafe(s)
  {
    match WriteCode(WriteData(Zeros(), s.data), s.instrs, s.labels)
    case Err(e) => Err(e)
    case Ok(buf) => Ok(buf[..s.maxRom - LoadAddress])
  }

  /** The source does not panic on these lines: literals parse, the address stays a u16, and pass 2 stays in bounds. */
  predicate SourceDoesNotPanic(lines: seq<seq<string>>) {
    LinesWellFormed(lines) && AddressesFit(lines)
    && (ScanPrefix(lines, |lines|).Ok? ==> PassTwoSafe(ScanPrefix(lines, |lines|).value))
  }

  /** The whole assembler: the first pass over every line, then the second pass. */
  function Assembled(lines: seq<seq<string>>): Result<seq<byte>, Error>
    requires SourceDoesNotPanic(lines)
  {
    match ScanPrefix(lines, |lines|)
    case Err(e) => Err(e)
    case Ok(s) => Image(s)
  }

  // ----- where each byte lands -----

  /** A data byte lands at its address less 0x200 unless a later block covers the same cell. */
  lemma {:induction false} DataLands(buf: seq<byte>, data: seq<Data>, j: nat, k: nat)
    requires |buf| == ImageSize && DataFits(data) && j < |data| && k < ImageSize
    requires Covers(data[j], k) && forall i :: j < i < |data| ==> !Covers(data[i], k)
    ensures WriteData(buf, data)[k] == data[j].bytes[k + LoadAddress - data[j].address]
    decreases |data|
  {
    var n := |data| - 1;
    if j < n {
      assert data[..n][j] == data[j];
      DataLands(buf, data[..n], j, k);
    }
  }

  /** A cell no block covers keeps what the buffer held. */
  lemma {:induction false} DataUntouched(buf: seq<byte>, data: seq<Data>, k: nat)
    requires |buf| == ImageSize && DataFits(data) && k < ImageSize
    requires forall i :: 0 <= i < |data| ==> !Covers(data[i], k)
    ensures WriteData(buf, data)[k] == buf[k]
    decreases |data|
  {
    if |data| > 0 {
      DataUntouched(buf, data[..|data| - 1], k);
    }
  }

  /** When every label resolves, pass 2 writes every instruction. */
  lemma {:induction false} AllResolvedWrites(buf: seq<byte>, instrs: seq<Instr>, labels: seq<Label>)
    requires |buf| == ImageSize && CodeSafe(instrs, labels) && Reached(instrs, labels, |instrs|)
    ensures WriteCode(buf, instrs, labels).Ok?
    decreases |instrs|
  {
    if |instrs| > 0 {
      var n := |instrs| - 1;
      CodeSafePrefix(instrs, labels, n);
      ReachedPrefix(instrs, labels, n, n);
      AllResolvedWrites(buf, instrs[..n], labels);
    }
  }

  /** Pass 2 stops at the first instruction whose label does not resolve, naming its mnemonic. */
  lemma {:induction false} FirstUnresolvedStops(buf: seq<byte>, instrs: seq<Instr>, labels: seq<Label>, j: nat)
    requires |buf| == ImageSize && CodeSafe(instrs, labels)
    requires j < |instrs| && Reached(instrs, labels, j) && Encodable(instrs[j]) && OpcodeFor(instrs[j], labels) == 0xFFFF
    ensures WriteCode(buf, instrs, labels) == Err(UnresolvedLabel(instrs[j].name))
    decreases |instrs|
  {
    var n := |instrs| - 1;
    CodeSafePrefix(instrs, labels, n);
    if j < n {
      ReachedPrefix(instrs, labels, n, j);
      assert instrs[..n][j] == instrs[j];
      FirstUnresolvedStops(buf, instrs[..n], labels, j);
    } else {
      ReachedPrefix(instrs, labels, n, n);
      AllResolvedWrites(buf, instrs[..n], labels);
    }
  }

  /** A two-byte write: the first byte at `at`, the second just after it. */
  lemma PairAt(buf: seq<byte>, hi: byte, lo: byte, at: nat, k: nat)
    requires at + 2 <= |buf| && at <= k < at + 2
    ensures PutBytes(buf, [hi, lo], at)[k] == if k == at then hi else lo
  {
  }

  /** When pass 2 completes, the last instruction's opcode is written over what the earlier ones left. */
  lemma LastWrite(buf: seq<byte>, instrs: seq<Instr>, labels: seq<Label>)
    requires |buf| == ImageSize && CodeSafe(instrs, labels) && |instrs| > 0 && WriteCode(buf, instrs, labels).Ok?
    ensures CodeSafe(instrs[..|instrs| - 1], labels) && WriteCode(buf, instrs[..|instrs| - 1], labels).Ok?
    ensures Encodable(instrs[|instrs| - 1]) && InstrFits(instrs[|instrs| - 1])
    ensures var op := OpcodeFor(instrs[|instrs| - 1], labels);
            WriteCode(buf, instrs, labels).value
            == PutBytes(WriteCode(buf, instrs[..|instrs| - 1], labels).value, [op / 0x100, op % 0x100], instrs[|instrs| - 1].address - LoadAddress)
  {
    var n := |instrs| - 1;
    CodeSafePrefix(instrs, labels, n);
    ReachedPrefix(instrs, labels, n, n);
  }

  /** An opcode byte lands at the instruction's address less 0x200 (high byte) or one past it (low byte), unless a later instruction writes the same cell. */
  lemma {:induction false} CodeLands(buf: seq<byte>, instrs: seq<Instr>, labels: seq<Label>, j: nat, k: nat)
    requires |buf| == ImageSize && CodeSafe(instrs, labels) && WriteCode(buf, instrs, labels).Ok?
    requires j < |instrs| && k < ImageSize && Writes(instrs[j], k)
    requires forall i :: j < i < |instrs| ==> !Writes(instrs[i], k)
    ensures Encodable(instrs[j])
    ensures WriteCode(buf, instrs, labels).value[k] == OpcodeByte(instrs[j], labels, k)
    decreases |instrs|
  {
    var n := |instrs| - 1;
    LastWrite(buf, instrs, labels);
    var prev := WriteCode(buf, instrs[..n], labels).value;
    var op := OpcodeFor(instrs[n], labels);
    var at := instrs[n].address - LoadAddress;
    var out := WriteCode(buf, instrs, labels).value;
    if j < n {
      assert !Writes(instrs[n], k);
      assert out[k] == prev[k];
      assert instrs[..n][j] == instrs[j];
      assert forall i :: j < i < n ==> instrs[..n][i] == instrs[i];
      CodeLands(buf, instrs[..n], labels, j, k);
    } else {
      PairAt(prev, op / 0x100, op % 0x100, at, k);
    }
  }

  /** A cell no instruction writes keeps what the buffer held. */
  lemma {:induction false} CodeUntouched(buf: seq<byte>, instrs: seq<Instr>, labels: seq<Label>, k: nat)
    requires |buf| == ImageSize && CodeSafe(instrs, labels) && WriteCode(buf, instrs, labels).Ok? && k < ImageSize
    requires forall i :: 0 <= i < |instrs| ==> !Writes(instrs[i], k)
    ensures WriteCode(buf, instrs, labels).value[k] == buf[k]
    decreases |instrs|
  {
    if |instrs| > 0 {
      var n := |instrs| - 1;
      CodeSafePrefix(instrs, labels, n);
      CodeUntouched(buf, instrs[..n], labels, k);
    }
  }

  // ----- the output -----

  /** Pass 2 produces output exactly when every label resolves; the output is the buffer up to the largest address reached. */
  lemma ImageOutcome(s: ScanState)
    requires PassTwoSafe(s)
    ensures Image(s).Ok? <==> Reached(s.instrs, s.labels, |s.instrs|)
    ensures Image(s).Ok? ==> |Image(s).value| == s.maxRom - LoadAddress
  {
    if Reached(s.instrs, s.labels, |s.instrs|) {
      AllResolvedWrites(WriteData(Zeros(), s.data), s.instrs, s.labels);
    }
  }

  /** The first unresolved label ends the run with no output. */
  lemma ImageStops(s: ScanState, j: nat)
    requires PassTwoSafe(s) && j < |s.instrs| && Reached(s.instrs, s.labels, j)
    requires Encodable(s.instrs[j]) && OpcodeFor(s.instrs[j], s.labels) == 0xFFFF
    ensures Image(s) == Err(UnresolvedLabel(s.instrs[j].name))
  {
    FirstUnresolvedStops(WriteData(Zeros(), s.data), s.instrs, s.labels, j);
  }

  /** Instructions are written after all data, so an opcode byte wins over any data byte in its cell. */
  lemma ImageOpcode(s: ScanState, j: nat, k: nat)
    requires PassTwoSafe(s) && Image(s).Ok? && j < |s.instrs| && k < |Image(s).value|
    requires Writes(s.instrs[j], k) && forall i :: j < i < |s.instrs| ==> !Writes(s.instrs[i], k)
    ensures Encodable(s.instrs[j]) && Image(s).value[k] == OpcodeByte(s.instrs[j], s.labels, k)
  {
    CodeLands(WriteData(Zeros(), s.data), s.instrs, s.labels, j, k);
  }

  /** A cell no instruction writes holds the byte of the last block that covers it. */
  lemma ImageData(s: ScanState, j: nat, k: nat)
    requires PassTwoSafe(s) && Image(s).Ok? && j < |s.data| && k < |Image(s).value|
    requires Covers(s.data[j], k) && forall i :: j < i < |s.data| ==> !Covers(s.data[i], k)
    requires forall i :: 0 <= i < |s.instrs| ==> !Writes(s.instrs[i], k)
    ensures Image(s).value[k] == s.data[j].bytes[k + LoadAddress - s.data[j].address]
  {
    var buf := WriteData(Zeros(), s.data);
    CodeUntouched(buf, s.instrs, s.labels, k);
    DataLands(Zeros(), s.data, j, k);
  }

  /** No other cell changes: one that nothing writes is zero. */
  lemma ImageZero(s: ScanState, k: nat)
    requires PassTwoSafe(s) && Image(s).Ok? && k < |Image(s).value|
    requires forall i :: 0 <= i < |s.data| ==> !Covers(s.data[i], k)
    requires forall i :: 0 <= i < |s.instrs| ==> !Writes(s.instrs[i], k)
    ensures Image(s).value[k] == 0
  {
    var buf := WriteData(Zeros(), s.data);
    CodeUntouched(buf, s.instrs, s.labels, k);
    DataUntouched(Zeros(), s.data, k);
  }

  /** The only error of pass 2 is a label that does not resolve. */
  lemma {:induction false} WriteCodeErrors(buf: seq<byte>, instrs: seq<Instr>, labels: seq<Label>)
    requires |buf| == ImageSize && CodeSafe(instrs, labels)
    ensures WriteCode(buf, instrs, labels).Err? ==> WriteCode(buf, instrs, labels).error.UnresolvedLabel?
    decreases |instrs|
  {
    if |instrs| > 0 {
      var n := |instrs| - 1;
      CodeSafePrefix(instrs, labels, n);
      WriteCodeErrors(buf, instrs[..n], labels);
      var prev := WriteCode(buf, instrs[..n], labels);
      if prev.Err? {
        assert WriteCode(buf, instrs, labels) == prev;
      } else {
        ReachedPrefix(instrs, labels, n, n);
        assert WriteCode(buf, instrs, labels).Err? ==> WriteCode(buf, instrs, labels) == Err(UnresolvedLabel(instrs[n].name));
      }
    }
  }

  /**
   * The assembler's outcome: the first error of pass 1 if there is one;
   * otherwise output exactly when every label resolves, sized up to the
   * largest address reached, and an unresolved label as the only other
   * error.
   */
  lemma AssembledOutcome(lines: seq<seq<string>>)
    requires SourceDoesNotPanic(lines)
    ensures ScanPrefix(lines, |lines|).Err? ==> Assembled(lines) == Err(ScanPrefix(lines, |lines|).error)
    ensures var p := ScanPrefix(lines, |lines|);
            p.Ok? ==>
              (Assembled(lines).Ok? <==> Reached(p.value.instrs, p.value.labels, |p.value.instrs|))
              && (Assembled(lines).Ok? ==> |Assembled(lines).value| == p.value.maxRom - LoadAddress)
              && (Assembled(lines).Err? ==> Assembled(lines).error.UnresolvedLabel?)
  {
    var p := ScanPrefix(lines, |lines|);
    if p.Ok? {
      ImageOutcome(p.value);
      WriteCodeErrors(WriteData(Zeros(), p.value.data), p.value.instrs, p.value.labels);
    }
  }

  /** The output holds every opcode and every data byte the program defines. */
  lemma OutputHoldsProgram(lines: seq<seq<string>>)
    requires SourceDoesNotPanic(lines) && Assembled(lines).Ok?
    ensures ScanPrefix(lines, |lines|).Ok?
    ensures var s, out := ScanPrefix(lines, |lines|).value, Assembled(lines).value;
            (forall j :: 0 <= j < |s.instrs| ==> LoadAddress <= s.instrs[j].address && s.instrs[j].address + 2 <= LoadAddress + |out|)
            && (forall j :: 0 <= j < |s.data| && |s.data[j].bytes| > 0 ==>
                  LoadAddress <= s.data[j].address && s.data[j].address + |s.data[j].bytes| <= LoadAddress + |out|)
  {
    var s := ScanPrefix(lines, |lines|).value;
    ScanCovers(lines, |lines|);
    ImageOutcome(s);
    forall j | 0 <= j < |s.instrs|
      ensures LoadAddress <= s.instrs[j].address
    {
      assert Reached(s.instrs, s.labels, j);
    }
  }

  // ----- the second pass as the assembler runs it -----

  /** If pass 2 stops within the first n instructions, it stops there for the whole list. */
  lemma {:induction false} WriteCodeStopsEarly(buf: seq<byte>, instrs: seq<Instr>, labels: seq<Label>, n: nat)
    requires |buf| == ImageSize && CodeSafe(instrs, labels) && n <= |instrs|
    ensures CodeSafe(instrs[..n], labels)
    ensures WriteCode(buf, instrs[..n], labels).Err? ==> WriteCode(buf, instrs, labels) == WriteCode(buf, instrs[..n], labels)
    decreases |instrs| - n
  {
    CodeSafePrefix(instrs, labels, n);
    if n < |instrs| && WriteCode(buf, instrs[..n], labels).Err? {
      WriteCodeStopsEarly(buf, instrs, labels, n + 1);
      CodeSafePrefix(instrs, labels, n + 1);
      assert instrs[..n + 1][..n] == instrs[..n];
    }
    if n == |instrs| {
      assert instrs[..n] == instrs;
    }
  }

  /** One data block written into the buffer byte by byte. */
  method WriteBlock(buffer: array<byte>, dat: Data)
    requires buffer.Length == ImageSize && BlockFits(dat)
    modifies buffer
    ensures buffer[..] == if |dat.bytes| == 0 then old(buffer[..]) else PutBytes(old(buffer[..]), dat.bytes, dat.address - LoadAddress)
  {
    for index := 0 to |dat.bytes|
      invariant forall k :: 0 <= k < ImageSize ==>
                  buffer[k] == if dat.address <= k + LoadAddress < dat.address + index
                               then dat.bytes[k + LoadAddress - dat.address] else old(buffer[k])
    {
      buffer[dat.address - LoadAddress + index] := dat.bytes[index];
    }
  }

  /** The data blocks in order. */
  method WriteBlocks(buffer: array<byte>, data: seq<Data>)
    requires buffer.Length == ImageSize && DataFits(data)
    modifies buffer
    ensures buffer[..] == WriteData(old(buffer[..]), data)
  {
    ghost var initial := buffer[..];
    for j := 0 to |data|
      invariant buffer[..] == WriteData(initial, data[..j])
    {
      assert data[..j + 1][..j] == data[..j];
      WriteBlock(buffer, data[j]);
    }
    assert data[..|data|] == data;
  }

  /** One opcode into two cells, high byte first. */
  method PutOpcode(buffer: array<byte>, at: nat, opcode: Opcode)
    requires at + 2 <= buffer.Length
    modifies buffer
    ensures buffer[..] == PutBytes(old(buffer[..]), [opcode / 0x100, opcode % 0x100], at)
  {
    buffer[at] := opcode / 0x100;
    buffer[at + 1] := opcode % 0x100;
  }

  /** The opcodes in order, high byte first; stops at the first label that does not resolve. */
  method WriteOpcodes(buffer: array<byte>, instrs: seq<Instr>, labels: seq<Label>) returns (r: Outcome<Error>)
    requires buffer.Length == ImageSize && CodeSafe(instrs, labels)
    modifies buffer
    ensures WriteCode(old(buffer[..]), instrs, labels) == if r.Pass? then Ok(buffer[..]) else Err(r.error)
  {
    ghost var initial := buffer[..];
    for j := 0 to |instrs|
      invariant CodeSafe(instrs[..j], labels)
      invariant WriteCode(initial, instrs[..j], labels) == Ok(buffer[..])
    {
      WriteCodeStopsEarly(initial, instrs, labels, j + 1);
      assert instrs[..j + 1][..j] == instrs[..j];
      ReachedPrefix(instrs, labels, j + 1, j);
      ReachedPrefix(instrs, labels, j, j);
      var instr := instrs[j];
      var opcode := OpcodeFor(instr, labels);
      if opcode == 0xFFFF {
        return Fail(UnresolvedLabel(instr.name));
      }
      PutOpcode(buffer, instr.address - LoadAddress, opcode);
      assert WriteCode(initial, instrs[..j + 1], labels) == Ok(buffer[..]);
    }
    assert instrs[..|instrs|] == instrs;
    return Pass;
  }

  /** Pass 2 over a 0xE00-byte array: the data blocks, then the opcodes, then the prefix up to the largest address reached. */
  method WriteImage(s: ScanState) returns (r: Result<seq<byte>, Error>)
    requires PassTwoSafe(s)
    ensures r == Image(s)
  {
    var buffer := new byte[ImageSize](_ => 0);
    assert buffer[..] == Zeros();
    WriteBlocks(buffer, s.data);
    var outcome := WriteOpcodes(buffer, s.instrs, s.labels);
    if outcome.Fail? {
      return Err(outcome.error);
    }
    return Ok(buffer[..s.maxRom - LoadAddress]);
  }

  /** Pass 1 line by line on an Assembler, stopping at the first error. */
  method ScanLines(lines: seq<seq<string>>) returns (r: Result<ScanState, Error>)
    requires LinesWellFormed(lines)
    ensures r == ScanPrefix(lines, |lines|)
  {
    var asm := new Assembler();
    for n := 0 to |lines|
      invariant ScanPrefix(lines, n) == Ok(asm.State())
    {
      ScanPrefixNext(lines, n, asm.State());
      var outcome := asm.ScanLine(lines[n], n + 1);
      if outcome.Fail? {
        ErrorPersists(lines, n + 1, |lines|);
        return Err(outcome.error);
      }
    }
    return Ok(asm.State());
  }

  /** The assembler: pass 1, then pass 2 on its result. */
  method Assemble(lines: seq<seq<string>>) returns (r: Result<seq<byte>, Error>)
    requires SourceDoesNotPanic(lines)
    ensures r == Assembled(lines)
  {
    var scanned := ScanLines(lines);
    if scanned.Err? {
      return Err(scanned.error);
    }
    r := WriteImage(scanned.value);
  }
}
