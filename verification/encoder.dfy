/**
 * The opcode encoder of the second pass: packs a validated instruction
 * record into its 16-bit opcode, resolving a label operand against the
 * label list. Opcode fields are named as in Cowgod's Chip-8 Technical
 * Reference, section 3.1: the family nibble, x, y, n, kk and nnn.
 *
 * Opcodes are 16-bit values held as integers. The source assembles them
 * with `|` over fields whose bits never overlap, so each `a | (b << k)`
 * is written `a + b * 2^k`, and each `v & (2^k - 1)` is `v % 2^k`.
 */
module Encoder {
  import opened Wrappers
  import opened Tokens
  import opened Operands

  datatype Label = Label(name: string, address: nat)

  /** The address of the first label named `name`, in definition order. */
  function FindLabel(labels: seq<Label>, name: string): (r: Option<nat>)
    ensures r.None? <==> forall i :: 0 <= i < |labels| ==> labels[i].name != name
    ensures r.Some? ==> exists i :: 0 <= i < |labels| && labels[i] == Label(name, r.value)
                                    && forall j :: 0 <= j < i ==> labels[j].name != name
  {
    if |labels| == 0 then None
    else if labels[0].name == name then Some(labels[0].address)
    else
      var r := FindLabel(labels[1..], name);
      assert r.Some? ==> exists i :: 0 <= i < |labels[1..]| && labels[1..][i] == Label(name, r.value)
                                     && forall j :: 0 <= j < i ==> labels[1..][j].name != name;
      r
  }

  // ----- opcode fields -----

  type Opcode = x: int | 0 <= x < 0x10000

  function Family(op: Opcode): nat { op / 0x1000 }
  function X(op: Opcode): nat { op / 0x100 % 0x10 }
  function Y(op: Opcode): nat { op / 0x10 % 0x10 }
  function N(op: Opcode): nat { op % 0x10 }
  function KK(op: Opcode): nat { op % 0x100 }
  function NNN(op: Opcode): nat { op % 0x1000 }

  /** Splitting `q * 16 + r` at a nibble boundary. */
  lemma NibbleSplit(q: nat, r: nat)
    requires r < 0x10
    ensures (q * 0x10 + r) / 0x10 == q && (q * 0x10 + r) % 0x10 == r
  {
  }

  /** Splitting `q * 256 + r` at a byte boundary. */
  lemma ByteSplit(q: nat, r: nat)
    requires r < 0x100
    ensures (q * 0x100 + r) / 0x100 == q && (q * 0x100 + r) % 0x100 == r
  {
  }

  /** Splitting `q * 4096 + r` at the family boundary. */
  lemma FamilySplit(q: nat, r: nat)
    requires r < 0x1000
    ensures (q * 0x1000 + r) / 0x1000 == q && (q * 0x1000 + r) % 0x1000 == r
  {
  }

  /** `fxyn`: four nibbles, high to low. */
  function Pack4(f: nat, x: nat, y: nat, n: nat): (op: Opcode)
    requires f < 16 && x < 16 && y < 16 && n < 16
    ensures Family(op) == f && X(op) == x && Y(op) == y && N(op) == n
  {
    var fx := f * 0x10 + x;
    var fxy := fx * 0x10 + y;
    NibbleSplit(fxy, n);
    NibbleSplit(fx, y);
    NibbleSplit(f, x);
    assert fxy * 0x10 + n == f * 0x1000 + x * 0x100 + y * 0x10 + n;
    assert (fxy * 0x10 + n) / 0x100 == fx;
    assert (fxy * 0x10 + n) / 0x1000 == f;
    f * 0x1000 + x * 0x100 + y * 0x10 + n
  }

  /** `fxkk`: a family nibble, a register nibble and a byte. */
  function PackByte(f: nat, x: nat, kk: nat): (op: Opcode)
    requires f < 16 && x < 16 && kk < 0x100
    ensures Family(op) == f && X(op) == x && KK(op) == kk
  {
    var fx := f * 0x10 + x;
    NibbleSplit(f, x);
    ByteSplit(fx, kk);
    FamilySplit(f, x * 0x100 + kk);
    assert fx * 0x100 + kk == f * 0x1000 + (x * 0x100 + kk);
    f * 0x1000 + x * 0x100 + kk
  }

  /** `fnnn`: a family nibble and a 12-bit address. */
  function PackAddress(f: nat, nnn: nat): (op: Opcode)
    requires f < 16 && nnn < 0x1000
    ensures Family(op) == f && NNN(op) == nnn
  {
    FamilySplit(f, nnn);
    f * 0x1000 + nnn
  }

  // ----- operand reads -----

  /** The encoder reads a register number from the second character of the operand. */
  predicate RegAt(instr: Instr, k: nat) {
    k < |instr.params| && RegisterReadable(instr.params[k])
  }

  /** The encoder parses the operand as a literal (and the source unwraps the parse). */
  predicate NumAt(instr: Instr, k: nat) {
    k < |instr.params| && ImmediateIsValid(instr.params[k], 0xFFFF)
  }

  function Reg(instr: Instr, k: nat): (r: nat)
    requires RegAt(instr, k)
    ensures r < 16
  {
    RegisterIndex(instr.params[k])
  }

  function Num(instr: Instr, k: nat): (r: nat)
    requires NumAt(instr, k)
    ensures r <= 0xFFFF
  {
    NumForString(instr.params[k], false)
  }

  /**
   * The operands the encoder reads for this record can be read: the source
   * slices and unwraps them, so a record outside this predicate panics.
   */
  predicate Encodable(instr: Instr) {
    var name := instr.name;
    if name == "jmp" then
      if |instr.params| == 1 then instr.refsLabel || NumAt(instr, 0) else NumAt(instr, 1)
    else if name == "call" then
      |instr.params| >= 1 && (instr.refsLabel || NumAt(instr, 0))
    else if name in {"se", "sne", "add"} then
      RegAt(instr, 0) && (if instr.hasImmediate then NumAt(instr, 1) else RegAt(instr, 1))
    else if name in {"skp", "sknp"} then
      RegAt(instr, 0)
    else if name == "ld" then
      if instr.hasImmediate then
        if instr.specialRegister > 0 then
          instr.specialRegister == 1 ==> (if instr.refsLabel then |instr.params| >= 2 else NumAt(instr, 1))
        else RegAt(instr, 0) && NumAt(instr, 1)
      else if instr.specialRegister > 0 then
        if instr.specialRegisterSrc then RegAt(instr, 0) else RegAt(instr, 1)
      else RegAt(instr, 0) && RegAt(instr, 1)
    else if name in {"or", "and", "xor", "sub"} then
      RegAt(instr, 0) && RegAt(instr, 1)
    else if name == "rnd" then
      RegAt(instr, 0) && NumAt(instr, 1)
    else if name == "drw" then
      RegAt(instr, 0) && RegAt(instr, 1) && NumAt(instr, 2)
    else true
  }

  // ----- the forms of the instruction set -----

  /** `base | x << 8 | y << 4`: 5xy0, 9xy0 and 8xyn. */
  predicate RegisterRegisterForm(instr: Instr) {
    instr.name in {"or", "and", "xor", "sub"}
    || (instr.name in {"se", "sne", "add"} && !instr.hasImmediate)
    || (instr.name == "ld" && !instr.hasImmediate && instr.specialRegister == 0)
  }

  /** The n nibble of the 8xyn register operations. */
  const ArithmeticCode: map<string, nat> :=
    map["ld" := 0x0, "or" := 0x1, "and" := 0x2, "xor" := 0x3, "add" := 0x4, "sub" := 0x5]

  /** `base | x << 8 | (kk & 0xff)` */
  predicate RegisterByteForm(instr: Instr) {
    instr.name == "rnd"
    || (instr.name in {"se", "sne", "add"} && instr.hasImmediate)
    || (instr.name == "ld" && instr.hasImmediate && instr.specialRegister == 0)
  }

  const RegisterByteBase: map<string, Opcode> :=
    map["se" := 0x3000, "sne" := 0x4000, "ld" := 0x6000, "add" := 0x7000, "rnd" := 0xC000]

  /** `base | (nnn & 0xfff)`: jmp (1nnn, or Bnnn with two operands), call (2nnn), ld I (Annn). */
  predicate AddressForm(instr: Instr) {
    instr.name in {"jmp", "call"} || (instr.name == "ld" && instr.hasImmediate && instr.specialRegister == 1)
  }

  function AddressFamily(instr: Instr): nat
    requires AddressForm(instr)
  {
    if instr.name == "jmp" then (if |instr.params| == 1 then 0x1 else 0xB)
    else if instr.name == "call" then 0x2
    else 0xA
  }

  /** Position of the address operand. */
  function AddressOperand(instr: Instr): nat
    requires AddressForm(instr)
  {
    if instr.name == "call" || (instr.name == "jmp" && |instr.params| == 1) then 0 else 1
  }

  /** The address operand is a label name to look up (the two-operand jmp never looks one up). */
  predicate ByName(instr: Instr) {
    AddressForm(instr) && instr.refsLabel && !(instr.name == "jmp" && |instr.params| != 1)
  }

  const EncodedMnemonics: set<string> := ValidatedMnemonics + {"cls", "ret"}

  /**
   * The first label named `name` in address form `base`, or the sentinel
   * 0xFFFF when there is none. Label addresses are u16 in the source; the
   * low twelve bits of an address are the same before and after that
   * truncation, so the mask is taken on the address itself.
   */
  function ResolveLabel(labels: seq<Label>, name: string, family: nat): Opcode
    requires family < 16
  {
    match FindLabel(labels, name)
    case Some(address) => PackAddress(family, address % 0x1000)
    case None => 0xFFFF
  }

  /** A label that is found gives its address's low twelve bits in the family asked for; a missing one gives the sentinel. */
  lemma ResolveLabelFields(labels: seq<Label>, name: string, family: nat)
    requires family < 16
    ensures FindLabel(labels, name).None? ==> ResolveLabel(labels, name, family) == 0xFFFF
    ensures FindLabel(labels, name).Some? ==>
              Family(ResolveLabel(labels, name, family)) == family
              && NNN(ResolveLabel(labels, name, family)) == FindLabel(labels, name).value % 0x1000
  {
  }

  /** The `ld` forms: Annn, 6xkk, Fx07, Fx0A, Fx15, Fx18 and 8xy0. */
  function LoadOpcode(instr: Instr, labels: seq<Label>): Opcode
    requires Encodable(instr) && instr.name == "ld"
  {
    if instr.hasImmediate then
      if instr.specialRegister > 0 then
        if instr.specialRegister == 1 then
          if instr.refsLabel then ResolveLabel(labels, instr.params[1], 0xA)
          else PackAddress(0xA, Num(instr, 1) % 0x1000)
        else 0
      else PackByte(0x6, Reg(instr, 0), Num(instr, 1) % 0x100)
    else if instr.specialRegister > 0 then
      if instr.specialRegisterSrc then
        if instr.specialRegister == 2 then PackByte(0xF, Reg(instr, 0), 0x07)
        else PackByte(0xF, Reg(instr, 0), 0x0A)
      else if instr.specialRegister == 2 then PackByte(0xF, Reg(instr, 1), 0x15)
      else PackByte(0xF, Reg(instr, 1), 0x18)
    else Pack4(0x8, Reg(instr, 0), Reg(instr, 1), 0x0)
  }

  /** The opcode of one instruction; 0xFFFF signals a label that is not defined. */
  function OpcodeFor(instr: Instr, labels: seq<Label>): Opcode
    requires Encodable(instr)
  {
    var name := instr.name;
    if name == "cls" then 0x00E0
    else if name == "ret" then 0x00EE
    else if name == "sys" then 0
    else if name == "jmp" then
      if |instr.params| == 1 then
        if instr.refsLabel then ResolveLabel(labels, instr.params[0], 0x1)
        else PackAddress(0x1, Num(instr, 0) % 0x1000)
      else PackAddress(0xB, Num(instr, 1) % 0x1000)
    else if name == "call" then
      if instr.refsLabel then ResolveLabel(labels, instr.params[0], 0x2)
      else PackAddress(0x2, Num(instr, 0) % 0x1000)
    else if name == "se" then
      if instr.hasImmediate then PackByte(0x3, Reg(instr, 0), Num(instr, 1) % 0x100)
      else Pack4(0x5, Reg(instr, 0), Reg(instr, 1), 0x0)
    else if name == "sne" then
      if instr.hasImmediate then PackByte(0x4, Reg(instr, 0), Num(instr, 1) % 0x100)
      else Pack4(0x9, Reg(instr, 0), Reg(instr, 1), 0x0)
    else if name == "skp" then PackByte(0xE, Reg(instr, 0), 0x9E)
    else if name == "sknp" then PackByte(0xE, Reg(instr, 0), 0xA1)
    else if name == "ld" then LoadOpcode(instr, labels)
    else if name == "or" then Pack4(0x8, Reg(instr, 0), Reg(instr, 1), 0x1)
    else if name == "and" then Pack4(0x8, Reg(instr, 0), Reg(instr, 1), 0x2)
    else if name == "xor" then Pack4(0x8, Reg(instr, 0), Reg(instr, 1), 0x3)
    else if name == "add" then
      if instr.hasImmediate then PackByte(0x7, Reg(instr, 0), Num(instr, 1) % 0x100)
      else Pack4(0x8, Reg(instr, 0), Reg(instr, 1), 0x4)
    else if name == "rnd" then PackByte(0xC, Reg(instr, 0), Num(instr, 1) % 0x100)
    else if name == "drw" then
      Pack4(0xD, Reg(instr, 0), Reg(instr, 1), Num(instr, 2) % 0x10)
    else if name == "sub" then Pack4(0x8, Reg(instr, 0), Reg(instr, 1), 0x5)
    else 0
  }

  // ----- what the opcode says: each field decodes back to its operand -----

  /**
   * The family nibble of each instruction form, as the instruction set
   * assigns it: 1nnn/Bnnn jmp, 2nnn call, 3xkk/5xy0 se, 4xkk/9xy0 sne,
   * 6xkk/8xy0/Annn/Fx.. ld, 7xkk/8xy4 add, 8xyn for the register
   * operations, Cxkk rnd, Dxyn drw, Ex.. skp and sknp; 0 for the rest.
   */
  function InstructionFamily(instr: Instr): nat
  {
    var name, imm, special := instr.name, instr.hasImmediate, instr.specialRegister;
    if name == "jmp" then (if |instr.params| == 1 then 0x1 else 0xB)
    else if name == "call" then 0x2
    else if name == "se" then (if imm then 0x3 else 0x5)
    else if name == "sne" then (if imm then 0x4 else 0x9)
    else if name == "add" then (if imm then 0x7 else 0x8)
    else if name in {"or", "and", "xor", "sub"} then 0x8
    else if name == "rnd" then 0xC
    else if name == "drw" then 0xD
    else if name in {"skp", "sknp"} then 0xE
    else if name == "ld" then
      if imm then (if special == 0 then 0x6 else if special == 1 then 0xA else 0x0)
      else if special > 0 then 0xF else 0x8
    else 0x0
  }

  /** Every `ld` form lands in its family: 6xkk, Annn, Fx.., 8xy0 (0 for an immediate into dt, st or key). */
  lemma LoadFamily(instr: Instr, labels: seq<Label>)
    requires Encodable(instr) && instr.name == "ld"
    ensures var op := LoadOpcode(instr, labels);
            op != 0xFFFF ==> Family(op) == InstructionFamily(instr)
  {
  }

  /** Every opcode but the unresolved-label sentinel carries the family nibble of its instruction form. */
  lemma OpcodeFamily(instr: Instr, labels: seq<Label>)
    requires Encodable(instr)
    ensures var op := OpcodeFor(instr, labels);
            op != 0xFFFF ==> Family(op) == InstructionFamily(instr)
  {
    if instr.name == "ld" {
      LoadFamily(instr, labels);
    }
  }

  lemma FixedOpcodes(instr: Instr, labels: seq<Label>)
    requires Encodable(instr)
    ensures instr.name == "cls" ==> OpcodeFor(instr, labels) == 0x00E0
    ensures instr.name == "ret" ==> OpcodeFor(instr, labels) == 0x00EE
    ensures instr.name !in EncodedMnemonics ==> OpcodeFor(instr, labels) == 0
  {
  }

  /** 5xy0 and 9xy0: skip on equal or unequal registers. */
  lemma RegisterCompareFields(instr: Instr, labels: seq<Label>)
    requires Encodable(instr) && instr.name in {"se", "sne"} && !instr.hasImmediate
    ensures var op := OpcodeFor(instr, labels);
            Family(op) == (if instr.name == "se" then 0x5 else 0x9) && N(op) == 0
            && X(op) == Reg(instr, 0) && Y(op) == Reg(instr, 1)
  {
    if instr.name == "se" {
      assert OpcodeFor(instr, labels) == Pack4(0x5, Reg(instr, 0), Reg(instr, 1), 0x0);
    } else {
      assert OpcodeFor(instr, labels) == Pack4(0x9, Reg(instr, 0), Reg(instr, 1), 0x0);
    }
  }

  /** 8xyn: the register operations, n selecting the operation. */
  lemma RegisterArithmeticFields(instr: Instr, labels: seq<Label>)
    requires Encodable(instr) && RegisterRegisterForm(instr) && instr.name !in {"se", "sne"}
    ensures instr.name in ArithmeticCode
    ensures var op := OpcodeFor(instr, labels);
            Family(op) == 0x8 && N(op) == ArithmeticCode[instr.name]
            && X(op) == Reg(instr, 0) && Y(op) == Reg(instr, 1)
  {
    ArithmeticOpcode(instr, labels);
  }

  /** The register operations are packed as 8xyn with n from ArithmeticCode. */
  lemma ArithmeticOpcode(instr: Instr, labels: seq<Label>)
    requires Encodable(instr) && RegisterRegisterForm(instr) && instr.name !in {"se", "sne"}
    ensures instr.name in ArithmeticCode && RegAt(instr, 0) && RegAt(instr, 1)
    ensures OpcodeFor(instr, labels) == Pack4(0x8, Reg(instr, 0), Reg(instr, 1), ArithmeticCode[instr.name])
  {
    if instr.name == "ld" {
      assert OpcodeFor(instr, labels) == LoadOpcode(instr, labels);
    }
  }

  /** Register-byte forms: the family comes from the base, x is the register, kk the low byte of the literal. */
  lemma RegisterByteFields(instr: Instr, labels: seq<Label>)
    requires Encodable(instr) && RegisterByteForm(instr)
    ensures var op := OpcodeFor(instr, labels);
            Family(op) == Family(RegisterByteBase[instr.name]) && X(op) == Reg(instr, 0) && KK(op) == Num(instr, 1) % 0x100
  {
    var x, kk := Reg(instr, 0), Num(instr, 1) % 0x100;
    var op := OpcodeFor(instr, labels);
    if instr.name == "se" {
      assert op == PackByte(0x3, x, kk);
    } else if instr.name == "sne" {
      assert op == PackByte(0x4, x, kk);
    } else if instr.name == "ld" {
      assert op == PackByte(0x6, x, kk);
    } else if instr.name == "add" {
      assert op == PackByte(0x7, x, kk);
    } else {
      assert op == PackByte(0xC, x, kk);
    }
  }

  /** Address forms with a literal operand: nnn is the low twelve bits of the literal. */
  lemma AddressFields(instr: Instr, labels: seq<Label>)
    requires Encodable(instr) && AddressForm(instr) && !ByName(instr)
    ensures var op := OpcodeFor(instr, labels);
            Family(op) == AddressFamily(instr) && NNN(op) == Num(instr, AddressOperand(instr)) % 0x1000
  {
  }

  /** A label operand resolves to the first label of that name, masked to 12 bits, or to the sentinel. */
  lemma LabelResolution(instr: Instr, labels: seq<Label>)
    requires Encodable(instr) && ByName(instr)
    ensures AddressOperand(instr) < |instr.params|
    ensures var op := OpcodeFor(instr, labels);
            match FindLabel(labels, instr.params[AddressOperand(instr)])
            case Some(address) => Family(op) == AddressFamily(instr) && NNN(op) == address % 0x1000
            case None => op == 0xFFFF
  {
  }

  /** Only a label lookup can produce the sentinel. */
  lemma SentinelOnlyFromLabels(instr: Instr, labels: seq<Label>)
    requires Encodable(instr)
    ensures OpcodeFor(instr, labels) == 0xFFFF ==> ByName(instr)
  {
  }

  lemma DrawFields(instr: Instr, labels: seq<Label>)
    requires Encodable(instr) && instr.name == "drw"
    ensures var op := OpcodeFor(instr, labels);
            Family(op) == 0xD && X(op) == Reg(instr, 0) && Y(op) == Reg(instr, 1) && N(op) == Num(instr, 2) % 0x10
  {
  }

  /** Ex9E and ExA1: x is the key register. */
  lemma KeySkipFields(instr: Instr, labels: seq<Label>)
    requires Encodable(instr) && (instr.name == "skp" || instr.name == "sknp")
    ensures var op := OpcodeFor(instr, labels);
            Family(op) == 0xE && X(op) == Reg(instr, 0) && KK(op) == (if instr.name == "skp" then 0x9E else 0xA1)
  {
  }

  /** Loads between a general register and a timer or the key (Fx07, Fx0A, Fx15, Fx18). */
  lemma SpecialLoadFields(instr: Instr, labels: seq<Label>)
    requires Encodable(instr) && instr.name == "ld" && !instr.hasImmediate && instr.specialRegister > 0
    ensures var op := OpcodeFor(instr, labels);
            Family(op) == 0xF
            && if instr.specialRegisterSrc then
                 KK(op) == (if instr.specialRegister == 2 then 0x07 else 0x0A) && X(op) == Reg(instr, 0)
               else
                 KK(op) == (if instr.specialRegister == 2 then 0x15 else 0x18) && X(op) == Reg(instr, 1)
  {
  }
}
