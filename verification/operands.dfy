/**
 * The instruction record built during the first pass and the operand
 * validator, which accepts or rejects one operand of a mnemonic at a given
 * position and, while doing so, records encoding hints in the record.
 */
module Operands {
  import opened Tokens

  /**
   * An instruction as collected by the first pass. `specialRegister` is 0
   * when no special register is involved, otherwise the position of the
   * special register token in SpecialRegisterTokens plus one; when set,
   * `specialRegisterSrc` tells whether it is the source (second operand)
   * rather than the destination (first operand).
   */
  datatype Instr = Instr(
    name: string,
    params: seq<string>,
    refsLabel: bool,
    hasImmediate: bool,
    specialRegister: nat,
    specialRegisterSrc: bool,
    address: nat)

  /** The record pass 1 starts from when it meets mnemonic `name` at `address`. */
  function NewInstr(name: string, address: nat): (i: Instr)
    ensures i.name == name && i.address == address && i.params == []
    ensures !i.refsLabel && !i.hasImmediate && i.specialRegister == 0 && !i.specialRegisterSrc
  {
    Instr(name, [], false, false, 0, false, address)
  }

  /** Whether an operand was accepted, and the record with the hints the validator recorded. */
  datatype Verdict = Verdict(accepted: bool, instr: Instr)

  /** The code recorded for a special register token. */
  function SpecialCode(t: string): (code: nat)
    requires IsSpecialRegister(t)
    ensures 1 <= code <= |SpecialRegisterTokens| && SpecialRegisterTokens[code - 1] == t
  {
    if t == "I" then 1 else if t == "dt" then 2 else if t == "st" then 3 else 4
  }

  /** The mnemonics that have a row in the validator's table; every other mnemonic rejects every operand. */
  const ValidatedMnemonics: set<string> :=
    {"jmp", "call", "rnd", "se", "sne", "add", "skp", "sknp", "sub", "xor", "or", "and", "ld", "drw"}

  /**
   * The validator's decision for operand `param` at position `index` of
   * `instr`. It only ever sets flags, and set flags stay set.
   */
  function ValidateParam(param: string, index: nat, instr: Instr): (v: Verdict)
    ensures v.instr.name == instr.name && v.instr.params == instr.params && v.instr.address == instr.address
    ensures instr.refsLabel ==> v.instr.refsLabel
    ensures instr.hasImmediate ==> v.instr.hasImmediate
  {
    var name := instr.name;
    if name == "jmp" then
      if index == 0 then
        if param == RegisterTokens[0] then Verdict(true, instr)
        else if !ImmediateIsValid(param, 0xfff) then Verdict(true, instr.(refsLabel := true))
        else Verdict(true, instr)
      else if index == 1 then Verdict(ImmediateIsValid(param, 0xfff), instr.(hasImmediate := true))
      else Verdict(false, instr)
    else if name == "call" then
      if index == 0 then
        if !ImmediateIsValid(param, 0xfff) then Verdict(true, instr.(refsLabel := true))
        else Verdict(true, instr)
      else Verdict(false, instr)
    else if name == "rnd" then
      if index == 0 then Verdict(IsRegister(param), instr)
      else if index == 1 then Verdict(ImmediateIsValid(param, 0xff), instr.(hasImmediate := true))
      else Verdict(false, instr)
    else if name in {"se", "sne", "add"} then
      if index == 0 then Verdict(IsRegister(param), instr)
      else if index == 1 then
        if IsRegister(param) then Verdict(true, instr)
        else Verdict(ImmediateIsValid(param, 0xff), instr.(hasImmediate := true))
      else Verdict(false, instr)
    else if name in {"skp", "sknp"} then
      Verdict(index == 0 && IsRegister(param), instr)
    else if name in {"sub", "xor", "or", "and"} then
      Verdict(index <= 1 && IsRegister(param), instr)
    else if name == "ld" then
      if index == 0 then
        if IsRegister(param) then Verdict(true, instr)
        else if IsSpecialRegister(param) then
          Verdict(true, instr.(specialRegister := SpecialCode(param), specialRegisterSrc := false))
        else Verdict(false, instr)
      else if index == 1 then
        if IsRegister(param) then Verdict(true, instr)
        else if instr.specialRegister > 1 then Verdict(false, instr)
        else if instr.specialRegister == 1 then
          var withImmediate := instr.(hasImmediate := true);
          if !ImmediateIsValid(param, 0xfff) then Verdict(true, withImmediate.(refsLabel := true))
          else Verdict(true, withImmediate)
        else if IsSpecialRegister(param) then
          Verdict(true, instr.(specialRegister := SpecialCode(param), specialRegisterSrc := true))
        else Verdict(ImmediateIsValid(param, 0xff), instr.(hasImmediate := true))
      else Verdict(false, instr)
    else if name == "drw" then
      if index <= 1 then Verdict(IsRegister(param), instr)
      else if index == 2 then Verdict(ImmediateIsValid(param, 0xf), instr)
      else Verdict(false, instr)
    else Verdict(false, instr)
  }

  /**
   * The decision table for the register and byte operands: which token
   * kinds each mnemonic accepts at each position. A mnemonic without a row
   * (the zero-operand ones, shl, shr, subn) rejects every operand.
   */
  lemma ValidationTable(param: string, index: nat, instr: Instr)
    // register or byte: se, sne, add
    ensures var v := ValidateParam(param, index, instr);
            instr.name in {"se", "sne", "add"} ==>
              (index == 0 ==> v == Verdict(IsRegister(param), instr))
              && (index == 1 ==> (v.accepted <==> IsRegister(param) || ImmediateIsValid(param, 0xff))
                                 && (v.instr.hasImmediate <==> instr.hasImmediate || !IsRegister(param)))
              && (index > 1 ==> !v.accepted)
    // registers only
    ensures var v := ValidateParam(param, index, instr);
            instr.name in {"sub", "xor", "or", "and"} ==> v == Verdict(index <= 1 && IsRegister(param), instr)
    ensures var v := ValidateParam(param, index, instr);
            instr.name in {"skp", "sknp"} ==> v == Verdict(index == 0 && IsRegister(param), instr)
    ensures var v := ValidateParam(param, index, instr);
            instr.name == "rnd" ==>
              (v.accepted <==> (index == 0 && IsRegister(param)) || (index == 1 && ImmediateIsValid(param, 0xff)))
    // sprite height is a nibble
    ensures var v := ValidateParam(param, index, instr);
            instr.name == "drw" ==>
              v.instr == instr
              && (v.accepted <==> (index <= 1 && IsRegister(param)) || (index == 2 && ImmediateIsValid(param, 0xf)))
    ensures var v := ValidateParam(param, index, instr);
            v.instr.specialRegister != instr.specialRegister ==>
              instr.name == "ld" && v.accepted && IsSpecialRegister(param) && v.instr.specialRegister == SpecialCode(param)
    ensures var v := ValidateParam(param, index, instr);
            instr.name == "ld" && index > 1 ==> !v.accepted
    ensures var v := ValidateParam(param, index, instr);
            instr.name !in ValidatedMnemonics ==> v == Verdict(false, instr)
    // the second operand of jmp is the 12-bit offset of Bnnn; jmp and call take no further operand
    ensures var v := ValidateParam(param, index, instr);
            instr.name == "jmp" && index == 1 ==>
              (v.accepted <==> ImmediateIsValid(param, 0xfff)) && v.instr == instr.(hasImmediate := true)
    ensures var v := ValidateParam(param, index, instr);
            (instr.name == "jmp" && index > 1) || (instr.name == "call" && index > 0) ==> v == Verdict(false, instr)
  {
  }

  /**
   * Label fallback: the address operand of jmp, call and `ld I` is never
   * rejected, and one that is not a 12-bit literal marks the record as
   * referring to a label (except `v0` for jmp, the Bnnn form).
   */
  lemma LabelFallback(param: string, index: nat, instr: Instr)
    ensures var v := ValidateParam(param, index, instr);
            ((instr.name in {"jmp", "call"} && index == 0) || (instr.name == "ld" && index == 1 && instr.specialRegister == 1))
            ==> v.accepted
    ensures var v := ValidateParam(param, index, instr);
            (instr.name in {"jmp", "call"} && index == 0 && !ImmediateIsValid(param, 0xfff) && !(instr.name == "jmp" && param == "v0"))
            ==> v.instr.refsLabel
    ensures var v := ValidateParam(param, index, instr);
            (instr.name == "ld" && index == 1 && instr.specialRegister == 1 && !IsRegister(param) && !ImmediateIsValid(param, 0xfff))
            ==> v.instr.refsLabel && v.instr.hasImmediate
    ensures var v := ValidateParam(param, index, instr);
            (v.instr.refsLabel && !instr.refsLabel)
            ==> v.accepted && !ImmediateIsValid(param, 0xfff)
                  && ((instr.name in {"jmp", "call"} && index == 0) || (instr.name == "ld" && index == 1 && instr.specialRegister == 1))
  {
  }

  /** ld: a general or special register as destination, then a general register as the only source for dt, st and key. */
  lemma LoadOperands(param: string, index: nat, instr: Instr)
    ensures var v := ValidateParam(param, index, instr);
            instr.name == "ld" && index == 0 ==>
              (v.accepted <==> IsRegister(param) || IsSpecialRegister(param))
              && (IsSpecialRegister(param) ==> v.instr.specialRegister == SpecialCode(param) && !v.instr.specialRegisterSrc)
    ensures var v := ValidateParam(param, index, instr);
            instr.name == "ld" && index == 1 && instr.specialRegister > 1 ==> v == Verdict(IsRegister(param), instr)
    ensures var v := ValidateParam(param, index, instr);
            instr.name == "ld" && index == 1 && instr.specialRegister == 0 && IsSpecialRegister(param) ==>
              v.accepted && v.instr.specialRegister == SpecialCode(param) && v.instr.specialRegisterSrc
    ensures var v := ValidateParam(param, index, instr);
            instr.name == "ld" && index == 1 && instr.specialRegister == 0 && !IsRegister(param) && !IsSpecialRegister(param) ==>
              (v.accepted <==> ImmediateIsValid(param, 0xff)) && v.instr == instr.(hasImmediate := true)
  {
  }

  /** Linear search of a token table; returns the first position holding `t`. */
  method FindToken(tokens: seq<string>, t: string) returns (found: bool, index: nat)
    ensures found <==> t in tokens
    ensures found ==> index < |tokens| && tokens[index] == t && t !in tokens[..index]
  {
    index := 0;
    while index < |tokens|
      invariant index <= |tokens|
      invariant t !in tokens[..index]
    {
      if tokens[index] == t {
        return true, index;
      }
      assert tokens[..index + 1] == tokens[..index] + [tokens[index]];
      index := index + 1;
    }
    assert tokens[..index] == tokens;
    return false, 0;
  }

  /** The record pass 1 fills in for one instruction line, before it is appended to the instruction list. */
  class PendingInstr {
    const name: string
    const address: nat
    var params: seq<string>
    var refsLabel: bool
    var hasImmediate: bool
    var specialRegister: nat
    var specialRegisterSrc: bool

    function Value(): Instr
      reads this
    {
      Instr(name, params, refsLabel, hasImmediate, specialRegister, specialRegisterSrc, address)
    }

    constructor (name: string, address: nat)
      ensures Value() == NewInstr(name, address)
    {
      this.name := name;
      this.address := address;
      params := [];
      refsLabel := false;
      hasImmediate := false;
      specialRegister := 0;
      specialRegisterSrc := false;
    }

    /** Checks operand `param` at position `index`, recording hints in this record. */
    method ParamValid(param: string, index: nat) returns (ok: bool)
      modifies this
      ensures ok == ValidateParam(param, index, old(Value())).accepted
      ensures Value() == ValidateParam(param, index, old(Value())).instr
    {
      if name == "jmp" || name == "call" {
        ok := AddressParam(param, index);
      } else if name == "ld" {
        ok := LoadParam(param, index);
      } else {
        ok := RegisterParam(param, index);
      }
    }

    /** jmp and call: a 12-bit literal or, failing that, a label; jmp also takes `v0` and a second literal. */
    method AddressParam(param: string, index: nat) returns (ok: bool)
      requires name == "jmp" || name == "call"
      modifies this
      ensures ok == ValidateParam(param, index, old(Value())).accepted
      ensures Value() == ValidateParam(param, index, old(Value())).instr
    {
      if name == "jmp" {
        if index == 0 {
          if param == RegisterTokens[0] {
            return true;
          }
          var isImmediate := ImmediateIsValid(param, 0xfff);
          if !isImmediate {
            refsLabel := true;
            return true;
          }
          return isImmediate;
        } else if index == 1 {
          hasImmediate := true;
          return ImmediateIsValid(param, 0xfff);
        }
        return false;
      }
      if index == 0 {
        var isImmediate := ImmediateIsValid(param, 0xfff);
        if !isImmediate {
          refsLabel := true;
          return true;
        }
        return isImmediate;
      }
      return false;
    }

    /** ld: registers, special registers, `I` with an address or label, or a byte. */
    method LoadParam(param: string, index: nat) returns (ok: bool)
      requires name == "ld"
      modifies this
      ensures ok == ValidateParam(param, index, old(Value())).accepted
      ensures Value() == ValidateParam(param, index, old(Value())).instr
    {
      if index == 0 {
        var isRegister, _ := FindToken(RegisterTokens, param);
        if isRegister {
          return true;
        }
        var isSpecial, position := FindToken(SpecialRegisterTokens, param);
        if isSpecial {
          specialRegister := position + 1;
          specialRegisterSrc := false;
          return true;
        }
        return false;
      } else if index == 1 {
        var isRegister, _ := FindToken(RegisterTokens, param);
        if isRegister {
          return true;
        }
        if specialRegister > 1 {
          return false;
        }
        if specialRegister == 1 {
          hasImmediate := true;
          var isImmediate := ImmediateIsValid(param, 0xfff);
          if !isImmediate {
            refsLabel := true;
            return true;
          }
          return isImmediate;
        } else {
          var isSpecial, position := FindToken(SpecialRegisterTokens, param);
          if isSpecial {
            specialRegister := position + 1;
            specialRegisterSrc := true;
            return true;
          }
        }
        hasImmediate := true;
        return ImmediateIsValid(param, 0xff);
      }
      return false;
    }

    /** The remaining mnemonics: registers, bytes and the sprite height; a mnemonic without a row accepts nothing. */
    method RegisterParam(param: string, index: nat) returns (ok: bool)
      requires name != "jmp" && name != "call" && name != "ld"
      modifies this
      ensures ok == ValidateParam(param, index, old(Value())).accepted
      ensures Value() == ValidateParam(param, index, old(Value())).instr
    {
      if name == "rnd" {
        if index == 0 {
          var isRegister, _ := FindToken(RegisterTokens, param);
          return isRegister;
        } else if index == 1 {
          hasImmediate := true;
          return ImmediateIsValid(param, 0xff);
        }
        return false;
      } else if name == "se" || name == "sne" || name == "add" {
        if index == 0 {
          var isRegister, _ := FindToken(RegisterTokens, param);
          return isRegister;
        } else if index == 1 {
          var isRegister, _ := FindToken(RegisterTokens, param);
          if isRegister {
            return true;
          }
          hasImmediate := true;
          return ImmediateIsValid(param, 0xff);
        }
        return false;
      } else if name == "skp" || name == "sknp" {
        if index == 0 {
          var isRegister, _ := FindToken(RegisterTokens, param);
          if isRegister {
            return true;
          }
        }
        return false;
      } else if name == "sub" || name == "xor" || name == "or" || name == "and" {
        if index == 0 || index == 1 {
          var isRegister, _ := FindToken(RegisterTokens, param);
          if isRegister {
            return true;
          }
        }
        return false;
      } else if name == "drw" {
        if index == 0 || index == 1 {
          var isRegister, _ := FindToken(RegisterTokens, param);
          if isRegister {
            return true;
          }
        } else if index == 2 {
          return ImmediateIsValid(param, 0xf);
        }
        return false;
      }
      return false;
    }
  }
}
