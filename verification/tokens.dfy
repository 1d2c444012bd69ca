/**
 * Words of a source line: classification of the first word, the table of
 * mnemonics and their operand counts, and the numeric literals of the
 * assembler (`0x` hexadecimal, `0b` binary, decimal otherwise), parsed the
 * way Rust's `u16::from_str_radix` parses them.
 */
module Tokens {
  import opened Wrappers

  predicate StartsWith(s: string, p: string) {
    |p| <= |s| && s[..|p|] == p
  }

  predicate EndsWith(s: string, p: string) {
    |p| <= |s| && s[|s| - |p|..] == p
  }

  /** `s` without the prefix `p`, or `s` itself when it does not start with `p`. */
  function RemovePrefix(s: string, p: string): (r: string)
    ensures StartsWith(s, p) ==> p + r == s
    ensures !StartsWith(s, p) ==> r == s
  {
    if StartsWith(s, p) then s[|p|..] else s
  }

  /** `s` without the suffix `p`, or `s` itself when it does not end with `p`. */
  function RemoveSuffix(s: string, p: string): (r: string)
    ensures EndsWith(s, p) ==> r + p == s
    ensures !EndsWith(s, p) ==> r == s
  {
    if EndsWith(s, p) then s[..|s| - |p|] else s
  }

  /** Rust's `trim_start_matches` with a non-empty string pattern: strips `p` as often as it occurs at the front. */
  function TrimStartMatches(s: string, p: string): (r: string)
    requires |p| > 0
    ensures !StartsWith(r, p)
    ensures |r| <= |s| && r == s[|s| - |r|..]
    decreases |s|
  {
    if StartsWith(s, p) then TrimStartMatches(s[|p|..], p) else s
  }

  /** `k` copies of `p` in a row. */
  function Repeat(p: string, k: nat): string {
    if k == 0 then [] else p + Repeat(p, k - 1)
  }

  lemma AppendAssociates<T>(a: seq<T>, b: seq<T>, c: seq<T>)
    ensures (a + b) + c == a + (b + c)
  {
  }

  /** How many copies of `p` TrimStartMatches strips from the front of `s`. */
  function LeadingCopies(s: string, p: string): nat
    requires |p| > 0
    decreases |s|
  {
    if StartsWith(s, p) then 1 + LeadingCopies(s[|p|..], p) else 0
  }

  lemma {:induction false} CopiesThenRest(s: string, p: string)
    requires |p| > 0
    ensures s == Repeat(p, LeadingCopies(s, p)) + TrimStartMatches(s, p)
    decreases |s|
  {
    var r := TrimStartMatches(s, p);
    if StartsWith(s, p) {
      var rest := s[|p|..];
      var k := LeadingCopies(rest, p);
      CopiesThenRest(rest, p);
      assert s == p + rest;
      assert Repeat(p, k + 1) == p + Repeat(p, k);
      AppendAssociates(p, Repeat(p, k), r);
    } else {
      assert Repeat(p, 0) + r == r;
    }
  }

  /** TrimStartMatches drops whole copies of the pattern and nothing else. */
  lemma TrimmedOnlyPattern(s: string, p: string)
    requires |p| > 0
    ensures exists k: nat :: s == Repeat(p, k) + TrimStartMatches(s, p)
  {
    CopiesThenRest(s, p);
  }

  /** Rust's `trim_end_matches(",")`: strips every trailing comma. */
  function TrimEndCommas(s: string): (r: string)
    ensures |r| <= |s|
    ensures !EndsWith(r, ",")
  {
    if |s| > 0 && s[|s| - 1] == ',' then TrimEndCommas(s[..|s| - 1]) else s
  }

  /** TrimEndCommas keeps a prefix of its input and drops commas only. */
  lemma {:induction false} TrimmedOnlyCommas(s: string)
    ensures var r := TrimEndCommas(s); r == s[..|r|] && forall i :: |r| <= i < |s| ==> s[i] == ','
  {
    if |s| > 0 && s[|s| - 1] == ',' {
      var front := s[..|s| - 1];
      TrimmedOnlyCommas(front);
      var r := TrimEndCommas(s);
      assert r == TrimEndCommas(front);
      assert front[..|r|] == s[..|r|];
      forall i | |r| <= i < |s| ensures s[i] == ',' {
        if i < |front| {
          assert s[i] == front[i];
        }
      }
    }
  }

  /** A word that ends with `:` and does not start with `@` binds a label. */
  predicate IsLabel(word: string) {
    !StartsWith(word, "@") && EndsWith(word, ":")
  }

  /** A word that starts with `@` names a directive. */
  predicate IsPreprocessor(word: string) {
    StartsWith(word, "@")
  }

  lemma LabelIsNotDirective(word: string)
    ensures !(IsLabel(word) && IsPreprocessor(word))
    ensures IsLabel(word) ==> |word| > 0 && word[|word| - 1] == ':'
  {
  }

  /**
   * How the first pass reads the two word kinds back: `name:` binds the label
   * `name` (for a name that does not start with `@`), and `@d` names the
   * directive `d`.
   */
  lemma WordKinds(name: string, d: string)
    ensures !StartsWith(name, "@") ==> IsLabel(name + ":") && !IsPreprocessor(name + ":") && RemoveSuffix(name + ":", ":") == name
    ensures IsPreprocessor("@" + d) && !IsLabel("@" + d) && RemovePrefix("@" + d, "@") == d
  {
    var w := name + ":";
    assert EndsWith(w, ":") by {
      assert w[|w| - 1..] == ":";
    }
    assert w[..|w| - 1] == name;
    if !StartsWith(name, "@") {
      if |name| > 0 {
        assert w[..1] == name[..1];
      } else {
        assert w[0] == ':';
      }
      assert !StartsWith(w, "@");
    }
    assert ("@" + d)[..1] == "@" && ("@" + d)[1..] == d;
  }

  const ValidInstructions: seq<string> :=
    ["cls", "ret", "sys", "jmp", "call", "se", "sne",
     "ld", "or", "and", "xor", "add", "sub", "shr",
     "subn", "shl", "rnd", "drw", "skp", "sknp"]

  predicate InstructionIsValid(word: string) {
    word in ValidInstructions
  }

  /** The arity table: how many operands each mnemonic takes. */
  predicate NumParamsValidForInstruction(numParams: nat, word: string) {
    if word in {"cls", "ret", "sys"} then numParams == 0
    else if word == "jmp" then numParams == 1 || numParams == 2
    else if word in {"call", "skp", "sknp"} then numParams == 1
    else if word in {"se", "sne", "shl", "shr", "ld", "or", "and", "xor", "add", "sub", "rnd", "subn"} then numParams == 2
    else if word == "drw" then numParams == 3
    else false
  }

  /** The arity table covers exactly the mnemonics of the instruction list. */
  lemma ArityTableMatchesMnemonics(word: string)
    ensures (exists n: nat :: n <= 3 && NumParamsValidForInstruction(n, word)) <==> InstructionIsValid(word)
    ensures forall n: nat :: NumParamsValidForInstruction(n, word) ==> n <= 3
  {
    if InstructionIsValid(word) {
      if word in {"cls", "ret", "sys"} {
        assert NumParamsValidForInstruction(0, word);
      } else if word in {"jmp", "call", "skp", "sknp"} {
        assert NumParamsValidForInstruction(1, word);
      } else if word == "drw" {
        assert NumParamsValidForInstruction(3, word);
      } else {
        assert NumParamsValidForInstruction(2, word);
      }
    }
  }

  /**
   * The operand counts of the arity table: none for cls, ret and sys, one or
   * two for jmp, one for call, skp and sknp, three for drw, two for every
   * other listed mnemonic; a word that is not listed accepts no count.
   */
  lemma ArityCounts(word: string, n: nat)
    ensures word in {"cls", "ret", "sys"} ==> (NumParamsValidForInstruction(n, word) <==> n == 0)
    ensures word == "jmp" ==> (NumParamsValidForInstruction(n, word) <==> n == 1 || n == 2)
    ensures word in {"call", "skp", "sknp"} ==> (NumParamsValidForInstruction(n, word) <==> n == 1)
    ensures word == "drw" ==> (NumParamsValidForInstruction(n, word) <==> n == 3)
    ensures InstructionIsValid(word) && word !in {"cls", "ret", "sys", "jmp", "call", "skp", "sknp", "drw"}
            ==> (NumParamsValidForInstruction(n, word) <==> n == 2)
    ensures !InstructionIsValid(word) ==> !NumParamsValidForInstruction(n, word)
  {
  }

  /** Operand count a directive must have; `db` is exempt from the check at the call site. */
  function ExpectedParamsForDirective(name: string): (n: nat)
    ensures n == 1 <==> name in {"org", "db"}
    ensures n <= 1
  {
    if name == "org" then 1
    else if name == "db" then 1
    else 0
  }

  // ----- numeric literals -----

  /** The value of `c` as a digit of base 36 (`0-9`, then `a-z` or `A-Z`), or 36 when `c` is no digit. */
  function DigitValue(c: char): (d: nat)
    ensures d <= 36
  {
    if '0' <= c <= '9' then c as nat - '0' as nat
    else if 'a' <= c <= 'z' then c as nat - 'a' as nat + 10
    else if 'A' <= c <= 'Z' then c as nat - 'A' as nat + 10
    else 36
  }

  predicate AllDigits(d: string, radix: nat) {
    forall i :: 0 <= i < |d| ==> DigitValue(d[i]) < radix
  }

  /** The number the digit string `d` denotes in base `radix`, most significant digit first. */
  function DigitsValue(d: string, radix: nat): nat
  {
    if |d| == 0 then 0 else DigitsValue(d[..|d| - 1], radix) * radix + DigitValue(d[|d| - 1])
  }

  /** Rust's `u16::from_str_radix`: an optional `+`, then at least one digit, value at most 0xFFFF. */
  function FromStrRadix(src: string, radix: nat): (r: Option<nat>)
    ensures r.Some? ==> r.value <= 0xFFFF
    ensures r.Some? ==> |src| > 0
  {
    if |src| == 0 then None
    else if src[0] == '+' && |src| == 1 then None
    else
      var digits := if src[0] == '+' then src[1..] else src;
      if AllDigits(digits, radix) && DigitsValue(digits, radix) <= 0xFFFF
      then Some(DigitsValue(digits, radix))
      else None
  }

  /** Whether `imm` is a literal of at most `maxSize`: `0x` selects base 16, `0b` base 2, else base 10. */
  predicate ImmediateIsValid(imm: string, maxSize: nat) {
    if StartsWith(imm, "0x") then
      var result := FromStrRadix(TrimStartMatches(imm, "0x"), 16);
      result.Some? && result.value <= maxSize
    else if StartsWith(imm, "0b") then
      var result := FromStrRadix(TrimStartMatches(imm, "0b"), 2);
      result.Some? && result.value <= maxSize
    else
      var result := FromStrRadix(imm, 10);
      result.Some? && result.value <= maxSize
  }

  /**
   * The value of a literal (forced base 16 when `forceHex`). The source
   * unwraps the parse, so a literal that does not parse is excluded here.
   */
  function NumForString(hex: string, forceHex: bool): (r: nat)
    requires forceHex ==> FromStrRadix(hex, 16).Some?
    requires !forceHex ==> ImmediateIsValid(hex, 0xFFFF)
    ensures r <= 0xFFFF
    ensures forceHex ==> Some(r) == FromStrRadix(hex, 16)
  {
    if forceHex then FromStrRadix(hex, 16).value
    else if StartsWith(hex, "0x") then FromStrRadix(TrimStartMatches(hex, "0x"), 16).value
    else if StartsWith(hex, "0b") then FromStrRadix(TrimStartMatches(hex, "0b"), 2).value
    else FromStrRadix(hex, 10).value
  }

  /** A literal's value is exactly the bound from which ImmediateIsValid accepts it. */
  lemma ValueIsTheBound(hex: string, m: nat)
    requires ImmediateIsValid(hex, 0xFFFF)
    ensures ImmediateIsValid(hex, m) <==> NumForString(hex, false) <= m
  {
  }

  // ----- literals written back (the inverse of the parser) -----

  function DigitChar(d: nat): (c: char)
    requires d < 16
    ensures DigitValue(c) == d
  {
    if d < 10 then ('0' as int + d) as char else ('a' as int + d - 10) as char
  }

  lemma DigitsValueAppend(front: string, c: char, radix: nat)
    ensures DigitsValue(front + [c], radix) == DigitsValue(front, radix) * radix + DigitValue(c)
  {
    assert (front + [c])[..|front|] == front;
  }

  lemma DivMod(v: nat, radix: nat)
    requires radix > 0
    ensures (v / radix) * radix + v % radix == v
  {
  }

  lemma DivLess(v: nat, radix: nat)
    requires radix in {2, 10, 16} && radix <= v
    ensures v / radix < v
  {
    if radix == 2 { assert v / radix == v / 2; }
    else if radix == 10 { assert v / radix == v / 10; }
    else { assert v / radix == v / 16; }
  }

  /** The shortest digit string of `v` in base `radix`, most significant digit first. */
  function Digits(v: nat, radix: nat): (d: string)
    requires radix in {2, 10, 16}
    ensures |d| > 0
    decreases v
  {
    if v < radix then [DigitChar(v)]
    else
      DivLess(v, radix);
      Digits(v / radix, radix) + [DigitChar(v % radix)]
  }

  /** Digits writes only digits of the base, and they denote `v`. */
  lemma {:induction false} DigitsDenote(v: nat, radix: nat)
    requires radix in {2, 10, 16}
    ensures AllDigits(Digits(v, radix), radix) && DigitsValue(Digits(v, radix), radix) == v
    decreases v
  {
    if v < radix {
      DigitsValueAppend([], DigitChar(v), radix);
      assert [] + [DigitChar(v)] == [DigitChar(v)];
    } else {
      var front := Digits(v / radix, radix);
      var last := DigitChar(v % radix);
      var q, m := v / radix, v % radix;
      DivLess(v, radix);
      DigitsDenote(q, radix);
      DigitsValueAppend(front, last, radix);
      DivMod(v, radix);
      var d := front + [last];
      assert Digits(v, radix) == d;
      assert DigitsValue(d, radix) == q * radix + m;
      assert AllDigits(d, radix) by {
        forall i | 0 <= i < |d| ensures DigitValue(d[i]) < radix {
          if i < |front| { assert d[i] == front[i]; }
        }
      }
    }
  }

  /** How the assembler's literals are written: `0x` and hex digits, `0b` and bits, or decimal digits. */
  function Literal(v: nat, radix: nat): string
    requires radix in {2, 10, 16}
  {
    if radix == 16 then "0x" + Digits(v, 16)
    else if radix == 2 then "0b" + Digits(v, 2)
    else Digits(v, 10)
  }

  /** A digit string written by Digits parses back to its value. */
  lemma ParseDigits(v: nat, radix: nat)
    requires v <= 0xFFFF && radix in {2, 10, 16}
    ensures FromStrRadix(Digits(v, radix), radix) == Some(v)
  {
    DigitsDenote(v, radix);
    assert Digits(v, radix)[0] != '+';
  }

  /** A digit string written by Digits cannot be mistaken for a prefixed literal. */
  lemma DigitsUnprefixed(v: nat, radix: nat)
    requires radix in {2, 10, 16}
    ensures !StartsWith(Digits(v, radix), "0x")
    ensures radix != 16 ==> !StartsWith(Digits(v, radix), "0b")
  {
    var d := Digits(v, radix);
    DigitsDenote(v, radix);
    if |d| >= 2 {
      assert DigitValue(d[1]) < radix;
      assert d[..2][1] == d[1] != 'x';
      assert radix != 16 ==> d[1] != 'b';
    }
  }

  /** Trimming copies of `p` from the front of `k` copies followed by `d` leaves `d`, when `d` does not start with `p`. */
  lemma {:induction false} TrimRepeated(p: string, k: nat, d: string)
    requires |p| > 0 && !StartsWith(d, p)
    ensures TrimStartMatches(Repeat(p, k) + d, p) == d
  {
    if k > 0 {
      var rest := Repeat(p, k - 1) + d;
      var w := p + rest;
      assert Repeat(p, k) + d == w;
      assert w[..|p|] == p && w[|p|..] == rest;
      assert TrimStartMatches(w, p) == TrimStartMatches(rest, p);
      TrimRepeated(p, k - 1, d);
    } else {
      assert Repeat(p, k) + d == d;
    }
  }

  /** An empty literal and a lone sign are rejected: `from_str_radix` needs a digit. */
  lemma EmptyLiteralRejected(m: nat)
    ensures !ImmediateIsValid("", m) && !ImmediateIsValid("+", m)
  {
    assert "+"[0] == '+';
  }

  /** A literal made only of `0x` or only of `0b` prefixes is rejected: nothing is left to parse. */
  lemma PrefixOnlyRejected(k: nat, m: nat)
    requires k > 0
    ensures !ImmediateIsValid(Repeat("0x", k), m) && !ImmediateIsValid(Repeat("0b", k), m)
  {
    TrimRepeated("0x", k, "");
    TrimRepeated("0b", k, "");
    assert Repeat("0x", k) + "" == Repeat("0x", k);
    assert Repeat("0b", k) + "" == Repeat("0b", k);
    assert Repeat("0x", k)[..2] == "0x";
    assert Repeat("0b", k)[..2] == "0b";
  }

  /** The `0x` prefix may be written any number of times: `trim_start_matches` strips every copy. */
  lemma RepeatedHexPrefix(k: nat, v: nat)
    requires k > 0 && v <= 0xFFFF
    ensures ImmediateIsValid(Repeat("0x", k) + Digits(v, 16), 0xFFFF)
    ensures NumForString(Repeat("0x", k) + Digits(v, 16), false) == v
  {
    var d := Digits(v, 16);
    var lit := Repeat("0x", k) + d;
    DigitsUnprefixed(v, 16);
    ParseDigits(v, 16);
    TrimRepeated("0x", k, d);
    assert lit[..2] == "0x";
  }

  /** Writing a u16 value as a literal in any of the three bases and parsing it back gives the value. */
  lemma {:induction false} LiteralRoundTrip(v: nat, radix: nat)
    requires v <= 0xFFFF && radix in {2, 10, 16}
    ensures ImmediateIsValid(Literal(v, radix), 0xFFFF)
    ensures NumForString(Literal(v, radix), false) == v
  {
    var d := Digits(v, radix);
    ParseDigits(v, radix);
    DigitsUnprefixed(v, radix);
    if radix == 16 {
      var lit := "0x" + d;
      assert lit[..2] == "0x" && lit[2..] == d;
      assert TrimStartMatches(lit, "0x") == d;
      assert FromStrRadix(TrimStartMatches(lit, "0x"), 16) == Some(v);
    } else if radix == 2 {
      var lit := "0b" + d;
      assert lit[..2] == "0b" && lit[2..] == d;
      assert !StartsWith(lit, "0x");
      assert TrimStartMatches(lit, "0b") == d;
      assert FromStrRadix(TrimStartMatches(lit, "0b"), 2) == Some(v);
    } else {
      assert Literal(v, radix) == d;
    }
  }

  // ----- register names -----

  const RegisterTokens: seq<string> :=
    ["v0", "v1", "v2", "v3", "v4", "v5", "v6", "v7",
     "v8", "v9", "va", "vb", "vc", "vd", "ve", "vf"]

  /** Special registers; the validator records a match as its position plus one (1: I, 2: dt, 3: st, 4: key). */
  const SpecialRegisterTokens: seq<string> := ["I", "dt", "st", "key"]

  predicate IsRegister(t: string) {
    t in RegisterTokens
  }

  predicate IsSpecialRegister(t: string) {
    t in SpecialRegisterTokens
  }

  /** The encoder reads a register's number from its second character as a hex digit. */
  predicate RegisterReadable(p: string) {
    |p| >= 2 && FromStrRadix(p[1..2], 16).Some?
  }

  function RegisterIndex(p: string): (r: nat)
    requires RegisterReadable(p)
    ensures r < 16
  {
    var d := p[1..2];
    assert d == [p[1]] && d[..|d| - 1] == [];
    assert DigitsValue(d, 16) == DigitValue(p[1]);
    NumForString(d, true)
  }

  /** `vX` names register X: reading the token back gives its position in the register list. */
  lemma RegisterIndexOfToken(i: nat)
    requires i < 16
    ensures RegisterReadable(RegisterTokens[i]) && RegisterIndex(RegisterTokens[i]) == i
  {
    var t := RegisterTokens[i];
    assert t[1..2] == [t[1]];
    assert [t[1]][..0] == [];
  }
}
