/** Text as the runtime sees it: a sequence of UTF-16 code units, lone surrogates included. */
module CodeUnits {
  type CodeUnit = u: int | 0 <= u < 0x1_0000

  type Text = seq<CodeUnit>

  const COMMA: CodeUnit := 44
  const COLON: CodeUnit := 58
  const OPEN_BRACKET: CodeUnit := 91
  const CLOSE_BRACKET: CodeUnit := 93

  /** The code units of an ASCII literal. */
  function Ascii(s: string): (t: Text)
    requires forall i :: 0 <= i < |s| ==> s[i] < 128 as char
    ensures |t| == |s| && forall i :: 0 <= i < |s| ==> t[i] == s[i] as int
  {
    seq(|s|, i requires 0 <= i < |s| => s[i] as int)
  }

  predicate IsDigit(u: CodeUnit) {
    48 <= u <= 57
  }

  predicate IsHex(u: CodeUnit) {
    IsDigit(u) || 97 <= u <= 102 || 65 <= u <= 70
  }

  /** JavaScript's white space: what `\s` matches and `trim` removes. */
  predicate IsSpace(u: CodeUnit) {
    9 <= u <= 13 || u in {32, 160, 5760, 8232, 8233, 8239, 8287, 12288, 65279} || 8192 <= u <= 8202
  }

  predicate IsLeadSurrogate(u: CodeUnit) {
    0xD800 <= u <= 0xDBFF
  }

  predicate IsTrailSurrogate(u: CodeUnit) {
    0xDC00 <= u <= 0xDFFF
  }

  predicate AllDigits(t: Text) {
    forall i :: 0 <= i < |t| ==> IsDigit(t[i])
  }

  /** The decimal digits of `n`, without leading zeros: `n.toString()`. */
  function Decimal(n: nat): (t: Text)
    ensures |t| > 0 && AllDigits(t)
    ensures n > 0 ==> t[0] != 48
  {
    if n < 10 then [48 + n] else Decimal(n / 10) + [48 + n % 10]
  }

  /** The number a digit string stands for, leading zeros allowed. */
  function DecimalValue(t: Text): nat
    requires AllDigits(t)
  {
    if t == [] then 0 else 10 * DecimalValue(t[..|t| - 1]) + (t[|t| - 1] - 48)
  }

  lemma {:induction false} DecimalReadsBack(n: nat)
    ensures DecimalValue(Decimal(n)) == n
  {
    if n >= 10 {
      DecimalReadsBack(n / 10);
      var t := Decimal(n);
      assert t[..|t| - 1] == Decimal(n / 10);
    } else {
      assert Decimal(n)[..0] == [];
    }
  }

  lemma {:induction false} DecimalInjective(m: nat, n: nat)
    requires Decimal(m) == Decimal(n)
    ensures m == n
  {
    DecimalReadsBack(m);
    DecimalReadsBack(n);
  }
}
