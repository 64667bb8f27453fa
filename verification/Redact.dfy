/**
 * scripts/env/redact.ts: the fingerprint of a value, a polynomial hash over UTF-16 code units that
 * wraps to a signed 32-bit word at every step.
 */
module Redact {
  import opened Text
  import opened Words32

  type CodeUnit = n: nat | n < 0x1_0000 witness 0

  function Pow31(n: nat): nat { if n == 0 then 1 else 31 * Pow31(n - 1) }

  /** The sum of c_i * 31^(n-1-i), not wrapped. */
  function Polynomial(s: seq<CodeUnit>): nat {
    if s == [] then 0 else s[0] * Pow31(|s| - 1) + Polynomial(s[1..])
  }

  function Hash(s: seq<CodeUnit>): nat { ToUint32(Polynomial(s)) }

  method HashUnits(value: seq<CodeUnit>) returns (hash: nat)
    ensures hash == Hash(value)
  {
    var h: int := 0;
    for i := 0 to |value|
      invariant ToUint32(h) == Hash(value[..i])
    {
      Horner(value[..i], value[i]);
      assert value[..i + 1] == value[..i] + [value[i]];
      StepWraps(h, Polynomial(value[..i]), value[i]);
      h := ToInt32(h * 31 + value[i]);
    }
    assert value[..|value|] == value;
    return ToUint32(h);
  }

  lemma StepWraps(h: int, p: nat, c: nat)
    requires ToUint32(h) == ToUint32(p)
    ensures ToUint32(h * 31 + c) == ToUint32(p * 31 + c)
  {
  }

  lemma {:induction false} PowSplits(m: nat, n: nat)
    ensures Pow31(m + n) == Pow31(m) * Pow31(n)
  {
    if m > 0 {
      PowSplits(m - 1, n);
      assert 31 * (Pow31(m - 1) * Pow31(n)) == (31 * Pow31(m - 1)) * Pow31(n);
    }
  }

  lemma {:induction false} PolynomialAppend(s: seq<CodeUnit>, t: seq<CodeUnit>)
    ensures Polynomial(s + t) == Polynomial(s) * Pow31(|t|) + Polynomial(t)
  {
    if s == [] {
      assert s + t == t;
    } else {
      assert (s + t)[1..] == s[1..] + t;
      PolynomialAppend(s[1..], t);
      PowSplits(|s| - 1, |t|);
      Distribute(s[0], Pow31(|s| - 1), Polynomial(s[1..]), Pow31(|t|));
    }
  }

  lemma Distribute(c: nat, p: nat, rest: nat, q: nat)
    ensures c * (p * q) + rest * q == (c * p + rest) * q
  {
  }

  lemma Horner(s: seq<CodeUnit>, c: CodeUnit)
    ensures Polynomial(s + [c]) == Polynomial(s) * 31 + c
  {
    PolynomialAppend(s, [c]);
    assert Pow31(1) == 31 && Pow31(0) == 1;
    assert [c][1..] == [];
    assert Polynomial([c]) == c * Pow31(0) + Polynomial([]);
  }

  lemma ModOfProduct(x: nat, m: nat, y: nat)
    ensures ToUint32(x * m + y) == ToUint32(ToUint32(x) * m + ToUint32(y))
  {
    var a, b := x / WORD, y / WORD;
    assert x == a * WORD + ToUint32(x) && y == b * WORD + ToUint32(y);
    assert (a * WORD + ToUint32(x)) * m == a * m * WORD + ToUint32(x) * m;
    AddWords(ToUint32(x) * m + ToUint32(y), a * m + b);
  }

  lemma AddWords(x: nat, k: nat)
    ensures ToUint32(k * WORD + x) == ToUint32(x)
  {
    DivIs(k * WORD + x, WORD, k + x / WORD);
  }

  /** The hash of a concatenation follows from the hashes and the second length. */
  lemma {:induction false} HashOfConcatenation(s: seq<CodeUnit>, t: seq<CodeUnit>)
    ensures Hash(s + t) == ToUint32(Hash(s) * Pow31(|t|) + Hash(t))
  {
    PolynomialAppend(s, t);
    ModOfProduct(Polynomial(s), Pow31(|t|), Polynomial(t));
  }

  // ---------- The printed form ----------

  /** n.toString(16) */
  function Hexadecimal(n: nat): string {
    if n < 16 then ["0123456789abcdef"[n]] else Hexadecimal(n / 16) + ["0123456789abcdef"[n % 16]]
  }

  function FingerprintOf(value: seq<CodeUnit>): string {
    "len" + (Decimal(|value|) + ":" + Hexadecimal(Hash(value)))
  }

  method Fingerprint(value: seq<CodeUnit>) returns (text: string)
    ensures text == FingerprintOf(value) == "len" + Decimal(|value|) + ":" + Hexadecimal(Hash(value))
  {
    var hash := HashUnits(value);
    text := "len" + (Decimal(|value|) + ":" + Hexadecimal(hash));
    PrefixAssociates("len", Decimal(|value|), ":", Hexadecimal(hash));
  }

  lemma PrefixAssociates(a: string, b: string, c: string, d: string)
    ensures a + (b + c + d) == a + b + c + d
  {
  }

  /** The value of a hexadecimal digit, and of a text of such digits. */
  ghost function HexDigit(c: char): int { if '0' <= c <= '9' then c as int - '0' as int else c as int - 'a' as int + 10 }
  ghost function HexValue(s: string): int { if s == "" then 0 else 16 * HexValue(s[..|s| - 1]) + HexDigit(s[|s| - 1]) }

  ghost predicate IsHex(s: string) { s != "" && forall i :: 0 <= i < |s| ==> '0' <= s[i] <= '9' || 'a' <= s[i] <= 'f' }

  /** The hexadecimal text has the number's value, and no zero in front of it. */
  lemma {:induction false} HexReads(n: nat)
    ensures IsHex(Hexadecimal(n)) && HexValue(Hexadecimal(n)) == n && (n > 0 ==> Hexadecimal(n)[0] != '0')
  {
    var digit := "0123456789abcdef"[n % 16];
    HexDigitReads(n % 16);
    if n < 16 {
      AppendHexDigit("", digit);
    } else {
      HexReads(n / 16);
      AppendHexDigit(Hexadecimal(n / 16), digit);
    }
  }

  lemma HexDigitReads(a: nat)
    requires a < 16
    ensures var c := "0123456789abcdef"[a]; HexDigit(c) == a && ('0' <= c <= '9' || 'a' <= c <= 'f') && (a > 0 ==> c != '0')
  {
    DigitCode(a);
  }

  lemma AppendHexDigit(s: string, c: char)
    ensures HexValue(s + [c]) == 16 * HexValue(s) + HexDigit(c)
  {
    assert (s + [c])[..|s|] == s;
  }

  lemma {:induction false} HexInjective(m: nat, n: nat)
    requires Hexadecimal(m) == Hexadecimal(n)
    ensures m == n
  {
    HexEnds(m);
    HexEnds(n);
    DigitInjective(m % 16, n % 16);
    if m >= 16 && n >= 16 {
      assert Hexadecimal(m)[..|Hexadecimal(m)| - 1] == Hexadecimal(m / 16);
      assert Hexadecimal(n)[..|Hexadecimal(n)| - 1] == Hexadecimal(n / 16);
      HexInjective(m / 16, n / 16);
    }
  }

  lemma {:induction false} HexEnds(n: nat)
    ensures var text := Hexadecimal(n);
      text != "" && text[|text| - 1] == "0123456789abcdef"[n % 16] && (|text| == 1 <==> n < 16)
  {
    if n >= 16 {
      HexEnds(n / 16);
    }
  }

  lemma DigitInjective(a: nat, b: nat)
    requires a < 16 && b < 16 && "0123456789abcdef"[a] == "0123456789abcdef"[b]
    ensures a == b
  {
    DigitCode(a);
    DigitCode(b);
  }

  lemma DigitCode(a: nat)
    requires a < 16
    ensures "0123456789abcdef"[a] as int == if a < 10 then '0' as int + a else 'a' as int + a - 10
  {
  }

  lemma SameAfterPrefix(p: string, u: string, v: string)
    requires p + u == p + v
    ensures u == v
  {
    assert (p + u)[|p|..] == u && (p + v)[|p|..] == v;
  }

  /** Fingerprints are equal exactly when the lengths and the wrapped polynomials are. */
  lemma FingerprintsAgreeIff(s: seq<CodeUnit>, t: seq<CodeUnit>)
    ensures FingerprintOf(s) == FingerprintOf(t) <==> |s| == |t| && Hash(s) == Hash(t)
  {
    if FingerprintOf(s) == FingerprintOf(t) {
      DecimalReads(|s|);
      DecimalReads(|t|);
      var m, n := Decimal(|s|), Decimal(|t|);
      var x, y := Hexadecimal(Hash(s)), Hexadecimal(Hash(t));
      SameAfterPrefix("len", m + ":" + x, n + ":" + y);
      WithoutFirstCharacter(m, ":");
      WithoutFirstCharacter(n, ":");
      SameBeforeSeparator(m, x, n, y, ":");
      HexInjective(Hash(s), Hash(t));
    }
  }
}
