/**
 * The CPF check-digit rule (VerificarCPF). A CPF is eleven decimal digits,
 * the last two of which are check digits computed from the ones before
 * them by weighted sums modulo 11. Formatting characters ('.', '-', ...)
 * are stripped first, so only the digit subsequence of the input matters.
 */
module Cpf {

  predicate IsDigit(c: char) {
    '0' <= c <= '9'
  }

  /** int.Parse of a one-digit string. */
  function DigitValue(c: char): (v: nat)
    requires IsDigit(c)
    ensures v < 10
  {
    c as int - '0' as int
  }

  /** The character that writes the decimal digit `v`. */
  function DigitChar(v: nat): (c: char)
    requires v < 10
    ensures IsDigit(c) && DigitValue(c) == v
  {
    ('0' as int + v) as char
  }

  /** Removing every non-digit character (the regular expression \D replaced by ""). */
  function Digits(s: string): (d: string)
    ensures |d| <= |s|
    ensures forall i :: 0 <= i < |d| ==> IsDigit(d[i])
  {
    if s == [] then []
    else (if IsDigit(s[0]) then [s[0]] else []) + Digits(s[1..])
  }

  /** Every character equals the first one (a degenerate CPF such as 111.111.111-11). */
  predicate AllSame(s: string)
    requires |s| > 0
    ensures AllSame(s) <==> forall i, j :: 0 <= i < |s| && 0 <= j < |s| ==> s[i] == s[j]
  {
    forall i :: 0 <= i < |s| ==> s[i] == s[0]
  }

  /** Weights of the first check digit. */
  const PrimeiroDigito: seq<int> := [10, 9, 8, 7, 6, 5, 4, 3, 2]

  /** Weights of the second check digit. */
  const SegundoDigito: seq<int> := [11, 10, 9, 8, 7, 6, 5, 4, 3, 2]

  /** The sum of `DigitValue(d[i]) * w[i]` over the first `n` positions. */
  function WeightedSum(d: string, w: seq<int>, n: nat): int
    requires n <= |d| && n <= |w|
    requires forall i :: 0 <= i < n ==> IsDigit(d[i])
  {
    if n == 0 then 0 else WeightedSum(d, w, n - 1) + DigitValue(d[n - 1]) * w[n - 1]
  }

  /** int.ToString for a non-negative number: its decimal digits, most significant first. */
  function NatToString(n: nat): (s: string)
    ensures |s| >= 1
    ensures forall i :: 0 <= i < |s| ==> IsDigit(s[i])
  {
    if n < 10 then [DigitChar(n)] else NatToString(n / 10) + [DigitChar(n % 10)]
  }

  /** The text of a check digit: "0" for a remainder below 2, otherwise 11 minus the remainder. */
  function CheckDigitText(resto: int): (s: string)
    requires 0 <= resto < 11
    ensures |s| == 1 && IsDigit(s[0])
    ensures DigitValue(s[0]) == if resto < 2 then 0 else 11 - resto
  {
    if resto < 2 then "0" else NatToString(11 - resto)
  }

  /** `s.EndsWith(suffix)` (ordinal comparison). */
  predicate EndsWith(s: string, suffix: string) {
    |suffix| <= |s| && s[|s| - |suffix|..] == suffix
  }

  /**
   * The verdict of VerificarCPF as the source computes it: the second sum
   * reads the input's tenth digit, and the verdict is whether the digit
   * string ends with the two check digits' text.
   */
  predicate CpfValid(cpf: string) {
    var d := Digits(cpf);
    if |d| != 11 || AllSame(d) then false
    else
      var digito1 := CheckDigitText(WeightedSum(d, PrimeiroDigito, 9) % 11);
      var digito2 := CheckDigitText(WeightedSum(d, SegundoDigito, 10) % 11);
      EndsWith(d, digito1 + digito2)
  }

  /** The standard check-digit value for a weighted sum. */
  function StandardCheckDigit(sum: int): (k: nat)
    ensures k < 10
  {
    if sum % 11 < 2 then 0 else 11 - sum % 11
  }

  /**
   * The CPF rule as it is usually stated, independently of the code: eleven
   * digits, not all equal; the tenth is the check digit of the first nine;
   * the eleventh is the check digit of the first nine followed by the
   * COMPUTED tenth.
   */
  predicate StandardCpf(cpf: string) {
    var d := Digits(cpf);
    && |d| == 11
    && !AllSame(d)
    && var k1 := StandardCheckDigit(WeightedSum(d, PrimeiroDigito, 9));
       && DigitValue(d[9]) == k1
       && DigitValue(d[10]) == StandardCheckDigit(WeightedSum(d[..9] + [DigitChar(k1)], SegundoDigito, 10))
  }

  /** VerificarCPF: the loops accumulate the two weighted sums. */
  method VerificarCpf(cpf: string) returns (valid: bool)
    ensures valid == CpfValid(cpf)
    ensures valid <==> StandardCpf(cpf)
  {
    CpfValidIsStandard(cpf);
    var d := Digits(cpf);
    if |d| != 11 || AllSame(d) {
      return false;
    }
    var soma := 0;
    for i := 0 to 9
      invariant soma == WeightedSum(d, PrimeiroDigito, i)
    {
      soma := soma + DigitValue(d[i]) * PrimeiroDigito[i];
    }
    var resto := soma % 11;
    var digito1 := CheckDigitText(resto);

    soma := 0;
    for i := 0 to 10
      invariant soma == WeightedSum(d, SegundoDigito, i)
    {
      soma := soma + DigitValue(d[i]) * SegundoDigito[i];
    }
    resto := soma % 11;
    var digito2 := CheckDigitText(resto);

    valid := EndsWith(d, digito1 + digito2);
  }

  // ----- Properties of the verdict -----

  /** Only an eleven-digit, non-degenerate digit string can be accepted. */
  lemma RejectsMalformed(cpf: string)
    ensures |Digits(cpf)| != 11 ==> !CpfValid(cpf)
    ensures |Digits(cpf)| == 11 && AllSame(Digits(cpf)) ==> !CpfValid(cpf)
  {
  }

  /** Eleven copies of one digit are rejected whatever the checksum arithmetic says. */
  lemma {:induction false} RejectsRepeatedDigit(c: char)
    requires IsDigit(c)
    ensures !CpfValid(seq(11, _ => c))
  {
    var s := seq(11, _ => c);
    DigitsOfDigits(s);
  }

  /** A string made of digits is its own digit subsequence. */
  lemma {:induction false} DigitsOfDigits(s: string)
    requires forall i :: 0 <= i < |s| ==> IsDigit(s[i])
    ensures Digits(s) == s
  {
    if s != [] {
      DigitsOfDigits(s[1..]);
    }
  }

  /** Stripping distributes over concatenation. */
  lemma {:induction false} DigitsAppend(a: string, b: string)
    ensures Digits(a + b) == Digits(a) + Digits(b)
  {
    if a == [] {
      assert a + b == b;
    } else {
      assert (a + b)[1..] == a[1..] + b;
      DigitsAppend(a[1..], b);
    }
  }

  /** A string without digits strips to nothing. */
  lemma {:induction false} DigitsOfNonDigits(x: string)
    requires forall i :: 0 <= i < |x| ==> !IsDigit(x[i])
    ensures Digits(x) == []
  {
    if x != [] {
      DigitsOfNonDigits(x[1..]);
    }
  }

  /** The verdict depends only on the digit subsequence: the formatted and bare forms agree. */
  lemma VerdictOfDigitsOnly(cpf: string)
    ensures CpfValid(Digits(cpf)) == CpfValid(cpf)
  {
    DigitsOfDigits(Digits(cpf));
  }

  /** Inserting non-digit characters anywhere never changes the verdict. */
  lemma InsertNonDigits(a: string, x: string, b: string)
    requires forall i :: 0 <= i < |x| ==> !IsDigit(x[i])
    ensures CpfValid(a + x + b) == CpfValid(a + b)
  {
    DigitsAppend(a + x, b);
    DigitsAppend(a, x);
    DigitsAppend(a, b);
    DigitsOfNonDigits(x);
    assert Digits(a) + [] == Digits(a);
  }

  /** Weighted sums only read the first `n` positions. */
  /** With weights between 0 and 11 a weighted sum lies between 0 and 99 n, far inside a 32-bit int. */
  lemma {:induction false} WeightedSumBound(d: string, w: seq<int>, n: nat)
    requires n <= |d| && n <= |w|
    requires forall i :: 0 <= i < n ==> IsDigit(d[i]) && 0 <= w[i] <= 11
    ensures 0 <= WeightedSum(d, w, n) <= 99 * n
  {
    if n > 0 {
      WeightedSumBound(d, w, n - 1);
      var v, k := DigitValue(d[n - 1]), w[n - 1];
      assert 0 <= v * k <= 9 * k <= 99;
    }
  }

  lemma {:induction false} WeightedSumPrefix(d: string, e: string, w: seq<int>, n: nat)
    requires n <= |d| && n <= |e| && n <= |w|
    requires forall i :: 0 <= i < n ==> IsDigit(d[i]) && d[i] == e[i]
    ensures WeightedSum(d, w, n) == WeightedSum(e, w, n)
  {
    if n > 0 {
      WeightedSumPrefix(d, e, w, n - 1);
    }
  }

  /**
   * The code's verdict is the standard rule: the text comparison is a
   * comparison of the last two digits with the computed check digits, and
   * reading the input's tenth digit in the second sum, instead of the
   * computed one, changes nothing, because the verdict also requires the two
   * to be equal.
   */
  lemma CpfValidIsStandard(cpf: string)
    ensures CpfValid(cpf) <==> StandardCpf(cpf)
  {
    var d := Digits(cpf);
    if |d| == 11 && !AllSame(d) {
      var s1 := WeightedSum(d, PrimeiroDigito, 9);
      var s2 := WeightedSum(d, SegundoDigito, 10);
      var digito1 := CheckDigitText(s1 % 11);
      var digito2 := CheckDigitText(s2 % 11);
      var k1 := StandardCheckDigit(s1);
      assert digito1 == [DigitChar(k1)] by {
        assert DigitValue(digito1[0]) == k1;
      }
      var e := d[..9] + [DigitChar(k1)];
      var ends := EndsWith(d, digito1 + digito2);
      assert ends <==> d[9] == digito1[0] && d[10] == digito2[0] by {
        assert d[11 - 2..] == [d[9], d[10]];
      }
      if d[9] == DigitChar(k1) {
        WeightedSumPrefix(d, e, SegundoDigito, 10);
        assert digito2 == [DigitChar(StandardCheckDigit(s2))] by {
          assert DigitValue(digito2[0]) == StandardCheckDigit(s2);
        }
      }
    }
  }

  /** 529.982.247-25 is a valid CPF (its first nine digits give the sums 295 and 347). */
  lemma KnownValidCpf(d: string)
    requires d == "52998224725"
    ensures |d| == 11 && forall i :: 0 <= i < 11 ==> IsDigit(d[i])
    ensures CpfValid(d)
  {
    assert forall i | 0 <= i < |d| :: IsDigit(d[i]);
    WeightedSumOfKnown(d);
    ValidByCheckDigits(d);
  }

  /** An eleven-digit string, not all one digit, whose last two digits are its check digits, is valid. */
  lemma ValidByCheckDigits(d: string)
    requires |d| == 11 && forall i :: 0 <= i < 11 ==> IsDigit(d[i])
    requires !AllSame(d)
    requires DigitValue(d[9]) == StandardCheckDigit(WeightedSum(d, PrimeiroDigito, 9))
    requires DigitValue(d[10]) == StandardCheckDigit(WeightedSum(d, SegundoDigito, 10))
    ensures CpfValid(d)
  {
    DigitsOfDigits(d);
    var t := CheckDigitText(WeightedSum(d, PrimeiroDigito, 9) % 11) + CheckDigitText(WeightedSum(d, SegundoDigito, 10) % 11);
    EndsWithLastTwo(d, t);
  }

  /** With an eleven-character string, ending with two characters means positions 9 and 10 hold them. */
  lemma EndsWithLastTwo(d: string, t: string)
    requires |d| == 11 && |t| == 2
    ensures EndsWith(d, t) <==> d[9] == t[0] && d[10] == t[1]
  {
    assert d[11 - 2..] == [d[9], d[10]];
  }

  lemma WeightedSumOfKnown(d: string)
    requires d == "52998224725"
    ensures WeightedSum(d, PrimeiroDigito, 9) == 295
    ensures WeightedSum(d, SegundoDigito, 10) == 347
    ensures DigitValue(d[9]) == 2 && DigitValue(d[10]) == 5 && d[1] != d[0]
  {
    assert DigitValue(d[0]) == 5;
    assert DigitValue(d[1]) == 2;
    assert DigitValue(d[2]) == 9;
    assert DigitValue(d[3]) == 9;
    assert DigitValue(d[4]) == 8;
    assert DigitValue(d[5]) == 2;
    assert DigitValue(d[6]) == 2;
    assert DigitValue(d[7]) == 4;
    assert DigitValue(d[8]) == 7;
    assert DigitValue(d[9]) == 2;
    assert DigitValue(d[10]) == 5;
    assert WeightedSum(d, PrimeiroDigito, 1) == 50;
    assert WeightedSum(d, PrimeiroDigito, 2) == 68;
    assert WeightedSum(d, PrimeiroDigito, 3) == 140;
    assert WeightedSum(d, PrimeiroDigito, 4) == 203;
    assert WeightedSum(d, PrimeiroDigito, 5) == 251;
    assert WeightedSum(d, PrimeiroDigito, 6) == 261;
    assert WeightedSum(d, PrimeiroDigito, 7) == 269;
    assert WeightedSum(d, PrimeiroDigito, 8) == 281;
    assert WeightedSum(d, PrimeiroDigito, 9) == 295;
    assert WeightedSum(d, SegundoDigito, 1) == 55;
    assert WeightedSum(d, SegundoDigito, 2) == 75;
    assert WeightedSum(d, SegundoDigito, 3) == 156;
    assert WeightedSum(d, SegundoDigito, 4) == 228;
    assert WeightedSum(d, SegundoDigito, 5) == 284;
    assert WeightedSum(d, SegundoDigito, 6) == 296;
    assert WeightedSum(d, SegundoDigito, 7) == 306;
    assert WeightedSum(d, SegundoDigito, 8) == 322;
    assert WeightedSum(d, SegundoDigito, 9) == 343;
    assert WeightedSum(d, SegundoDigito, 10) == 347;
  }

  /** The usual written form ddd.ddd.ddd-dd of an eleven-digit string, with any two separators. */
  function Masked(d: string, dot: char, dash: char): (m: string)
    requires |d| == 11
    ensures |m| == 14
  {
    d[..3] + [dot] + d[3..6] + [dot] + d[6..9] + [dash] + d[9..]
  }

  /** Appending a non-digit does not change the digits. */
  lemma DigitsSnocNonDigit(p: string, ch: char)
    requires !IsDigit(ch)
    ensures Digits(p + [ch]) == Digits(p)
  {
    DigitsAppend(p, [ch]);
    assert [ch][1..] == [];
    assert Digits(p) + [] == Digits(p);
  }

  /** Appending digits appends them to the digits. */
  lemma DigitsAppendDigits(p: string, q: string)
    requires forall i :: 0 <= i < |q| ==> IsDigit(q[i])
    ensures Digits(p + q) == Digits(p) + q
  {
    DigitsAppend(p, q);
    DigitsOfDigits(q);
  }

  /** A masked digit string strips back to the digit string. */
  lemma DigitsOfMasked(d: string, dot: char, dash: char)
    requires |d| == 11 && forall i :: 0 <= i < 11 ==> IsDigit(d[i])
    requires !IsDigit(dot) && !IsDigit(dash)
    ensures Digits(Masked(d, dot, dash)) == d
  {
    var p1 := d[..3];
    assert Digits(p1) == p1 by { DigitsOfDigits(p1); }
    var p2 := p1 + [dot];
    DigitsSnocNonDigit(p1, dot);
    var p3 := p2 + d[3..6];
    DigitsAppendDigits(p2, d[3..6]);
    var p4 := p3 + [dot];
    DigitsSnocNonDigit(p3, dot);
    var p5 := p4 + d[6..9];
    DigitsAppendDigits(p4, d[6..9]);
    var p6 := p5 + [dash];
    DigitsSnocNonDigit(p5, dash);
    DigitsAppendDigits(p6, d[9..]);
    assert d[..3] + d[3..6] + d[6..9] + d[9..] == d;
  }

  /** A CPF written with any non-digit separators gets the verdict of its bare digits. */
  lemma MaskedVerdict(d: string, dot: char, dash: char)
    requires |d| == 11 && forall i :: 0 <= i < 11 ==> IsDigit(d[i])
    requires !IsDigit(dot) && !IsDigit(dash)
    ensures CpfValid(Masked(d, dot, dash)) == CpfValid(d)
  {
    DigitsOfMasked(d, dot, dash);
    VerdictOfDigitsOnly(Masked(d, dot, dash));
    DigitsOfDigits(d);
  }

  /** The formatted form 529.982.247-25 is valid, like its bare digits. */
  lemma KnownValidFormatted(d: string)
    requires d == "52998224725"
    ensures CpfValid(Masked(d, '.', '-'))
  {
    KnownValidCpf(d);
    MaskedVerdict(d, '.', '-');
  }

  /** Changing the last digit of 529.982.247-25 to any other digit makes it invalid. */
  lemma WrongLastDigitRejected(c: char)
    requires IsDigit(c) && c != '5'
    ensures !CpfValid("5299822472" + [c])
  {
    var d := "5299822472" + [c];
    DigitsOfDigits(d);
    WeightedSumPrefix(d, "52998224725", SegundoDigito, 10);
    WeightedSumOfKnown("52998224725");
    assert CheckDigitText(347 % 11) == "5";
    assert d[10] == c;
  }
}
