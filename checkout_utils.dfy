/**
 * Field masks and validators of the checkout: the CPF (Brazilian tax id)
 * check-digit validator, the input masks for phone, CPF, card number, expiry
 * and CVV, the card-brand classifier, the expiry validator and the
 * installment table.
 */
module CheckoutUtils {
  import opened Wrappers
  import opened Text

  // ---------------------------------------------------------------------------
  // CPF validation (modulo 11)
  // ---------------------------------------------------------------------------

  /** Σ_{i<k} value(d[i]) * (top - i): the weighted sums of the two check digits. */
  function WeightedSum(d: string, k: nat, top: int): int
    requires k <= |d|
  {
    if k == 0 then 0 else WeightedSum(d, k - 1, top) + DigitValue(d[k - 1]) * (top - (k - 1))
  }

  /** A check digit: `(sum * 10) % 11`, with a remainder of 10 written as 0. */
  function CheckDigit(sum: int): (r: int)
    ensures 0 <= r <= 9
  {
    var rest := (sum * 10) % 11;
    if rest == 10 then 0 else rest
  }

  /** `/^(\d)\1{10}$/` on an 11-digit string: every digit repeats the first. */
  predicate AllSame(d: string) {
    forall i | 0 <= i < |d| :: d[i] == d[0]
  }

  /** The two check digits of a CPF, computed from its first nine and first ten digits, match. */
  predicate CheckDigitsMatch(d: string)
    requires |d| == 11
  {
    && CheckDigit(WeightedSum(d, 9, 10)) == DigitValue(d[9])
    && CheckDigit(WeightedSum(d, 10, 11)) == DigitValue(d[10])
  }

  /** What `validateCPF` accepts. */
  predicate CpfValid(cpf: string) {
    var d := DigitsOf(cpf);
    |d| == 11 && !AllSame(d) && CheckDigitsMatch(d)
  }

  /** `validateCPF`: strips the non-digits, rejects a wrong length and repeated digits, then checks both digits. */
  method ValidateCpf(cpf: string) returns (ok: bool)
    ensures ok == CpfValid(cpf)
  {
    var digits := DigitsOf(cpf);
    if |digits| != 11 {
      return false;
    }
    if forall i | 0 <= i < 11 :: digits[i] == digits[0] {
      return false;
    }
    var sum := 0;
    for i := 0 to 9
      invariant sum == WeightedSum(digits, i, 10)
    {
      sum := sum + DigitValue(digits[i]) * (10 - i);
    }
    var rest := (sum * 10) % 11;
    if rest == 10 {
      rest := 0;
    }
    if rest != DigitValue(digits[9]) {
      return false;
    }
    sum := 0;
    for i := 0 to 10
      invariant sum == WeightedSum(digits, i, 11)
    {
      sum := sum + DigitValue(digits[i]) * (11 - i);
    }
    rest := (sum * 10) % 11;
    if rest == 10 {
      rest := 0;
    }
    ok := rest == DigitValue(digits[10]);
  }

  /** Only the digit characters of the input matter. */
  lemma CpfValidDigitsOnly(cpf: string)
    ensures CpfValid(cpf) == CpfValid(DigitsOf(cpf))
  {
    DigitsOfIdempotent(cpf);
  }

  /**
   * The check digit agrees with the textbook rule: with r the remainder of
   * the weighted sum by 11, the digit is 0 when r < 2 and 11 - r otherwise.
   */
  lemma CheckDigitTextbook(sum: nat)
    ensures CheckDigit(sum) == if sum % 11 < 2 then 0 else 11 - sum % 11
  {
    var q, r := sum / 11, sum % 11;
    assert sum == 11 * q + r;
    if r == 0 {
      assert sum * 10 == 11 * (10 * q);
    } else {
      assert sum * 10 == 11 * (10 * q + r - 1) + (11 - r);
    }
  }

  /** Σ_{i<k} (top - i): the weights alone. */
  function WeightTotal(k: nat, top: int): int {
    if k == 0 then 0 else WeightTotal(k - 1, top) + (top - (k - 1))
  }

  lemma {:induction false} WeightedSumRepeated(d: string, k: nat, top: int)
    requires k <= |d| && AllSame(d) && d != []
    ensures WeightedSum(d, k, top) == DigitValue(d[0]) * WeightTotal(k, top)
  {
    if k > 0 {
      WeightedSumRepeated(d, k - 1, top);
      var v := DigitValue(d[0]);
      assert d[k - 1] == d[0];
      assert v * WeightTotal(k, top) == v * WeightTotal(k - 1, top) + v * (top - (k - 1));
    }
  }

  /**
   * Eleven equal digits always satisfy both check-digit equations, so the
   * modulo-11 test alone would accept 000.000.000-00 through 999.999.999-99:
   * the repeated-digit rejection is what rules them out.
   */
  lemma RepeatedDigitsPassChecksum(d: string)
    requires |d| == 11 && AllDigits(d) && AllSame(d)
    ensures CheckDigitsMatch(d)
    ensures !CpfValid(d)
  {
    WeightedSumRepeated(d, 9, 10);
    WeightedSumRepeated(d, 10, 11);
    assert WeightTotal(9, 10) == 54 && WeightTotal(10, 11) == 65;
    var v := DigitValue(d[0]);
    assert 0 <= v <= 9;
    assert d[9] == d[0] && d[10] == d[0];
    assert (v * 54 * 10) % 11 == v by {
      assert v * 540 == 11 * (49 * v) + v;
    }
    assert (v * 65 * 10) % 11 == v by {
      assert v * 650 == 11 * (59 * v) + v;
    }
    DigitsOfAllDigits(d);
  }

  // ---------------------------------------------------------------------------
  // Input masks
  // ---------------------------------------------------------------------------

  /**
   * `s.replace(/(\d{3})(\d)/, "$1" + sep + "$2")`: at the leftmost position
   * where four digits stand in a row, sep goes in after the third.
   */
  function InsertAfterFirstRun(s: string, sep: char): string {
    if |s| >= 4 && AllDigits(s[..4]) then s[..3] + [sep] + s[3..]
    else if s == [] then []
    else [s[0]] + InsertAfterFirstRun(s[1..], sep)
  }

  /**
   * `s.replace(/(\d{3})(\d{1,2})$/, "$1-$2")`: the leftmost position from
   * which four or five digits run to the end gets a hyphen after its third.
   */
  function HyphenateTail(s: string): string {
    if |s| < 4 then s
    else if |s| <= 5 && AllDigits(s) then s[..3] + "-" + s[3..]
    else [s[0]] + HyphenateTail(s[1..])
  }

  /** `maskCPF` */
  function MaskCpf(value: string): string {
    var digits := Take(DigitsOf(value), 11);
    HyphenateTail(InsertAfterFirstRun(InsertAfterFirstRun(digits, '.'), '.'))
  }

  /** The CPF layout XXX.XXX.XXX-XX, each separator present only when a digit follows it. */
  function CpfLayout(d: string): string
    requires |d| <= 11
  {
    if |d| <= 3 then d
    else if |d| <= 6 then d[..3] + "." + d[3..]
    else if |d| <= 9 then d[..3] + "." + d[3..6] + "." + d[6..]
    else d[..3] + "." + d[3..6] + "." + d[6..9] + "-" + d[9..]
  }

  lemma {:induction false} InsertNoRun(s: string, sep: char)
    requires |s| < 4
    ensures InsertAfterFirstRun(s, sep) == s
  {
    if s != [] {
      InsertNoRun(s[1..], sep);
    }
  }

  /** Without four digits at the front, the first rewrite moves past the first character. */
  lemma InsertStep(s: string, sep: char)
    requires s != [] && !(|s| >= 4 && AllDigits(s[..4]))
    ensures InsertAfterFirstRun(s, sep) == [s[0]] + InsertAfterFirstRun(s[1..], sep)
  {
  }

  lemma ConsSlice(s: string, k: nat, rest: string)
    requires 0 < k < |s|
    ensures [s[0]] + (s[1..k + 1] + rest) == s[..k + 1] + rest
  {
    assert [s[0]] + s[1..k + 1] == s[..k + 1];
  }

  /** A non-digit at position k, within the first four characters, stops the first rewrite before it. */
  lemma {:induction false} InsertSkipsAt(s: string, k: nat, sep: char)
    requires k <= 3 && k < |s| && !IsDigit(s[k])
    ensures InsertAfterFirstRun(s, sep) == s[..k + 1] + InsertAfterFirstRun(s[k + 1..], sep)
  {
    if |s| >= 4 {
      assert s[..4][k] == s[k];
    }
    InsertStep(s, sep);
    if k > 0 {
      var t := s[1..];
      InsertSkipsAt(t, k - 1, sep);
      assert t[..k] == s[1..k + 1] && t[k..] == s[k + 1..];
      ConsSlice(s, k, InsertAfterFirstRun(s[k + 1..], sep));
    }
  }

  /** The same, for a string given as the part before the non-digit, the non-digit and the rest. */
  lemma InsertSkips(a: string, c: char, b: string, sep: char)
    requires |a| <= 3 && !IsDigit(c)
    ensures InsertAfterFirstRun(a + [c] + b, sep) == a + [c] + InsertAfterFirstRun(b, sep)
  {
    var s := a + [c] + b;
    InsertSkipsAt(s, |a|, sep);
    assert s[..|a| + 1] == a + [c] && s[|a| + 1..] == b;
  }

  /** Where the anchored rewrite puts its hyphen, stated without the scan. */
  function HyphenClosed(s: string): string {
    if |s| >= 5 && AllDigits(s[|s| - 5..]) then s[..|s| - 2] + "-" + s[|s| - 2..]
    else if |s| >= 4 && AllDigits(s[|s| - 4..]) then s[..|s| - 1] + "-" + s[|s| - 1..]
    else s
  }

  /** A hyphen k places from the end, placed before or after dropping the first character. */
  lemma HyphenShiftAt(s: string, k: nat)
    requires |s| >= k + 1
    ensures var t := s[1..];
      [s[0]] + (t[..|t| - k] + "-" + t[|t| - k..]) == s[..|s| - k] + "-" + s[|s| - k..]
  {
    var t := s[1..];
    assert t[..|t| - k] == s[1..|s| - k];
    assert t[|t| - k..] == s[|s| - k..];
    assert [s[0]] + s[1..|s| - k] == s[..|s| - k];
  }

  /** On six characters or more, the closed form leaves the first one alone. */
  lemma HyphenClosedShift(s: string)
    requires |s| >= 6
    ensures HyphenClosed(s) == [s[0]] + HyphenClosed(s[1..])
  {
    var t := s[1..];
    assert t[|t| - 5..] == s[|s| - 5..];
    assert t[|t| - 4..] == s[|s| - 4..];
    if AllDigits(s[|s| - 5..]) {
      HyphenShiftAt(s, 2);
    } else if AllDigits(s[|s| - 4..]) {
      HyphenShiftAt(s, 1);
    } else {
      assert HyphenClosed(t) == t;
    }
  }

  lemma HyphenClosedShort(t: string)
    requires |t| < 4
    ensures HyphenClosed(t) == t
  {
  }

  /** Four characters take a hyphen before the last exactly when all four are digits. */
  lemma HyphenClosedFour(s: string)
    requires |s| == 4
    ensures HyphenClosed(s) == if AllDigits(s) then s[..3] + "-" + s[3..] else s
  {
    assert s[|s| - 4..] == s;
  }

  lemma HyphenClosedFiveDigits(s: string)
    requires |s| == 5 && AllDigits(s)
    ensures HyphenClosed(s) == s[..3] + "-" + s[3..]
  {
    assert s[|s| - 5..] == s;
  }

  lemma HyphenClosedFiveMixed(s: string)
    requires |s| == 5 && !AllDigits(s)
    ensures HyphenClosed(s) == if AllDigits(s[1..]) then s[..4] + "-" + s[4..] else s
  {
    assert s[|s| - 5..] == s;
    assert s[|s| - 4..] == s[1..];
  }

  /** Five characters that are not all digits: at most the last four can take the hyphen. */
  lemma HyphenClosedFive(s: string)
    requires |s| == 5 && !AllDigits(s)
    ensures HyphenClosed(s) == [s[0]] + HyphenClosed(s[1..])
  {
    var t := s[1..];
    HyphenClosedFour(t);
    HyphenClosedFiveMixed(s);
    if AllDigits(t) {
      assert [s[0]] + t[..3] == s[..4];
      assert t[3..] == s[4..];
    } else {
      assert [s[0]] + t == s;
    }
  }

  lemma HyphenClosedFourMixed(s: string)
    requires |s| == 4 && !AllDigits(s)
    ensures HyphenClosed(s) == [s[0]] + HyphenClosed(s[1..])
  {
    HyphenClosedFour(s);
    HyphenClosedShort(s[1..]);
    assert [s[0]] + s[1..] == s;
  }

  /** Wherever the scan moves past the first character, so does the closed form. */
  lemma HyphenClosedStep(s: string)
    requires |s| >= 4 && !(|s| <= 5 && AllDigits(s))
    ensures HyphenClosed(s) == [s[0]] + HyphenClosed(s[1..])
  {
    if |s| == 4 {
      HyphenClosedFourMixed(s);
    } else if |s| == 5 {
      HyphenClosedFive(s);
    } else {
      HyphenClosedShift(s);
    }
  }

  lemma HyphenClosedAllDigits(s: string)
    requires 4 <= |s| <= 5 && AllDigits(s)
    ensures HyphenateTail(s) == HyphenClosed(s)
  {
    assert HyphenateTail(s) == s[..3] + "-" + s[3..];
    if |s| == 5 {
      HyphenClosedFiveDigits(s);
    } else {
      HyphenClosedFour(s);
    }
  }

  lemma {:induction false} HyphenateTailClosed(s: string)
    ensures HyphenateTail(s) == HyphenClosed(s)
  {
    if |s| < 4 {
    } else if |s| <= 5 && AllDigits(s) {
      HyphenClosedAllDigits(s);
    } else {
      HyphenateTailClosed(s[1..]);
      HyphenClosedStep(s);
    }
  }

  lemma NotAllDigitsAt(s: string, k: nat)
    requires k < |s| && !IsDigit(s[k])
    ensures !AllDigits(s)
  {
  }

  /** The first rewrite on a digit string of four or more: a dot after the third digit. */
  lemma FirstDot(d: string)
    requires AllDigits(d) && |d| >= 4
    ensures InsertAfterFirstRun(d, '.') == d[..3] + "." + d[3..]
  {
    assert AllDigits(d[..4]);
  }

  lemma ShortNoDots(d: string)
    requires |d| < 4
    ensures InsertAfterFirstRun(InsertAfterFirstRun(d, '.'), '.') == d
  {
    InsertNoRun(d, '.');
    InsertNoRun(d, '.');
  }

  lemma OneDot(d: string)
    requires AllDigits(d) && 4 <= |d| < 7
    ensures InsertAfterFirstRun(InsertAfterFirstRun(d, '.'), '.') == d[..3] + "." + d[3..]
  {
    FirstDot(d);
    InsertSkips(d[..3], '.', d[3..], '.');
    assert d[..3] + "." + d[3..] == d[..3] + ['.'] + d[3..];
    InsertNoRun(d[3..], '.');
  }

  lemma TwoDots(d: string)
    requires AllDigits(d) && 7 <= |d|
    ensures InsertAfterFirstRun(InsertAfterFirstRun(d, '.'), '.') == d[..3] + "." + d[3..6] + "." + d[6..]
  {
    FirstDot(d);
    SecondDot(d);
  }

  /** After the first dot the next four digits in a row start right behind it. */
  lemma SecondDot(d: string)
    requires AllDigits(d) && 7 <= |d|
    ensures InsertAfterFirstRun(d[..3] + "." + d[3..], '.') == d[..3] + "." + d[3..6] + "." + d[6..]
  {
    var a, b := d[..3], d[3..];
    assert a + "." + b == a + ['.'] + b;
    InsertSkips(a, '.', b, '.');
    FirstDot(b);
    assert b[..3] == d[3..6] && b[3..] == d[6..];
    assert a + ['.'] + (b[..3] + "." + b[3..]) == d[..3] + "." + d[3..6] + "." + d[6..];
  }

  /** With one dot, no four digits run to the end: the hyphen rewrite changes nothing. */
  lemma HyphenOneDot(d: string)
    requires AllDigits(d) && 4 <= |d| < 7
    ensures HyphenateTail(d[..3] + "." + d[3..]) == d[..3] + "." + d[3..]
  {
    var s := d[..3] + "." + d[3..];
    HyphenateTailClosed(s);
    assert s[3] == '.';
    NotAllDigitsAt(s[|s| - 4..], 3 - (|s| - 4));
    NotAllDigitsAt(s[|s| - 5..], 3 - (|s| - 5));
  }

  lemma HyphenTwoDots(d: string)
    requires AllDigits(d) && 7 <= |d| <= 11
    ensures HyphenateTail(d[..3] + "." + d[3..6] + "." + d[6..]) == CpfLayout(d)
  {
    var s := d[..3] + "." + d[3..6] + "." + d[6..];
    HyphenateTailClosed(s);
    if |d| <= 9 {
      HyphenNoTail(d);
    } else if |d| == 10 {
      HyphenOneCheckDigit(d);
    } else {
      HyphenTwoCheckDigits(d);
    }
  }

  /** Up to nine digits, the second dot sits among the last four or five characters. */
  lemma HyphenNoTail(d: string)
    requires AllDigits(d) && 7 <= |d| <= 9
    ensures var s := d[..3] + "." + d[3..6] + "." + d[6..]; HyphenClosed(s) == s
  {
    var s := d[..3] + "." + d[3..6] + "." + d[6..];
    assert s[7] == '.';
    NotAllDigitsAt(s[|s| - 4..], 7 - (|s| - 4));
    NotAllDigitsAt(s[|s| - 5..], 7 - (|s| - 5));
  }

  lemma HyphenOneCheckDigit(d: string)
    requires AllDigits(d) && |d| == 10
    ensures var s := d[..3] + "." + d[3..6] + "." + d[6..]; HyphenClosed(s) == CpfLayout(d)
  {
    var s := d[..3] + "." + d[3..6] + "." + d[6..];
    assert s[7] == '.';
    NotAllDigitsAt(s[|s| - 5..], 0);
    assert s[|s| - 4..] == d[6..];
    assert s[..|s| - 1] == d[..3] + "." + d[3..6] + "." + d[6..9];
    assert s[|s| - 1..] == d[9..];
  }

  lemma HyphenTwoCheckDigits(d: string)
    requires AllDigits(d) && |d| == 11
    ensures var s := d[..3] + "." + d[3..6] + "." + d[6..]; HyphenClosed(s) == CpfLayout(d)
  {
    var s := d[..3] + "." + d[3..6] + "." + d[6..];
    assert s[|s| - 5..] == d[6..];
    assert s[..|s| - 2] == d[..3] + "." + d[3..6] + "." + d[6..9];
    assert s[|s| - 2..] == d[9..];
  }

  /** `maskCPF` lays out the first eleven digits of its input as XXX.XXX.XXX-XX. */
  lemma MaskCpfLayout(value: string)
    ensures MaskCpf(value) == CpfLayout(Take(DigitsOf(value), 11))
  {
    var d := Take(DigitsOf(value), 11);
    if |d| < 4 {
      ShortNoDots(d);
    } else if |d| < 7 {
      OneDot(d);
      HyphenOneDot(d);
    } else {
      TwoDots(d);
      HyphenTwoDots(d);
    }
  }

  /** Stripping the separators of the CPF layout gives the digits back. */
  lemma CpfLayoutDigits(d: string)
    requires |d| <= 11 && AllDigits(d)
    ensures DigitsOf(CpfLayout(d)) == d
  {
    if |d| <= 3 {
      DigitsOfAllDigits(d);
    } else if |d| <= 6 {
      TwoGroupsDigits(d);
    } else if |d| <= 9 {
      ThreeGroupsDigits(d);
    } else {
      FourGroupsDigits(d);
    }
  }

  lemma TwoGroupsDigits(d: string)
    requires 3 <= |d| && AllDigits(d)
    ensures DigitsOf(d[..3] + "." + d[3..]) == d
  {
    DigitsOfAllDigits(d[..3]);
    DigitsOfGlue(d[..3], ".", d[3..]);
    assert d[..3] + d[3..] == d;
  }

  lemma ThreeGroupsDigits(d: string)
    requires 6 <= |d| && AllDigits(d)
    ensures DigitsOf(d[..3] + "." + d[3..6] + "." + d[6..]) == d
  {
    TwoGroupsDigits(d[..6]);
    assert d[..6][..3] == d[..3] && d[..6][3..] == d[3..6];
    DigitsOfGlue(d[..3] + "." + d[3..6], ".", d[6..]);
    assert d[..6] + d[6..] == d;
  }

  lemma FourGroupsDigits(d: string)
    requires 9 <= |d| && AllDigits(d)
    ensures DigitsOf(d[..3] + "." + d[3..6] + "." + d[6..9] + "-" + d[9..]) == d
  {
    ThreeGroupsDigits(d[..9]);
    assert d[..9][..3] == d[..3] && d[..9][3..6] == d[3..6] && d[..9][6..] == d[6..9];
    DigitsOfGlue(d[..3] + "." + d[3..6] + "." + d[6..9], "-", d[9..]);
    assert d[..9] + d[9..] == d;
  }

  /** The masked CPF holds exactly the first eleven digits of the input. */
  lemma MaskCpfDigits(value: string)
    ensures DigitsOf(MaskCpf(value)) == Take(DigitsOf(value), 11)
  {
    MaskCpfLayout(value);
    CpfLayoutDigits(Take(DigitsOf(value), 11));
  }

  lemma MaskCpfIdempotent(value: string)
    ensures MaskCpf(MaskCpf(value)) == MaskCpf(value)
  {
    MaskCpfDigits(value);
    TakeTake(DigitsOf(value), 11);
  }

  /** Masking a CPF that has at most eleven digits does not change whether it is valid. */
  lemma MaskCpfKeepsValidity(value: string)
    requires |DigitsOf(value)| <= 11
    ensures CpfValid(MaskCpf(value)) == CpfValid(value)
  {
    MaskCpfDigits(value);
  }

  /** The phone layout of up to eleven digits: (DD) NNNNN-NNNN, built up as the digits arrive. */
  function PhoneLayout(digits: string): string {
    if |digits| <= 2 then (if |digits| > 0 then "(" + digits else "")
    else if |digits| <= 7 then "(" + digits[..2] + ") " + digits[2..]
    else "(" + digits[..2] + ") " + digits[2..7] + "-" + digits[7..]
  }

  /** `maskPhone` */
  function MaskPhone(value: string): string {
    PhoneLayout(Take(DigitsOf(value), 11))
  }

  /** Gluing a digit string after a separator adds exactly its digits. */
  lemma DigitsOfGlue(x: string, sep: string, b: string)
    requires DigitsOf(sep) == [] && AllDigits(b)
    ensures DigitsOf(x + sep + b) == DigitsOf(x) + b
  {
    DigitsOfConcat(x, sep);
    DigitsOfConcat(x + sep, b);
    DigitsOfAllDigits(b);
  }

  lemma PhoneLayoutDigits(d: string)
    requires AllDigits(d)
    ensures DigitsOf(PhoneLayout(d)) == d
  {
    if 0 < |d| <= 2 {
      DigitsOfGlue([], "(", d);
      assert [] + "(" + d == "(" + d;
    } else if 2 < |d| <= 7 {
      DigitsOfGlue([], "(", d[..2]);
      assert [] + "(" + d[..2] == "(" + d[..2];
      DigitsOfGlue("(" + d[..2], ") ", d[2..]);
      assert d[..2] + d[2..] == d;
    } else if |d| > 7 {
      DigitsOfGlue([], "(", d[..2]);
      assert [] + "(" + d[..2] == "(" + d[..2];
      DigitsOfGlue("(" + d[..2], ") ", d[2..7]);
      DigitsOfGlue("(" + d[..2] + ") " + d[2..7], "-", d[7..]);
      assert d[..2] + d[2..7] + d[7..] == d;
    }
  }

  lemma MaskPhoneDigits(value: string)
    ensures DigitsOf(MaskPhone(value)) == Take(DigitsOf(value), 11)
  {
    PhoneLayoutDigits(Take(DigitsOf(value), 11));
  }

  lemma MaskPhoneIdempotent(value: string)
    ensures MaskPhone(MaskPhone(value)) == MaskPhone(value)
  {
    MaskPhoneDigits(value);
    TakeTake(DigitsOf(value), 11);
  }

  /**
   * Where the phone mask puts its punctuation: with n digits, the opening
   * parenthesis comes first, ") " follows the area code once a third digit
   * exists, and "-" follows the fifth subscriber digit once an eighth exists;
   * every other position holds a digit.
   */
  lemma PhoneLayoutShape(d: string)
    requires AllDigits(d) && |d| <= 11
    ensures var n := |d|;
      var r := PhoneLayout(d);
      && |r| == (if n == 0 then 0 else if n <= 2 then n + 1 else if n <= 7 then n + 3 else n + 4)
      && (n > 0 ==> r[0] == '(')
      && (n > 2 ==> r[3] == ')' && r[4] == ' ')
      && (n > 7 ==> r[10] == '-')
      && forall i | 0 <= i < |r| && i != 0 && i != 3 && i != 4 && i != 10 :: IsDigit(r[i])
  {
    var r := PhoneLayout(d);
    if |d| > 7 {
      forall i | 0 <= i < |r| && i != 0 && i != 3 && i != 4 && i != 10 ensures IsDigit(r[i]) {
        if i < 3 { assert r[i] == d[i - 1]; }
        else if i < 10 { assert r[i] == d[i - 3]; }
        else { assert r[i] == d[i - 4]; }
      }
    } else if |d| > 2 {
      forall i | 0 <= i < |r| && i != 0 && i != 3 && i != 4 && i != 10 ensures IsDigit(r[i]) {
        if i < 3 { assert r[i] == d[i - 1]; }
        else { assert r[i] == d[i - 3]; }
      }
    } else if |d| > 0 {
      forall i | 0 <= i < |r| && i != 0 ensures IsDigit(r[i]) {
        assert r[i] == d[i - 1];
      }
    }
  }

  /**
   * `s.replace(/(\d{4})(?=\d)/g, "$1 ")`: scanning left to right, every four
   * digits followed by a further digit get a space after them.
   */
  function SpaceAfterFours(s: string): string {
    if |s| >= 5 && AllDigits(s[..5]) then s[..4] + " " + SpaceAfterFours(s[4..])
    else if s == [] then []
    else [s[0]] + SpaceAfterFours(s[1..])
  }

  /** Blocks of four joined by single spaces. */
  function Grouped(d: string): string {
    if |d| <= 4 then d else d[..4] + " " + Grouped(d[4..])
  }

  /** `maskCardNumber` */
  function MaskCardNumber(value: string): string {
    var digits := Take(DigitsOf(value), 16);
    Trim(SpaceAfterFours(digits))
  }

  lemma {:induction false} SpaceAfterFoursShort(s: string)
    requires |s| < 5
    ensures SpaceAfterFours(s) == s
  {
    if s != [] {
      SpaceAfterFoursShort(s[1..]);
    }
  }

  lemma {:induction false} SpaceAfterFoursGrouped(d: string)
    requires AllDigits(d)
    ensures SpaceAfterFours(d) == Grouped(d)
  {
    if |d| < 5 {
      SpaceAfterFoursShort(d);
    } else {
      SpaceAfterFoursGrouped(d[4..]);
    }
  }

  /** The length of the grouped card number: one space per full block that has a digit after it. */
  lemma {:induction false} GroupedLength(d: string)
    ensures |Grouped(d)| == if d == [] then 0 else |d| + (|d| - 1) / 4
  {
    if |d| > 4 {
      GroupedLength(d[4..]);
    }
  }

  /** Position i of the grouped number is a space exactly when i % 5 == 4, and otherwise digit i - i / 5. */
  lemma {:induction false} GroupedAt(d: string, i: nat)
    requires i < |Grouped(d)|
    ensures i % 5 == 4 ==> Grouped(d)[i] == ' '
    ensures i % 5 != 4 ==> i - i / 5 < |d| && Grouped(d)[i] == d[i - i / 5]
  {
    if |d| > 4 {
      if i >= 5 {
        GroupedAt(d[4..], i - 5);
      }
    }
  }

  lemma {:induction false} GroupedDigits(d: string)
    requires AllDigits(d)
    ensures DigitsOf(Grouped(d)) == d
  {
    if |d| <= 4 {
      DigitsOfAllDigits(d);
    } else {
      GroupedDigits(d[4..]);
      DigitsOfAllDigits(d[..4]);
      DigitsOfConcat(d[..4], " ");
      DigitsOfConcat(d[..4] + " ", Grouped(d[4..]));
      assert d[..4] + d[4..] == d;
    }
  }

  /** The last position of a grouped number of n digits is never a space position. */
  lemma LastNotSpace(n: nat)
    requires n >= 1
    ensures (n - 1 + (n - 1) / 4) % 5 != 4
  {
    var q, r := (n - 1) / 4, (n - 1) % 4;
    assert n - 1 + q == 5 * q + r;
  }

  /**
   * `maskCardNumber` gives the first sixteen digits in blocks of four joined
   * by single spaces; the final `trim` has nothing to remove.
   */
  lemma MaskCardNumberLayout(value: string)
    ensures MaskCardNumber(value) == Grouped(Take(DigitsOf(value), 16))
  {
    var d := Take(DigitsOf(value), 16);
    SpaceAfterFoursGrouped(d);
    var g := Grouped(d);
    GroupedLength(d);
    if g != [] {
      GroupedAt(d, 0);
      LastNotSpace(|d|);
      GroupedAt(d, |g| - 1);
    }
    TrimKeeps(g);
  }

  /**
   * r shows the digits d in blocks of four: a space exactly at each position
   * i with i % 5 == 4, digit i - i / 5 of d everywhere else, and no space at
   * either end.
   */
  predicate CardLayout(r: string, d: string) {
    && |r| == (if d == [] then 0 else |d| + (|d| - 1) / 4)
    && (forall i | 0 <= i < |r| :: (r[i] == ' ' <==> i % 5 == 4))
    && (forall i | 0 <= i < |r| && i % 5 != 4 :: i - i / 5 < |d| && r[i] == d[i - i / 5])
    && (r != [] ==> r[0] != ' ' && r[|r| - 1] != ' ')
  }

  lemma GroupedShape(d: string)
    requires AllDigits(d)
    ensures CardLayout(Grouped(d), d)
  {
    var r := Grouped(d);
    GroupedLength(d);
    forall i | 0 <= i < |r| ensures (r[i] == ' ' <==> i % 5 == 4) {
      GroupedAt(d, i);
    }
    forall i | 0 <= i < |r| && i % 5 != 4 ensures i - i / 5 < |d| && r[i] == d[i - i / 5] {
      GroupedAt(d, i);
    }
    if r != [] {
      LastNotSpace(|d|);
      assert r[0] != ' ';
      assert r[|r| - 1] != ' ';
    }
  }

  /** The card mask: the first sixteen digits in blocks of four (spaces at positions 4, 9 and 14). */
  lemma MaskCardNumberShape(value: string)
    ensures CardLayout(MaskCardNumber(value), Take(DigitsOf(value), 16))
  {
    MaskCardNumberLayout(value);
    GroupedShape(Take(DigitsOf(value), 16));
  }

  lemma MaskCardNumberDigits(value: string)
    ensures DigitsOf(MaskCardNumber(value)) == Take(DigitsOf(value), 16)
  {
    MaskCardNumberLayout(value);
    GroupedDigits(Take(DigitsOf(value), 16));
  }

  lemma MaskCardNumberIdempotent(value: string)
    ensures MaskCardNumber(MaskCardNumber(value)) == MaskCardNumber(value)
  {
    MaskCardNumberDigits(value);
    TakeTake(DigitsOf(value), 16);
  }

  /** `maskExpiry`: MM/YY once the year has begun. */
  function MaskExpiry(value: string): string {
    var digits := Take(DigitsOf(value), 4);
    if |digits| <= 2 then digits else digits[..2] + "/" + digits[2..]
  }

  lemma MaskExpiryDigits(value: string)
    ensures DigitsOf(MaskExpiry(value)) == Take(DigitsOf(value), 4)
  {
    var d := Take(DigitsOf(value), 4);
    DigitsOfAllDigits(d);
    if |d| > 2 {
      DigitsOfAllDigits(d[..2]);
      DigitsOfAllDigits(d[2..]);
      DigitsOfConcat(d[..2], "/");
      DigitsOfConcat(d[..2] + "/", d[2..]);
      assert d[..2] + d[2..] == d;
    }
  }

  lemma MaskExpiryIdempotent(value: string)
    ensures MaskExpiry(MaskExpiry(value)) == MaskExpiry(value)
  {
    MaskExpiryDigits(value);
    TakeTake(DigitsOf(value), 4);
  }

  /** `maskCVV`: the first four digits for an American Express card, the first three otherwise. */
  function MaskCvv(value: string, isAmex: bool): string {
    Take(DigitsOf(value), if isAmex then 4 else 3)
  }

  lemma MaskCvvProperties(value: string, isAmex: bool)
    ensures var cap := if isAmex then 4 else 3;
      && DigitsOf(MaskCvv(value, isAmex)) == Take(DigitsOf(value), cap)
      && |MaskCvv(value, isAmex)| <= cap
      && MaskCvv(MaskCvv(value, isAmex), isAmex) == MaskCvv(value, isAmex)
  {
    var cap := if isAmex then 4 else 3;
    DigitsOfAllDigits(Take(DigitsOf(value), cap));
  }

  // ---------------------------------------------------------------------------
  // Card brand detection
  // ---------------------------------------------------------------------------

  datatype CardBrand = Visa | Mastercard | Amex | Elo | Unknown

  predicate StartsWith(s: string, prefix: string) {
    |prefix| <= |s| && s[..|prefix|] == prefix
  }

  /** The ELO prefixes, in the order the alternation lists them. */
  const EloPrefixes: seq<string> :=
    ["636368", "438935", "504175", "451416", "636297", "5067", "4576", "4011", "506699"]

  /** `detectCardBrand`: prefix rules tried in order on the digits of the number. */
  function DetectCardBrand(number: string): CardBrand {
    var d := DigitsOf(number);
    if |d| >= 1 && d[0] == '4' then Visa
    else if |d| >= 2 && ((d[0] == '5' && '1' <= d[1] <= '5') || (d[0] == '2' && '2' <= d[1] <= '7')) then Mastercard
    else if |d| >= 2 && d[0] == '3' && (d[1] == '4' || d[1] == '7') then Amex
    else if exists k | 0 <= k < |EloPrefixes| :: StartsWith(d, EloPrefixes[k]) then Elo
    else Unknown
  }

  /** The CVV length a brand requires: four digits for American Express, three for the rest. */
  function CvvLength(brand: CardBrand): (n: nat)
    ensures n == 4 <==> brand == Amex
    ensures n == 3 <==> brand != Amex
  {
    if brand == Amex then 4 else 3
  }

  /** The ELO prefixes that the classifier can actually report. */
  const ReachableEloPrefixes: seq<string> := ["636368", "504175", "636297", "5067", "506699"]

  /**
   * Because the Visa rule is tried first, the ELO prefixes 438935, 451416,
   * 4576 and 4011 can never yield elo: numbers with those prefixes are Visa.
   */
  lemma EloShadowedByVisa(number: string)
    requires var d := DigitsOf(number);
      StartsWith(d, "438935") || StartsWith(d, "451416") || StartsWith(d, "4576") || StartsWith(d, "4011")
    ensures DetectCardBrand(number) == Visa
  {
    var d := DigitsOf(number);
    assert d[0] == d[..4][0] == '4';
  }

  /** The classifier answers elo exactly for the five other ELO prefixes. */
  lemma EloRuleOrder(number: string)
    ensures DetectCardBrand(number) == Elo <==>
      exists k | 0 <= k < |ReachableEloPrefixes| :: StartsWith(DigitsOf(number), ReachableEloPrefixes[k])
  {
    if DetectCardBrand(number) == Elo {
      EloIsReachable(number);
    }
    if exists k | 0 <= k < |ReachableEloPrefixes| :: StartsWith(DigitsOf(number), ReachableEloPrefixes[k]) {
      ReachableIsElo(number);
    }
  }

  lemma EloIsReachable(number: string)
    requires DetectCardBrand(number) == Elo
    ensures exists k | 0 <= k < |ReachableEloPrefixes| :: StartsWith(DigitsOf(number), ReachableEloPrefixes[k])
  {
    var d := DigitsOf(number);
    var k :| 0 <= k < |EloPrefixes| && StartsWith(d, EloPrefixes[k]);
    var p := EloPrefixes[k];
    assert d[0] == p[0] && d[1] == p[1];
    assert k == 0 || k == 2 || k == 4 || k == 5 || k == 8;
    var j := if k == 0 then 0 else if k == 2 then 1 else if k == 4 then 2 else if k == 5 then 3 else 4;
    assert ReachableEloPrefixes[j] == p;
  }

  lemma ReachableIsElo(number: string)
    requires exists k | 0 <= k < |ReachableEloPrefixes| :: StartsWith(DigitsOf(number), ReachableEloPrefixes[k])
    ensures DetectCardBrand(number) == Elo
  {
    var d := DigitsOf(number);
    var k :| 0 <= k < |ReachableEloPrefixes| && StartsWith(d, ReachableEloPrefixes[k]);
    var p := ReachableEloPrefixes[k];
    assert d[0] == p[0] && d[1] == p[1];
    var j := if k == 0 then 0 else if k == 1 then 2 else if k == 2 then 4 else if k == 3 then 5 else 8;
    assert EloPrefixes[j] == p;
  }

  /** Any number whose first digit is 4 is Visa, and the empty number is unknown. */
  lemma BrandFirstRules(number: string)
    ensures var d := DigitsOf(number); StartsWith(d, "4") ==> DetectCardBrand(number) == Visa
    ensures DigitsOf(number) == [] ==> DetectCardBrand(number) == Unknown
  {
    var d := DigitsOf(number);
    if d == [] {
      forall k | 0 <= k < |EloPrefixes| ensures !StartsWith(d, EloPrefixes[k]) {
        assert |EloPrefixes[k]| >= 4;
      }
    }
  }

  /** No brand begins with 0, 1, 7, 8 or 9. */
  lemma UnknownLeadingDigit(number: string)
    requires DigitsOf(number) != [] && DigitsOf(number)[0] in "01789"
    ensures DetectCardBrand(number) == Unknown
  {
    var d := DigitsOf(number);
    forall k | 0 <= k < |EloPrefixes| ensures !StartsWith(d, EloPrefixes[k]) {
      assert EloPrefixes[k][0] in "456";
    }
  }

  lemma VisaExample(number: string)
    requires DigitsOf(number) == "4111111111111111"
    ensures DetectCardBrand(number) == Visa
  {
  }

  lemma MastercardExample(number: string)
    requires DigitsOf(number) == "5500000000000000" || DigitsOf(number) == "2221000000000000"
    ensures DetectCardBrand(number) == Mastercard
  {
  }

  /** An American Express number, which needs a four-digit CVV. */
  lemma AmexExample(number: string)
    requires DigitsOf(number) == "340000000000000" || DigitsOf(number) == "378282246310005"
    ensures DetectCardBrand(number) == Amex
    ensures CvvLength(DetectCardBrand(number)) == 4
  {
  }

  /** An Elo number: its digits start with one of the Elo prefixes. */
  lemma EloExample(number: string)
    requires DigitsOf(number) == "6363680000000000"
    ensures DetectCardBrand(number) == Elo
  {
    assert StartsWith(DigitsOf(number), EloPrefixes[0]);
  }

  // ---------------------------------------------------------------------------
  // Expiry validation
  // ---------------------------------------------------------------------------

  /**
   * A moment on the local clock: the calendar month it falls in, counted as
   * year * 12 + (month - 1), and how far into that month it lies.
   */
  datatype Instant = Instant(monthIndex: int, sinceMonthStart: nat) {
    /** `getFullYear()` */
    function Year(): int { monthIndex / 12 }
    /** `getMonth() + 1`, from 1 to 12 */
    function Month(): int { monthIndex % 12 + 1 }
  }

  /** Date comparison `a > b`. */
  predicate Later(a: Instant, b: Instant) {
    a.monthIndex > b.monthIndex || (a.monthIndex == b.monthIndex && a.sinceMonthStart > b.sinceMonthStart)
  }

  /**
   * `new Date(year, monthIndex)`: midnight on the first day of month
   * monthIndex, counted from zero; a month index of 12 rolls over into the
   * next year.
   */
  function LocalDate(year: int, monthIndex: int): Instant {
    Instant(year * 12 + monthIndex, 0)
  }

  /** `validateExpiry`, with the current time `now` passed in. */
  function ValidateExpiry(value: string, now: Instant): bool {
    var digits := DigitsOf(value);
    if |digits| != 4 then false
    else
      var month := DecimalValue(digits[..2]);
      var year := DecimalValue("20" + digits[2..]);
      if month < 1 || month > 12 then false
      else Later(LocalDate(year, month), now)
  }

  /** The year numeral "20" + YY denotes 2000 + YY. */
  lemma CenturyValue(t: string)
    requires |t| == 2 && AllDigits(t)
    ensures AllDigits("20" + t)
    ensures DecimalValue("20" + t) == 2000 + 10 * DigitValue(t[0]) + DigitValue(t[1])
  {
    var s := "20" + t;
    assert s[..3] == "20" + [t[0]];
    assert s[..3][..2] == "20";
    assert "20"[..1] == "2" && "2"[..0] == [];
    assert DecimalValue("20") == 20;
    assert DecimalValue(s[..3]) == 200 + DigitValue(t[0]);
  }

  lemma DecimalValueOfTwo(s: string)
    requires |s| == 2 && AllDigits(s)
    ensures DecimalValue(s) == 10 * DigitValue(s[0]) + DigitValue(s[1])
  {
    var s0 := s[..1];
    assert s[..|s| - 1] == s0;
    assert s0[..|s0| - 1] == [];
    assert DecimalValue(s0) == DigitValue(s[0]);
  }

  /**
   * `validateExpiry`: exactly four digits MMYY with MM from 1 to 12, and the
   * card month (2000 + YY, MM) not before the current calendar month. The
   * current month itself still passes, because `new Date(year, MM)` with a
   * one-based MM is the first day of the month after the card's.
   */
  lemma ValidateExpiryMeaning(value: string, now: Instant)
    ensures var d := DigitsOf(value);
      ValidateExpiry(value, now) <==>
        && |d| == 4
        && 1 <= 10 * DigitValue(d[0]) + DigitValue(d[1]) <= 12
        && (2000 + 10 * DigitValue(d[2]) + DigitValue(d[3])) * 12 + 10 * DigitValue(d[0]) + DigitValue(d[1])
           >= now.Year() * 12 + now.Month()
  {
    var d := DigitsOf(value);
    if |d| == 4 {
      DecimalValueOfTwo(d[..2]);
      DecimalValueOfTwo(d[2..]);
      CenturyValue(d[2..]);
    }
  }

  /** The MM of four expiry digits MMYY. */
  function CardMonth(d: string): int
    requires |d| == 4
  {
    10 * DigitValue(d[0]) + DigitValue(d[1])
  }

  /** The year 2000 + YY of four expiry digits MMYY. */
  function CardYear(d: string): int
    requires |d| == 4
  {
    2000 + 10 * DigitValue(d[2]) + DigitValue(d[3])
  }

  /** A card is still accepted during the calendar month in which it expires. */
  lemma ExpiryCurrentMonthAccepted(value: string, now: Instant)
    requires |DigitsOf(value)| == 4 && 1 <= CardMonth(DigitsOf(value)) <= 12
    requires CardYear(DigitsOf(value)) * 12 + CardMonth(DigitsOf(value)) == now.Year() * 12 + now.Month()
    ensures ValidateExpiry(value, now)
  {
    ValidateExpiryMeaning(value, now);
  }

  /** A card whose month is before the current calendar month is rejected. */
  lemma ExpiryPastMonthRejected(value: string, now: Instant)
    requires |DigitsOf(value)| == 4
    requires CardYear(DigitsOf(value)) * 12 + CardMonth(DigitsOf(value)) < now.Year() * 12 + now.Month()
    ensures !ValidateExpiry(value, now)
  {
    ValidateExpiryMeaning(value, now);
  }

  /** A month outside 1 to 12 fails whatever the year and the date. */
  lemma ExpiryMonthOutOfRange(value: string, now: Instant)
    requires |DigitsOf(value)| == 4 && !(1 <= CardMonth(DigitsOf(value)) <= 12)
    ensures !ValidateExpiry(value, now)
  {
    ValidateExpiryMeaning(value, now);
  }

  // ---------------------------------------------------------------------------
  // Installments
  // ---------------------------------------------------------------------------

  datatype Installment = Installment(parcelas: nat, valor: real, juros: bool)

  const NoInterestCounts: seq<nat> := [1, 2, 3, 4, 6]
  const WithInterestCounts: seq<nat> := [12]

  /** 1.99% a month. */
  const InterestRate: real := 0.0199

  /** `Math.pow(x, n)` for a natural exponent. */
  function Pow(x: real, n: nat): real {
    if n == 0 then 1.0 else x * Pow(x, n - 1)
  }

  lemma {:induction false} PowAboveOne(x: real, n: nat)
    requires x > 1.0
    ensures Pow(x, n) >= 1.0
    ensures n >= 1 ==> Pow(x, n) > 1.0
  {
    if n > 0 {
      PowAboveOne(x, n - 1);
    }
  }

  /** The amortisation factor r q / (q - 1), where q = (1 + r)^n. */
  function Annuity(r: real, q: real): real
    requires q > 1.0
  {
    r * q / (q - 1.0)
  }

  /** The coefficient of an n-installment plan at the monthly interest rate. */
  function Coefficient(n: nat): real
    requires n >= 1
  {
    PowAboveOne(1.0 + InterestRate, n);
    Annuity(InterestRate, Pow(1.0 + InterestRate, n))
  }

  /** What n payments of the given amount add up to. */
  function PlanTotal(payment: real, n: nat): real {
    payment * (n as real)
  }

  /** (1 + r)^n - 1 < n r (1 + r)^n for r > 0 and n >= 1. */
  lemma {:induction false} PowGrowth(r: real, n: nat)
    requires r > 0.0 && n >= 1
    ensures Pow(1.0 + r, n) - 1.0 < (n as real) * r * Pow(1.0 + r, n)
  {
    PowAboveOne(1.0 + r, n);
    var q := Pow(1.0 + r, n);
    if n == 1 {
      PowGrowthOne(r);
    } else {
      PowGrowth(r, n - 1);
      PowAboveOne(1.0 + r, n - 1);
      var p := Pow(1.0 + r, n - 1);
      var m := (n - 1) as real;
      assert q == (1.0 + r) * p;
      assert q - 1.0 == (p - 1.0) + r * p;
      assert p - 1.0 < m * r * p;
      assert (m + 1.0) * r * p == m * r * p + r * p;
      assert q - 1.0 < (m + 1.0) * r * p;
      assert q - p == r * p;
      MulMonotone((m + 1.0) * r, p, q);
      assert (n as real) == m + 1.0;
    }
  }

  lemma PowGrowthOne(r: real)
    requires r > 0.0
    ensures Pow(1.0 + r, 1) - 1.0 < 1.0 * r * Pow(1.0 + r, 1)
  {
    var q := Pow(1.0 + r, 1);
    assert Pow(1.0 + r, 0) == 1.0;
    assert q == 1.0 + r;
    assert r * q == r + r * r;
    assert r * r > 0.0;
  }

  lemma MulMonotone(a: real, x: real, y: real)
    requires a >= 0.0 && x <= y
    ensures a * x <= a * y
  {
    assert a * y - a * x == a * (y - x);
  }

  lemma PositiveFactor(a: real, b: real)
    requires a > 0.0 && a * b > 0.0
    ensures b > 0.0
  {
  }

  /** The factor times m exceeds 1 as soon as q - 1 < m r q. */
  lemma AnnuityBound(r: real, q: real, m: real)
    requires r > 0.0 && q > 1.0 && m > 0.0
    requires q - 1.0 < m * r * q
    ensures Annuity(r, q) * m > 1.0
  {
    var c := r * q / (q - 1.0);
    var t := c * m;
    assert c * (q - 1.0) == r * q;
    assert m * r * q == t * (q - 1.0);
    assert (q - 1.0) * (t - 1.0) == t * (q - 1.0) - (q - 1.0);
    PositiveFactor(q - 1.0, t - 1.0);
    assert Annuity(r, q) == c;
    assert Annuity(r, q) * m == t;
  }

  /** At any positive rate, n payments of the amortisation factor repay more than the principal. */
  lemma ShareBound(r: real, n: nat)
    requires r > 0.0 && n >= 1
    ensures Pow(1.0 + r, n) > 1.0
    ensures PlanTotal(Annuity(r, Pow(1.0 + r, n)), n) > 1.0
  {
    PowAboveOne(1.0 + r, n);
    PowGrowth(r, n);
    var q := Pow(1.0 + r, n);
    var m := n as real;
    AnnuityBound(r, q, m);
    assert PlanTotal(Annuity(r, q), n) == Annuity(r, q) * m;
  }

  /** An n-installment plan with interest repays more than the amount financed. */
  lemma CoefficientExceedsShare(n: nat)
    requires n >= 1
    ensures PlanTotal(Coefficient(n), n) > 1.0
  {
    ShareBound(InterestRate, n);
  }

  lemma ScaleAboveOne(a: real, b: real)
    requires a > 0.0 && b > 1.0
    ensures a * b > a
  {
    assert a * b - a == a * (b - 1.0);
  }

  /** For a positive total, the n payments with interest add up to more than the total. */
  lemma InterestPlanExceedsTotal(total: real, n: nat)
    requires total > 0.0 && n >= 1
    ensures PlanTotal(total * Coefficient(n), n) > total
  {
    CoefficientExceedsShare(n);
    var c := Coefficient(n);
    var m := n as real;
    assert PlanTotal(c, n) == c * m;
    assert PlanTotal(total * c, n) == total * (c * m);
    ScaleAboveOne(total, c * m);
  }

  /** An interest-free plan: n payments of total / n repay the total. */
  lemma SharePlanTotal(total: real, n: nat)
    requires n >= 1
    ensures PlanTotal(total / (n as real), n) == total
  {
  }

  /** `calculateInstallments`: five interest-free plans, then one with interest. */
  method CalculateInstallments(total: real) returns (plans: seq<Installment>)
    ensures |plans| == 6
    ensures forall k | 0 <= k < 6 :: plans[k].parcelas == (NoInterestCounts + WithInterestCounts)[k]
    ensures forall k | 0 <= k < 6 :: plans[k].juros == (k == 5)
    ensures forall k | 0 <= k < 5 :: PlanTotal(plans[k].valor, plans[k].parcelas) == total
    ensures plans[5].parcelas >= 1 && plans[5].valor == total * Coefficient(plans[5].parcelas)
    ensures total > 0.0 ==> PlanTotal(plans[5].valor, plans[5].parcelas) > total
  {
    plans := [];
    for k := 0 to |NoInterestCounts|
      invariant |plans| == k
      invariant forall j | 0 <= j < k ::
        plans[j].parcelas == NoInterestCounts[j] && !plans[j].juros && PlanTotal(plans[j].valor, plans[j].parcelas) == total
    {
      var n := NoInterestCounts[k];
      SharePlanTotal(total, n);
      plans := plans + [Installment(n, total / (n as real), false)];
    }
    ghost var free := plans;
    for k := 0 to |WithInterestCounts|
      invariant |plans| == |NoInterestCounts| + k
      invariant plans[..|NoInterestCounts|] == free
      invariant forall j | 0 <= j < k ::
        plans[|NoInterestCounts| + j].parcelas == WithInterestCounts[j] >= 1
        && plans[|NoInterestCounts| + j].valor == total * Coefficient(plans[|NoInterestCounts| + j].parcelas)
        && plans[|NoInterestCounts| + j].juros
    {
      var n := WithInterestCounts[k];
      plans := plans + [Installment(n, total * Coefficient(n), true)];
    }
    assert forall j | 0 <= j < 5 :: plans[j] == free[j];
    assert plans[|NoInterestCounts| + 0].parcelas == WithInterestCounts[0];
    if total > 0.0 {
      InterestPlanExceedsTotal(total, plans[5].parcelas);
    }
  }
}
