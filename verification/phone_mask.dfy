/** Brazilian phone masking (src/utils/phoneMask.ts). */
module PhoneMask {
  import Seqs
  import opened Strings

  /** `cleanPhone`: strips every non-digit. */
  function CleanPhone(value: string): (r: string)
    ensures AllDigits(r)
  {
    Digits(value)
  }

  /** `formatPhoneBR`: the first eleven digits, masked as `(XX) XXXX-XXXX` up to ten digits
      and `(XX) XXXXX-XXXX` at eleven; fewer than six digits match neither pattern. */
  function FormatPhoneBr(value: string): (r: string)
    ensures CleanPhone(r) == Seqs.Take(CleanPhone(value), 11)
    ensures |r| == |Seqs.Take(CleanPhone(value), 11)| + (if |Seqs.Take(CleanPhone(value), 11)| >= 6 then 4 else 0)
  {
    var limited := Seqs.Take(Digits(value), 11);
    if |limited| <= 10 then
      if |limited| >= 6 then
        MaskDigits(limited[..2], limited[2..6], limited[6..]);
        assert limited[..2] + limited[2..6] + limited[6..] == limited;
        "(" + limited[..2] + ") " + limited[2..6] + "-" + limited[6..]
      else
        DigitsOfDigits(limited);
        limited
    else
      MaskDigits(limited[..2], limited[2..7], limited[7..]);
      assert limited[..2] + limited[2..7] + limited[7..] == limited;
      "(" + limited[..2] + ") " + limited[2..7] + "-" + limited[7..]
  }

  /** The three shapes the mask produces. */
  lemma FormatPhoneBrShape(value: string)
    ensures var n := |Seqs.Take(Digits(value), 11)|;
      var r := FormatPhoneBr(value);
      && (n < 6 ==> r == Digits(value))
      && (6 <= n <= 10 ==>
            |r| == n + 4 && r[0] == '(' && r[3] == ')' && r[4] == ' ' && r[9] == '-'
            && AllDigits(r[1..3]) && AllDigits(r[5..9]) && AllDigits(r[10..]))
      && (n == 11 ==>
            |r| == 15 && r[0] == '(' && r[3] == ')' && r[4] == ' ' && r[10] == '-'
            && AllDigits(r[1..3]) && AllDigits(r[5..10]) && AllDigits(r[11..]))
  {
    var d := Seqs.Take(Digits(value), 11);
    var r := FormatPhoneBr(value);
    if 6 <= |d| <= 10 {
      assert r[1..3] == d[..2] && r[5..9] == d[2..6] && r[10..] == d[6..];
    } else if |d| == 11 {
      assert r[1..3] == d[..2] && r[5..10] == d[2..7] && r[11..] == d[7..];
    }
  }

  /** The digits of a `(a) b-c` mask are `a`, `b` and `c` in order. */
  lemma MaskDigits(a: string, b: string, c: string)
    requires AllDigits(a) && AllDigits(b) && AllDigits(c)
    ensures Digits("(" + a + ") " + b + "-" + c) == a + b + c
  {
    DigitsOfDigits(a);
    DigitsOfDigits(b);
    DigitsOfDigits(c);
    var x1 := "(" + a;
    DigitsAppend("(", a);
    DigitsOfSeparator("(");
    assert Digits(x1) == a;
    DigitsAroundSeparator(x1, ") ", b);
    assert Digits(x1 + ") " + b) == a + b;
    DigitsAroundSeparator(x1 + ") " + b, "-", c);
  }

  /** Cleaning a formatted phone gives back the first eleven digits of the input. */
  lemma FormatPhoneBrRoundTrip(value: string)
    ensures CleanPhone(FormatPhoneBr(value)) == Seqs.Take(CleanPhone(value), 11)
  {
    var d := Seqs.Take(Digits(value), 11);
    if 6 <= |d| <= 10 {
      MaskDigits(d[..2], d[2..6], d[6..]);
      assert d[..2] + d[2..6] + d[6..] == d;
    } else if |d| == 11 {
      MaskDigits(d[..2], d[2..7], d[7..]);
      assert d[..2] + d[2..7] + d[7..] == d;
    } else {
      DigitsOfDigits(d);
    }
  }

  /** Masking an already masked phone changes nothing. */
  lemma FormatPhoneBrIdempotent(value: string)
    ensures FormatPhoneBr(FormatPhoneBr(value)) == FormatPhoneBr(value)
  {
    FormatPhoneBrRoundTrip(value);
    Seqs.TakeTake(Digits(value), 11);
  }

  /** `cleanPhone` keeps the digits in their original order and is idempotent. */
  lemma CleanPhoneKeepsDigitsInOrder(value: string)
    ensures Seqs.IsSubsequence(CleanPhone(value), value)
    ensures CleanPhone(CleanPhone(value)) == CleanPhone(value)
    ensures forall c :: c in value && IsDigit(c) ==> c in CleanPhone(value)
  {
    Seqs.FilterIsSubsequence(value, IsDigit);
    DigitsOfDigits(CleanPhone(value));
  }
}
