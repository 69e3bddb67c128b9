/** Masking and cleaning of CPF and passport numbers (src/utils/cpfMask.ts). */
module CpfMask {
  import Seqs
  import opened Strings

  /** `cleanCPF`: strips every non-digit. */
  function CleanCpf(value: string): (r: string)
    ensures AllDigits(r)
  {
    Digits(value)
  }

  /** `formatCPF`: the first eleven digits, masked as `DDD.DDD.DDD-DD` once there are nine. */
  function FormatCpf(value: string): (r: string)
    ensures CleanCpf(r) == Seqs.Take(CleanCpf(value), 11)
    ensures |r| == |Seqs.Take(CleanCpf(value), 11)| + (if |Seqs.Take(CleanCpf(value), 11)| >= 9 then 3 else 0)
  {
    var limited := Seqs.Take(Digits(value), 11);
    if |limited| >= 9 then
      MaskDigits(limited[..3], limited[3..6], limited[6..9], limited[9..]);
      assert limited[..3] + limited[3..6] + limited[6..9] + limited[9..] == limited;
      limited[..3] + "." + limited[3..6] + "." + limited[6..9] + "-" + limited[9..]
    else
      DigitsOfDigits(limited);
      limited
  }

  /** With nine or more digits the dots and the dash sit at fixed places; with fewer the
      bare digits come back. */
  lemma FormatCpfShape(value: string)
    ensures var n := |Seqs.Take(Digits(value), 11)|;
      var r := FormatCpf(value);
      if n >= 9 then
        |r| == n + 3 && r[3] == '.' && r[7] == '.' && r[11] == '-'
        && AllDigits(r[..3]) && AllDigits(r[4..7]) && AllDigits(r[8..11]) && AllDigits(r[12..])
      else r == Digits(value)
  {
    var d := Seqs.Take(Digits(value), 11);
    var r := FormatCpf(value);
    if |d| >= 9 {
      assert r == d[..3] + "." + d[3..6] + "." + d[6..9] + "-" + d[9..];
      assert r[..3] == d[..3];
      assert r[4..7] == d[3..6];
      assert r[8..11] == d[6..9];
      assert r[12..] == d[9..];
    }
  }

  /** The digits of an `a.b.c-e` mask are `a`, `b`, `c` and `e` in order. */
  lemma MaskDigits(a: string, b: string, c: string, e: string)
    requires AllDigits(a) && AllDigits(b) && AllDigits(c) && AllDigits(e)
    ensures Digits(a + "." + b + "." + c + "-" + e) == a + b + c + e
  {
    DigitsOfDigits(a);
    DigitsOfDigits(b);
    DigitsOfDigits(c);
    DigitsOfDigits(e);
    DigitsAroundSeparator(a, ".", b);
    DigitsAroundSeparator(a + "." + b, ".", c);
    DigitsAroundSeparator(a + "." + b + "." + c, "-", e);
  }

  /** Cleaning a formatted CPF gives back the first eleven digits of the input. */
  lemma FormatCpfRoundTrip(value: string)
    ensures CleanCpf(FormatCpf(value)) == Seqs.Take(CleanCpf(value), 11)
  {
    var d := Seqs.Take(Digits(value), 11);
    if |d| >= 9 {
      MaskDigits(d[..3], d[3..6], d[6..9], d[9..]);
      assert d[..3] + d[3..6] + d[6..9] + d[9..] == d;
    } else {
      DigitsOfDigits(d);
    }
  }

  /** Nine to eleven bare digits are masked in place. */
  lemma FormatCpfOfDigits(d: string)
    requires AllDigits(d) && 9 <= |d| <= 11
    ensures FormatCpf(d) == d[..3] + "." + d[3..6] + "." + d[6..9] + "-" + d[9..]
  {
    DigitsOfDigits(d);
  }

  lemma ExampleMaskPieces()
    ensures var d := "52998224725";
      d[..3] + "." + d[3..6] + "." + d[6..9] + "-" + d[9..] == "529.982.247-25"
  {
    var d := "52998224725";
    assert d[..3] == "529" && d[3..6] == "982" && d[6..9] == "247" && d[9..] == "25";
  }

  lemma FormatCpfExample()
    ensures FormatCpf("52998224725") == "529.982.247-25"
  {
    FormatCpfOfDigits("52998224725");
    ExampleMaskPieces();
  }

  /** The mask depends on nothing but the first eleven digits of its input. */
  lemma FormatCpfUsesFirstElevenDigits(a: string, b: string)
    requires Seqs.Take(Digits(a), 11) == Seqs.Take(Digits(b), 11)
    ensures FormatCpf(a) == FormatCpf(b)
  {
  }

  /** Masking an already masked CPF changes nothing. */
  lemma FormatCpfIdempotent(value: string)
    ensures FormatCpf(FormatCpf(value)) == FormatCpf(value)
  {
    FormatCpfRoundTrip(value);
    Seqs.TakeTake(Digits(value), 11);
  }

  /** `cleanCPF` keeps the digits in their original order and is idempotent. */
  lemma CleanCpfKeepsDigitsInOrder(value: string)
    ensures Seqs.IsSubsequence(CleanCpf(value), value)
    ensures CleanCpf(CleanCpf(value)) == CleanCpf(value)
    ensures forall c :: c in value && IsDigit(c) ==> c in CleanCpf(value)
  {
    Seqs.FilterIsSubsequence(value, IsDigit);
    DigitsOfDigits(CleanCpf(value));
  }

  /** Characters kept in a passport number: `[A-Za-z0-9\-]`. */
  predicate IsPassportChar(c: char) {
    ('A' <= c <= 'Z') || ('a' <= c <= 'z') || IsDigit(c) || c == '-'
  }

  /** Characters a cleaned passport number may contain: `[A-Z0-9\-]`. */
  predicate IsCleanPassportChar(c: char) {
    ('A' <= c <= 'Z') || IsDigit(c) || c == '-'
  }

  function UpperChar(c: char): char {
    if 'a' <= c <= 'z' then (c as int - 32) as char else c
  }

  /** `s.toUpperCase()` on ASCII text. */
  function ToUpperAscii(s: string): (r: string)
    ensures |r| == |s|
    ensures forall i :: 0 <= i < |s| ==> r[i] == UpperChar(s[i])
  {
    seq(|s|, i requires 0 <= i < |s| => UpperChar(s[i]))
  }

  /** `cleanPassport`: keeps letters, digits and hyphens and upper-cases the letters. */
  function CleanPassport(value: string): (r: string)
    ensures forall i :: 0 <= i < |r| ==> IsCleanPassportChar(r[i])
    ensures |r| <= |value|
  {
    ToUpperAscii(Seqs.Filter(value, IsPassportChar))
  }

  /** A passport number made only of kept characters is just upper-cased. */
  lemma CleanPassportOfKeptChars(value: string)
    requires forall i :: 0 <= i < |value| ==> IsPassportChar(value[i])
    ensures CleanPassport(value) == ToUpperAscii(value)
  {
    Seqs.FilterAllPass(value, IsPassportChar);
  }

  lemma CleanPassportIdempotent(value: string)
    ensures CleanPassport(CleanPassport(value)) == CleanPassport(value)
  {
    var r := CleanPassport(value);
    CleanPassportOfKeptChars(r);
  }
}
