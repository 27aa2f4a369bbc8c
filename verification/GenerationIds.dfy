/** Generation identifiers `kp-000001`, `kp-000002`, ... and the directory names built from them
    (keypackage_rotation.rs). */
module GenerationIds {
  import opened Outcomes

  predicate IsDigit(c: char) {
    '0' <= c <= '9'
  }

  ghost predicate AllDigits(s: string) {
    forall i :: 0 <= i < |s| ==> IsDigit(s[i])
  }

  function DigitChar(d: nat): (c: char)
    requires d < 10
    ensures IsDigit(c)
  {
    '0' + d as char
  }

  function DigitValue(c: char): (d: nat)
    requires IsDigit(c)
    ensures d < 10 && DigitChar(d) == c
  {
    (c - '0') as nat
  }

  /** Decimal digits of `n`, without leading zeros. */
  function Decimal(n: nat): (s: string)
    ensures |s| >= 1 && AllDigits(s)
  {
    if n < 10 then [DigitChar(n)] else Decimal(n / 10) + [DigitChar(n % 10)]
  }

  /** The value of a string of digits, leading zeros allowed. */
  function Value(s: string): nat
    requires AllDigits(s)
  {
    if s == [] then 0 else 10 * Value(s[..|s| - 1]) + DigitValue(s[|s| - 1])
  }

  /** Left-pads with zeros up to the given width. */
  function Pad(s: string, width: nat): (p: string)
    requires AllDigits(s)
    ensures AllDigits(p) && |p| == (if |s| < width then width else |s|)
    decreases width - |s|
  {
    if |s| >= width then s else Pad("0" + s, width)
  }

  /** `format!("kp-{sequence:06}")` */
  function GenerationId(sequence: nat): string {
    "kp-" + Pad(Decimal(sequence), 6)
  }

  predicate ValidGenerationId(value: string) {
    |value| == 9 && value[..3] == "kp-" && forall i :: 3 <= i < 9 ==> IsDigit(value[i])
  }

  function ParseGenerationId(value: string): Option<nat> {
    if ValidGenerationId(value) then
      assert AllDigits(value[3..]);
      Some(Value(value[3..]))
    else None
  }

  predicate IsHexDigit(c: char) {
    IsDigit(c) || 'a' <= c <= 'f' || 'A' <= c <= 'F'
  }

  function AsciiLower(c: char): char {
    if 'A' <= c <= 'Z' then c - 'A' + 'a' else c
  }

  /** The hexadecimal digits, and lower case, by code point. */
  lemma DigitsAndCaseExactly(c: char)
    ensures IsHexDigit(c) <==> 48 <= c as int <= 57 || 65 <= c as int <= 70 || 97 <= c as int <= 102
    ensures AsciiLower(c) as int == if 65 <= c as int <= 90 then c as int + 32 else c as int
  {
  }

  /** A reference the code accepts: `sha256:` followed by at least sixteen hexadecimal digits. */
  predicate WellFormedRef(s: string) {
    |s| >= 7 + 16 && s[..7] == "sha256:" && forall i :: 7 <= i < |s| ==> IsHexDigit(s[i])
  }

  /** First sixteen hexadecimal digits of a reference in lower case; `None` is the refusal
      `keypackage_ref_invalid`. */
  function RefSuffix(keyPackageRef: string): Option<string> {
    if WellFormedRef(keyPackageRef) then
      Some(seq(16, i requires 0 <= i < 16 => AsciiLower(keyPackageRef[7 + i])))
    else None
  }

  function DirectoryName(generationId: string, suffix: string): string {
    generationId + "-" + suffix
  }

  /** The value of a hexadecimal digit. */
  function HexValue(c: char): (v: nat)
    requires IsHexDigit(c)
    ensures v < 16
  {
    if IsDigit(c) then DigitValue(c)
    else if 'a' <= c then 10 + (c - 'a') as nat
    else 10 + (c - 'A') as nat
  }

  /** `ref_suffix` takes the first sixteen digits after the prefix, with their values, in lower case, and
      refuses exactly what is not the prefix and at least sixteen hexadecimal digits. */
  lemma RefSuffixIsTheFirstSixteen(keyPackageRef: string)
    ensures RefSuffix(keyPackageRef).Some?
            <==> exists digits :: |digits| >= 16 && keyPackageRef == "sha256:" + digits && forall c <- digits :: IsHexDigit(c)
    ensures forall digits | keyPackageRef == "sha256:" + digits && RefSuffix(keyPackageRef).Some? ::
              var suffix := RefSuffix(keyPackageRef).value;
              |suffix| == 16 <= |digits|
              && forall i | 0 <= i < 16 ::
                   && IsHexDigit(digits[i]) && IsHexDigit(suffix[i]) && !('A' <= suffix[i] <= 'F')
                   && HexValue(suffix[i]) == HexValue(digits[i])
  {
    if RefSuffix(keyPackageRef).Some? {
      var digits := keyPackageRef[7..];
      assert keyPackageRef == "sha256:" + digits;
    }
    forall digits | |digits| >= 16 && keyPackageRef == "sha256:" + digits && forall c <- digits :: IsHexDigit(c)
      ensures WellFormedRef(keyPackageRef)
    {
      assert keyPackageRef[..7] == "sha256:";
    }
  }

  // ---- Printing and parsing are inverse ----

  lemma {:induction false} ValueOfDecimal(n: nat)
    ensures Value(Decimal(n)) == n
  {
    if n >= 10 {
      ValueOfDecimal(n / 10);
      assert Decimal(n)[..|Decimal(n)| - 1] == Decimal(n / 10);
    }
  }

  lemma {:induction false} LeadingZero(s: string)
    requires AllDigits(s)
    ensures AllDigits("0" + s) && Value("0" + s) == Value(s)
  {
    var t := "0" + s;
    assert forall i :: 0 < i < |t| ==> t[i] == s[i - 1];
    if s != [] {
      LeadingZero(s[..|s| - 1]);
      assert t[..|t| - 1] == "0" + s[..|s| - 1];
    } else {
      assert t[..0] == [];
    }
  }

  lemma {:induction false} ValueOfPad(s: string, width: nat)
    requires AllDigits(s)
    ensures Value(Pad(s, width)) == Value(s)
    decreases width - |s|
  {
    if |s| < width {
      LeadingZero(s);
      ValueOfPad("0" + s, width);
    }
  }

  /** Distinct sequences never share an identifier, however many digits they have. */
  lemma GenerationIdInjective(m: nat, n: nat)
    requires GenerationId(m) == GenerationId(n)
    ensures m == n
  {
    assert GenerationId(m)[3..] == Pad(Decimal(m), 6);
    assert GenerationId(n)[3..] == Pad(Decimal(n), 6);
    ValueOfPad(Decimal(m), 6);
    ValueOfPad(Decimal(n), 6);
    ValueOfDecimal(m);
    ValueOfDecimal(n);
  }

  lemma {:induction false} ValueBound(s: string, bound: nat)
    requires AllDigits(s) && bound == Pow10(|s|)
    ensures Value(s) < bound
  {
    if s != [] {
      ValueBound(s[..|s| - 1], Pow10(|s| - 1));
    }
  }

  function Pow10(k: nat): nat {
    if k == 0 then 1 else 10 * Pow10(k - 1)
  }

  lemma {:induction false} PadSnoc(s: string, d: char, width: nat)
    requires AllDigits(s) && IsDigit(d)
    ensures Pad(s + [d], width + 1) == Pad(s, width) + [d]
    decreases width - |s|
  {
    if |s| < width {
      assert "0" + (s + [d]) == ("0" + s) + [d];
      PadSnoc("0" + s, d, width);
    }
  }

  lemma {:induction false} PadZeros(width: nat)
    ensures Pad(['0'], width + 1) == Pad([], width + 1)
  {
    assert "0" + [] == ['0'];
  }

  lemma TensAndOnes(v: nat, d: nat)
    requires d < 10
    ensures (10 * v + d) / 10 == v && (10 * v + d) % 10 == d
  {
  }

  /** Any non-empty digit string is the padded print of its own value. */
  lemma {:induction false} PrintOfValue(s: string)
    requires AllDigits(s) && s != []
    ensures Pad(Decimal(Value(s)), |s|) == s
  {
    var k := |s| - 1;
    var front, last := s[..k], s[k];
    assert s == front + [last];
    if k == 0 {
      assert front == [] && Value(front) == 0;
    } else {
      PrintOfValue(front);
      var v := Value(front);
      if v == 0 {
        assert Decimal(v) == ['0'];
        PadZeros(k - 1);
        PadSnoc([], last, k);
        assert [] + [last] == [last];
      } else {
        TensAndOnes(v, DigitValue(last));
        PadSnoc(Decimal(v), last, k);
      }
    }
  }

  /** `valid_generation_id` accepts exactly the prints of 0 to 999999, and each parses back. */
  lemma ValidGenerationIdsAreExactlyThePrints(value: string)
    ensures ValidGenerationId(value) <==> exists n: nat :: n < 1_000_000 && value == GenerationId(n)
    ensures forall n: nat :: n < 1_000_000 ==> ParseGenerationId(GenerationId(n)) == Some(n)
  {
    assert Pow10(6) == 1_000_000;
    if ValidGenerationId(value) {
      var digits := value[3..];
      assert AllDigits(digits) && value == "kp-" + digits;
      PrintOfValue(digits);
      ValueBound(digits, 1_000_000);
      assert value == GenerationId(Value(digits));
    }
    forall n: nat | n < 1_000_000
      ensures ValidGenerationId(GenerationId(n)) && ParseGenerationId(GenerationId(n)) == Some(n)
    {
      DecimalLength(n, 6);
      ValueOfPad(Decimal(n), 6);
      ValueOfDecimal(n);
      assert GenerationId(n)[3..] == Pad(Decimal(n), 6);
    }
  }

  lemma {:induction false} DecimalLength(n: nat, k: nat)
    requires k >= 1 && n < Pow10(k)
    ensures |Decimal(n)| <= k
  {
    if n >= 10 {
      assert k >= 2;
      DecimalLength(n / 10, k - 1);
    }
  }

  /** Generation directories of different sequences have different names, whatever the suffixes:
      the first hyphen after `kp-` ends the number. */
  lemma DirectoryNamesNeverCollide(m: nat, n: nat, s: string, t: string)
    requires DirectoryName(GenerationId(m), s) == DirectoryName(GenerationId(n), t)
    ensures m == n
  {
    var a, b := Pad(Decimal(m), 6), Pad(Decimal(n), 6);
    var x, y := DirectoryName(GenerationId(m), s), DirectoryName(GenerationId(n), t);
    assert x[3 + |a|] == '-' && y[3 + |b|] == '-';
    assert x[..3 + |a|] == GenerationId(m) && y[..3 + |b|] == GenerationId(n);
    GenerationIdInjective(m, n);
  }
}
