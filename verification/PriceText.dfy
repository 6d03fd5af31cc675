/** A price ratio as text: the integer part, a dot, and the decimals without trailing zeros; and the
    parser that reads it back with a 64-bit integer part. */
module PriceText {
  import opened Arithmetic

  const WORD: nat := 0x1_0000_0000_0000_0000
  const WIDE: nat := 0x1_0000_0000_0000_0000_0000_0000_0000_0000

  function Pow10(k: nat): (r: nat)
    ensures r > 0
  {
    if k == 0 then 1 else 10 * Pow10(k - 1)
  }

  predicate IsDigit(c: char) {
    '0' <= c <= '9'
  }

  predicate AllDigits(s: string) {
    forall i :: 0 <= i < |s| ==> IsDigit(s[i])
  }

  function Value(c: char): nat
    requires IsDigit(c)
  {
    (c as int) - ('0' as int)
  }

  function Digit(d: nat): (c: char)
    requires d < 10
    ensures IsDigit(c) && Value(c) == d
  {
    (d + ('0' as int)) as char
  }

  /** The number a string of digits stands for. */
  function Read(s: string): nat
    requires AllDigits(s)
  {
    if s == "" then 0 else Read(s[..|s| - 1]) * 10 + Value(s[|s| - 1])
  }

  /** A number in decimal, and in exactly p places. */
  function Decimal(n: nat): (s: string)
    ensures s != "" && AllDigits(s)
  {
    if n < 10 then [Digit(n)] else Decimal(n / 10) + [Digit(n % 10)]
  }

  function Padded(f: nat, p: nat): (s: string)
    ensures |s| == p && AllDigits(s)
  {
    if p == 0 then "" else Padded(f / 10, p - 1) + [Digit(f % 10)]
  }

  function Trimmed(s: string): (r: string)
    ensures r <= s
  {
    if s != "" && s[|s| - 1] == '0' then Trimmed(s[..|s| - 1]) else s
  }

  // ---------- printing ----------

  function Quotient(a: nat, b: nat): nat
    requires b > 0
  {
    a / b
  }

  function Remainder(a: nat, b: nat): (r: nat)
    requires b > 0
    ensures r < b
  {
    a % b
  }

  function WriteParts(whole: nat, rest: nat, p: nat): string {
    Decimal(whole) + ("." + Trimmed(Padded(rest, p)))
  }

  /** A ratio as text, with a precision of p decimals. */
  function Print(ratio: nat, p: nat): string {
    WriteParts(Quotient(ratio, Pow10(p)), Remainder(ratio, Pow10(p)), p)
  }

  /** One more digit in front keeps the zeros that would otherwise be lost. */
  lemma {:induction false} LeadingOne(f: nat, p: nat)
    requires f < Pow10(p)
    ensures Decimal(Pow10(p) + f) == "1" + Padded(f, p)
    decreases p
  {
    if p > 0 {
      LeadingOne(f / 10, p - 1);
    }
  }

  lemma {:induction false} TrimStopsAtDot(head: string, tail: string)
    ensures Trimmed(head + ("." + tail)) == head + ("." + Trimmed(tail))
    decreases |tail|
  {
    if tail != "" {
      var s := head + ("." + tail);
      assert s[..|s| - 1] == head + ("." + tail[..|tail| - 1]);
      TrimStopsAtDot(head, tail[..|tail| - 1]);
    }
  }

  method TrimZeros(s: string) returns (number: string)
    ensures number == Trimmed(s)
  {
    number := s;
    while number != "" && number[|number| - 1] == '0'
      invariant Trimmed(number) == Trimmed(s)
      decreases |number|
    {
      number := number[..|number| - 1];
    }
  }

  method RatioString(ratio: nat, p: nat) returns (number: string)
    ensures number == Print(ratio, p)
  {
    var precision := Pow10(p);
    number := Write(Quotient(ratio, precision), Remainder(ratio, precision), p);
  }

  method Write(whole: nat, rest: nat, p: nat) returns (number: string)
    requires rest < Pow10(p)
    ensures number == WriteParts(whole, rest, p)
  {
    LeadingOne(rest, p);
    number := Decimal(whole);
    number := number + ("." + Decimal(Pow10(p) + rest)[1..]);
    TrimStopsAtDot(Decimal(whole), Padded(rest, p));
    number := TrimZeros(number);
  }

  // ---------- reading ----------

  function DigitRun(s: string): (n: nat)
    ensures n <= |s| && AllDigits(s[..n]) && (n < |s| ==> !IsDigit(s[n]))
  {
    if s == "" || !IsDigit(s[0]) then 0 else 1 + DigitRun(s[1..])
  }

  function Fraction(s: string): (r: string)
    ensures AllDigits(r)
  {
    if s != "" && s[0] == '.' then s[1..][..DigitRun(s[1..])] else ""
  }

  /** What a string starts with: the digits before a dot, those after it and how many, and how much of
      the string they take. */
  datatype Numeral = Numeral(whole: nat, frac: nat, places: nat, length: nat)

  function Scan(s: string): Numeral {
    var i := DigitRun(s);
    var frac := Fraction(s[i..]);
    Numeral(Read(s[..i]), Read(frac), |frac|, i + if i < |s| && s[i] == '.' then 1 + |frac| else 0)
  }

  function Compose(whole: nat, frac: nat, precision: nat, magnitude: nat): (r: nat)
    requires magnitude > 0
    ensures r == Remainder(whole, WORD) * precision + frac * Quotient(precision, magnitude)
  {
    ProductNat(Remainder(whole, WORD), precision);
    ProductNat(frac, Quotient(precision, magnitude));
    Remainder(whole, WORD) * precision + frac * Quotient(precision, magnitude)
  }

  /** The ratio a numeral stands for, with its integer part kept in 64 bits. */
  function RatioOf(n: Numeral, p: nat): nat {
    Compose(n.whole, n.frac, Pow10(p), Pow10(n.places))
  }

  lemma ReadOneMore(s: string, i: nat)
    requires i < |s| && AllDigits(s[..i]) && IsDigit(s[i])
    ensures AllDigits(s[..i + 1]) && Read(s[..i + 1]) == Read(s[..i]) * 10 + Value(s[i])
  {
    assert s[..i + 1][..i] == s[..i];
  }

  lemma WrapOneMore(a: nat, d: nat)
    ensures (a % WORD * 10 + d) % WORD == (a * 10 + d) % WORD
  {
  }

  /** The digits a string starts with, in a 64-bit word that wraps. */
  method ReadWhole(s: string) returns (i: nat, whole: nat)
    ensures i == DigitRun(s) && whole == Read(s[..i]) % WORD
  {
    i, whole := 0, 0;
    while i < |s| && IsDigit(s[i])
      invariant i <= DigitRun(s) && AllDigits(s[..i])
      invariant whole == Read(s[..i]) % WORD
    {
      ReadOneMore(s, i);
      WrapOneMore(Read(s[..i]), Value(s[i]));
      whole := (whole * 10 + Value(s[i])) % WORD;
      i := i + 1;
    }
  }

  /** The digits a string starts with, and the power of ten their number makes. */
  method ReadFraction(s: string) returns (i: nat, frac: nat, magnitude: nat)
    ensures i == DigitRun(s) && frac == Read(s[..i]) && magnitude == Pow10(i)
  {
    i, frac, magnitude := 0, 0, 1;
    while i < |s| && IsDigit(s[i])
      invariant i <= DigitRun(s) && AllDigits(s[..i])
      invariant frac == Read(s[..i]) && magnitude == Pow10(i)
    {
      ReadOneMore(s, i);
      frac := frac * 10 + Value(s[i]);
      magnitude := magnitude * 10;
      i := i + 1;
    }
  }

  method SetRatioFromString(s: string, p: nat) returns (ratio: nat, taken: nat)
    ensures ratio == RatioOf(Scan(s), p) && taken == Scan(s).length
  {
    var i, whole := ReadWhole(s);
    var frac, magnitude := 0, 1;
    taken := i;
    if i < |s| && s[i] == '.' {
      var j;
      assert s[i..][1..] == s[i + 1..];
      j, frac, magnitude := ReadFraction(s[i + 1..]);
      taken := i + 1 + j;
    }
    assert Read("") == 0;
    ratio := Compose(whole, frac, Pow10(p), magnitude);
    assert Remainder(whole, WORD) == Remainder(Read(s[..i]), WORD);
  }

  // ---------- the round trip ----------

  lemma {:induction false} ReadDecimal(n: nat)
    ensures Read(Decimal(n)) == n
  {
    if n >= 10 {
      ReadDecimal(n / 10);
      assert Decimal(n)[..|Decimal(n)| - 1] == Decimal(n / 10);
    }
  }

  lemma {:induction false} ReadPadded(f: nat, p: nat)
    requires f < Pow10(p)
    ensures Read(Padded(f, p)) == f
    decreases p
  {
    if p > 0 {
      ReadPadded(f / 10, p - 1);
      assert Padded(f, p)[..p - 1] == Padded(f / 10, p - 1);
    }
  }

  /** A trailing zero dropped is a factor of ten. */
  lemma {:induction false} ReadTrimmed(s: string)
    requires AllDigits(s)
    ensures AllDigits(Trimmed(s)) && Read(s) == Read(Trimmed(s)) * Pow10(|s| - |Trimmed(s)|)
    decreases |s|
  {
    if s != "" && s[|s| - 1] == '0' {
      var t := s[..|s| - 1];
      ReadTrimmed(t);
      ShiftPower(Read(Trimmed(t)), |t| - |Trimmed(t)|);
    }
  }

  lemma ShiftPower(x: nat, k: nat)
    ensures x * Pow10(k + 1) == x * Pow10(k) * 10
  {
    SwapFactors(x, Pow10(k), 10);
  }

  lemma {:induction false} PowersDivide(p: nat, k: nat)
    requires k <= p
    ensures Pow10(p) == Pow10(p - k) * Pow10(k)
    decreases k
  {
    if k > 0 {
      PowersDivide(p, k - 1);
      SwapFactors(Pow10(p - k), 10, Pow10(k - 1));
    }
  }

  lemma PowerQuotient(p: nat, k: nat)
    requires k <= p
    ensures Quotient(Pow10(p), Pow10(k)) == Pow10(p - k)
  {
    PowersDivide(p, k);
    ExactQuotient(Pow10(p), Pow10(k), Pow10(p - k));
  }

  lemma ExactQuotient(a: nat, b: nat, q: nat)
    requires b > 0 && a == q * b
    ensures Quotient(a, b) == q
  {
    DivAtMost(a, b, q);
    DivAtLeast(a, b, q);
  }

  lemma {:induction false} DigitRunStops(head: string, tail: string)
    requires AllDigits(head) && (tail == "" || !IsDigit(tail[0]))
    ensures DigitRun(head + tail) == |head|
  {
    if head == "" {
      assert head + tail == tail;
    } else {
      assert (head + tail)[1..] == head[1..] + tail;
      DigitRunStops(head[1..], tail);
    }
  }

  lemma FractionIs(frac: string)
    requires AllDigits(frac)
    ensures Fraction("." + frac) == frac
  {
    assert ("." + frac)[1..] == frac && frac + "" == frac;
    DigitRunStops(frac, "");
    assert frac[..|frac|] == frac;
  }

  lemma ScanAt(s: string, i: nat, frac: string)
    requires DigitRun(s) == i < |s| && s[i] == '.' && Fraction(s[i..]) == frac
    ensures Scan(s) == Numeral(Read(s[..i]), Read(frac), |frac|, i + 1 + |frac|)
  {
  }

  /** What scanning makes of an integer part and decimals, with a dot between. */
  lemma ScanParts(whole: string, frac: string)
    requires AllDigits(whole) && AllDigits(frac)
    ensures Scan(whole + ("." + frac)) == Numeral(Read(whole), Read(frac), |frac|, |whole| + 1 + |frac|)
  {
    var tail := "." + frac;
    DigitRunStops(whole, tail);
    FractionIs(frac);
    Slices(whole, tail);
    ScanAt(whole + tail, |whole|, frac);
  }

  lemma Slices(head: string, tail: string)
    ensures (head + tail)[..|head|] == head && (head + tail)[|head|..] == tail
    ensures tail != "" ==> (head + tail)[|head|] == tail[0]
  {
  }

  /** A written ratio scans as its two parts, and takes the whole string. */
  lemma ScanWritten(whole: nat, rest: nat, p: nat)
    requires rest < Pow10(p)
    ensures var n := Scan(WriteParts(whole, rest, p));
      && n.whole == whole && n.places <= p && n.frac * Pow10(p - n.places) == rest
      && n.length == |WriteParts(whole, rest, p)|
  {
    var frac := Trimmed(Padded(rest, p));
    ReadPadded(rest, p);
    ReadTrimmed(Padded(rest, p));
    ReadDecimal(whole);
    ScanParts(Decimal(whole), frac);
  }

  lemma ComposeParts(ratio: nat, precision: nat, magnitude: nat, unit: nat, frac: nat)
    requires precision > 0 && magnitude > 0 && Quotient(precision, magnitude) == unit
    requires frac * unit == Remainder(ratio, precision)
    ensures Compose(Quotient(ratio, precision), frac, precision, magnitude) == ratio <==> Quotient(ratio, precision) < WORD
  {
    var whole := Quotient(ratio, precision);
    assert ratio == whole * precision + Remainder(ratio, precision);
    if whole >= WORD {
      MulMono(Remainder(whole, WORD) + 1, whole, precision);
    }
  }

  /** Reading back a printed ratio takes the whole string, and returns the ratio exactly when its
      integer part fits 64 bits. */
  lemma RoundTrip(ratio: nat, p: nat)
    ensures Scan(Print(ratio, p)).length == |Print(ratio, p)|
    ensures RatioOf(Scan(Print(ratio, p)), p) == ratio <==> Quotient(ratio, Pow10(p)) < WORD
  {
    ReadWritten(ratio, p, Quotient(ratio, Pow10(p)), Remainder(ratio, Pow10(p)));
  }

  lemma ReadWritten(ratio: nat, p: nat, whole: nat, rest: nat)
    requires whole == Quotient(ratio, Pow10(p)) && rest == Remainder(ratio, Pow10(p)) && rest < Pow10(p)
    ensures var s := WriteParts(whole, rest, p);
      Scan(s).length == |s| && (RatioOf(Scan(s), p) == ratio <==> whole < WORD)
  {
    ScanWritten(whole, rest, p);
    ReadBack(ratio, p, Scan(WriteParts(whole, rest, p)));
  }

  lemma ReadBack(ratio: nat, p: nat, n: Numeral)
    requires n.whole == Quotient(ratio, Pow10(p)) && n.places <= p && n.frac * Pow10(p - n.places) == Remainder(ratio, Pow10(p))
    ensures RatioOf(n, p) == ratio <==> Quotient(ratio, Pow10(p)) < WORD
  {
    PowerQuotient(p, n.places);
    ComposeParts(ratio, Pow10(p), Pow10(n.places), Pow10(p - n.places), n.frac);
  }

  // ---------- widths ----------

  lemma {:induction false} ReadBelow(s: string)
    requires AllDigits(s)
    ensures Read(s) < Pow10(|s|)
  {
    if s != "" {
      ReadBelow(s[..|s| - 1]);
    }
  }

  lemma {:induction false} PowersGrow(j: nat, k: nat)
    requires j <= k
    ensures Pow10(j) <= Pow10(k)
    decreases k
  {
    if j < k {
      PowersGrow(j, k - 1);
    }
  }

  lemma ComposeBelow(whole: nat, frac: nat, precision: nat, magnitude: nat, bound: nat)
    requires frac < magnitude && precision <= bound
    ensures Compose(whole, frac, precision, magnitude) <= WORD * bound
  {
    MulMono(Remainder(whole, WORD), WORD - 1, precision);
    DivBounds(precision, magnitude);
    MulMono(frac, magnitude, Quotient(precision, magnitude));
  }

  /** With up to 18 decimals nothing else in the parser wraps: neither the decimals and their magnitude
      in 64 bits, signed, nor the ratio in 128. */
  lemma NothingElseWraps(s: string, p: nat)
    requires p <= 18 && Scan(s).places <= 18
    ensures Scan(s).frac < Pow10(Scan(s).places) < 0x8000_0000_0000_0000
    ensures RatioOf(Scan(s), p) < WIDE
  {
    var n := Scan(s);
    ReadBelow(Fraction(s[DigitRun(s)..]));
    PowersGrow(n.places, 18);
    PowersGrow(p, 18);
    assert Pow10(3) == 1000;
    PowersDivide(6, 3);
    PowersDivide(9, 6);
    PowersDivide(18, 9);
    ComposeBelow(n.whole, n.frac, Pow10(p), Pow10(n.places), Pow10(18));
  }
}
