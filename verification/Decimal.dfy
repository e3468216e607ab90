/** Exact decimal text: the canonical digit strings that carry protocol integers,
    their parser, their order (in the program and in SQL), and the conversion of
    little-endian bytes to digits. */
module Decimal {
  import opened Prelude

  predicate IsDigit(c: char) {
    '0' <= c <= '9'
  }

  function DigitValue(c: char): nat
    requires IsDigit(c)
  {
    c as int - '0' as int
  }

  function DigitChar(n: nat): char
    requires n < 10
  {
    ('0' as int + n) as char
  }

  predicate AllDigits(s: string) {
    forall i :: 0 <= i < |s| ==> IsDigit(s[i])
  }

  /** `0`, or digits without a leading zero. */
  predicate Canonical(s: string) {
    |s| > 0 && AllDigits(s) && (s[0] == '0' ==> |s| == 1)
  }

  /** The number a digit string spells. */
  function Value(s: string): nat
    requires AllDigits(s)
  {
    if s == "" then 0 else 10 * Value(s[..|s| - 1]) + DigitValue(s[|s| - 1])
  }

  function Pow10(n: nat): nat {
    if n == 0 then 1 else 10 * Pow10(n - 1)
  }

  lemma {:induction false} Pow10Positive(n: nat)
    ensures Pow10(n) >= 1
  {
    if n > 0 { Pow10Positive(n - 1); }
  }

  lemma {:induction false} Pow10Monotone(m: nat, n: nat)
    requires m <= n
    ensures Pow10(m) <= Pow10(n)
  {
    Pow10Positive(m);
    if m < n { Pow10Monotone(m, n - 1); Pow10Positive(n - 1); }
  }

  // ---------------------------------------------------------------- printing

  /** `u64::to_string` and its unbounded counterpart. */
  function ToText(n: nat): string {
    if n < 10 then [DigitChar(n)] else ToText(n / 10) + [DigitChar(n % 10)]
  }

  lemma {:induction false} ToTextRoundTrip(n: nat)
    ensures Canonical(ToText(n)) && Value(ToText(n)) == n
    ensures n > 0 ==> ToText(n)[0] != '0'
  {
    if n < 10 {
      assert ToText(n)[..0] == "";
    } else {
      ToTextRoundTrip(n / 10);
      var t := ToText(n);
      assert t[..|t| - 1] == ToText(n / 10);
    }
  }

  /** Every canonical string is the text of its value: text and numbers correspond one to one. */
  lemma {:induction false} ValueRoundTrip(s: string)
    requires Canonical(s)
    ensures ToText(Value(s)) == s
    ensures s[0] != '0' ==> Value(s) > 0
  {
    if |s| == 1 {
      assert s[..0] == "";
    } else {
      var init := s[..|s| - 1];
      ValueRoundTrip(init);
      assert s == init + [s[|s| - 1]];
    }
  }

  lemma ToTextInjective(m: nat, n: nat)
    ensures ToText(m) == ToText(n) <==> m == n
  {
    ToTextRoundTrip(m);
    ToTextRoundTrip(n);
  }

  // ---------------------------------------------------------------- parsing

  datatype ParseError = Empty | Signed | Whitespace(at: nat) | InvalidCharacter(at: nat, found: char) | LeadingZero

  datatype Parsed = Accepted(text: string) | Rejected(error: ParseError)

  predicate IsAsciiWhitespace(c: char) {
    c == ' ' || c == '\t' || c == '\n' || c == '\r' || c == 12 as char
  }

  function ClassifyDigit(at: nat, found: char): Option<ParseError> {
    if IsAsciiWhitespace(found) then Some(Whitespace(at))
    else if IsDigit(found) then None
    else Some(InvalidCharacter(at, found))
  }

  /** `DecimalString::from_str`: accepts exactly the canonical strings, and reports the
      first offending character before it looks for a leading zero. */
  method Parse(raw: string) returns (r: Parsed)
    ensures r.Accepted? <==> Canonical(raw)
    ensures r.Accepted? ==> r.text == raw
    ensures r == Rejected(Empty) <==> raw == ""
    ensures r == Rejected(Signed) <==> raw != "" && (raw[0] == '+' || raw[0] == '-')
    ensures r == Rejected(LeadingZero) <==> AllDigits(raw) && |raw| > 1 && raw[0] == '0'
    ensures r.Rejected? && r.error.InvalidCharacter? ==>
              var k := r.error.at;
              k < |raw| && AllDigits(raw[..k]) && r.error.found == raw[k] && !IsDigit(raw[k]) && !IsAsciiWhitespace(raw[k])
    ensures r.Rejected? && r.error.Whitespace? ==>
              var k := r.error.at;
              k < |raw| && AllDigits(raw[..k]) && IsAsciiWhitespace(raw[k])
  {
    if |raw| == 0 {
      return Rejected(Empty);
    }
    var first := raw[0];
    if first == '+' || first == '-' {
      return Rejected(Signed);
    }
    for k := 0 to |raw|
      invariant AllDigits(raw[..k])
    {
      var bad := ClassifyDigit(k, raw[k]);
      if bad.Some? {
        assert !IsDigit(raw[k]);
        return Rejected(bad.value);
      }
    }
    assert raw[..|raw|] == raw;
    if first == '0' && |raw| > 1 {
      return Rejected(LeadingZero);
    }
    return Accepted(raw);
  }

  /** `DecimalString::to_u64` on canonical text. */
  function ToU64(s: string): (r: Result<u64>)
    requires Canonical(s)
    ensures r.Ok? ==> ToText(r.value) == s
    ensures r.Err? ==> Value(s) > U64_MAX
  {
    ValueRoundTrip(s);
    if Value(s) <= U64_MAX then Ok(Value(s)) else Err(Invalid)
  }

  // ---------------------------------------------------------------- order

  /** Plain text order: first difference decides, a proper prefix comes first. */
  predicate TextLess(s: string, t: string) {
    if t == "" then false
    else if s == "" then true
    else if s[0] != t[0] then s[0] < t[0]
    else TextLess(s[1..], t[1..])
  }

  /** Text order is total. */
  lemma {:induction false} TextOrderIsTotal(s: string, t: string)
    ensures s == t ==> !TextLess(s, t)
    ensures s != t ==> (TextLess(s, t) <==> !TextLess(t, s))
  {
    if s != "" && t != "" {
      TextOrderIsTotal(s[1..], t[1..]);
      assert s == [s[0]] + s[1..] && t == [t[0]] + t[1..];
    }
  }

  lemma {:induction false} TextOrderIsTransitive(s: string, t: string, u: string)
    requires TextLess(s, t) && TextLess(t, u)
    ensures TextLess(s, u)
  {
    if s != "" && s[0] == t[0] == u[0] {
      TextOrderIsTransitive(s[1..], t[1..], u[1..]);
    }
  }

  datatype Ordering = Less | Equal | Greater

  /** `Ord for DecimalString`: length first, then text. */
  function Compare(a: string, b: string): Ordering {
    if |a| < |b| then Less
    else if |a| > |b| then Greater
    else if TextLess(a, b) then Less
    else if TextLess(b, a) then Greater
    else Equal
  }

  /** The same order as the SQL expression built by `decimal_gt`. */
  predicate DecimalGt(left: string, right: string) {
    |left| > |right| || (|left| == |right| && TextLess(right, left))
  }

  lemma ShiftLeadingDigit(d: nat, n: nat)
    requires n > 0
    ensures 10 * (d * Pow10(n - 1)) == d * Pow10(n)
  {
    assert 10 * (d * Pow10(n - 1)) == d * (10 * Pow10(n - 1));
  }

  lemma {:induction false} ValueFromFront(s: string)
    requires AllDigits(s) && s != ""
    ensures Value(s) == DigitValue(s[0]) * Pow10(|s| - 1) + Value(s[1..])
  {
    if |s| == 1 {
      assert s[..0] == "" && s[1..] == "";
    } else {
      var init, tail := s[..|s| - 1], s[1..];
      ValueFromFront(init);
      assert init[1..] == tail[..|tail| - 1];
      assert tail[|tail| - 1] == s[|s| - 1] && AllDigits(tail);
      assert Value(tail) == 10 * Value(init[1..]) + DigitValue(s[|s| - 1]);
      assert Value(s) == 10 * Value(init) + DigitValue(s[|s| - 1]);
      hide Value, DigitValue;
      ShiftLeadingDigit(DigitValue(s[0]), |s| - 1);
    }
  }

  lemma {:induction false} ValueBelowPow10(s: string)
    requires AllDigits(s)
    ensures Value(s) < Pow10(|s|)
  {
    if s != "" {
      ValueBelowPow10(s[..|s| - 1]);
    }
  }

  lemma ValueAbovePow10(s: string)
    requires Canonical(s) && |s| > 1
    ensures Value(s) >= Pow10(|s| - 1)
  {
    ValueFromFront(s);
    BiggerFactor(0, DigitValue(s[0]), Pow10(|s| - 1));
  }

  lemma {:induction false} BiggerFactor(a: nat, b: nat, p: nat)
    requires a < b
    ensures a * p + p <= b * p
  {
    assert (b - 1) * p + p == b * p;
    if a + 1 < b { BiggerFactor(a, b - 1, p); }
  }

  lemma LeadingDigitDecides(s: string, t: string)
    requires AllDigits(s) && AllDigits(t) && |s| == |t| && s != "" && s[0] < t[0]
    ensures Value(s) < Value(t)
  {
    ValueFromFront(s);
    ValueFromFront(t);
    ValueBelowPow10(s[1..]);
    BiggerFactor(DigitValue(s[0]), DigitValue(t[0]), Pow10(|s| - 1));
  }

  lemma {:induction false} TextOrderIsNumeric(s: string, t: string)
    requires AllDigits(s) && AllDigits(t) && |s| == |t|
    ensures TextLess(s, t) <==> Value(s) < Value(t)
  {
    if s != "" {
      if s[0] < t[0] {
        LeadingDigitDecides(s, t);
      } else if t[0] < s[0] {
        LeadingDigitDecides(t, s);
      } else {
        ValueFromFront(s);
        ValueFromFront(t);
        TextOrderIsNumeric(s[1..], t[1..]);
      }
    }
  }

  lemma ShorterIsSmaller(s: string, t: string)
    requires Canonical(s) && Canonical(t) && |s| < |t|
    ensures Value(s) < Value(t)
  {
    ValueBelowPow10(s);
    ValueAbovePow10(t);
    Pow10Monotone(|s|, |t| - 1);
  }

  /** On canonical text both orders are the numeric order. */
  lemma DecimalOrderIsNumeric(a: string, b: string)
    requires Canonical(a) && Canonical(b)
    ensures Compare(a, b) == (if Value(a) < Value(b) then Less else if Value(a) == Value(b) then Equal else Greater)
    ensures DecimalGt(a, b) <==> Value(a) > Value(b)
  {
    if |a| < |b| {
      ShorterIsSmaller(a, b);
    } else if |b| < |a| {
      ShorterIsSmaller(b, a);
    } else {
      TextOrderIsNumeric(a, b);
      TextOrderIsNumeric(b, a);
    }
  }

  /** The form the store uses: numbers written by `to_string` compare as numbers. */
  lemma PrintedOrderIsNumeric(m: nat, n: nat)
    ensures DecimalGt(ToText(m), ToText(n)) <==> m > n
  {
    ToTextRoundTrip(m);
    ToTextRoundTrip(n);
    DecimalOrderIsNumeric(ToText(m), ToText(n));
  }

  // ---------------------------------------------------------------- bytes to digits

  type digit = n: int | 0 <= n < 10

  /** The number a little-endian byte string spells. */
  function LittleEndian(raw: seq<byte>): nat {
    if raw == [] then 0 else raw[0] as nat + 256 * LittleEndian(raw[1..])
  }

  /** The number a digit vector spells, least significant digit first. */
  function DigitsValue(d: seq<digit>): nat {
    if d == [] then 0 else DigitsValue(d[..|d| - 1]) + d[|d| - 1] * Pow10(|d| - 1)
  }

  /** No leading zero, in least-significant-first order. */
  predicate NoTopZero(d: seq<digit>) {
    |d| > 0 && (d[|d| - 1] == 0 ==> |d| == 1)
  }

  lemma PushDigit(d: seq<digit>, x: digit)
    ensures DigitsValue(d + [x]) == DigitsValue(d) + x * Pow10(|d|)
  {
    assert (d + [x])[..|d|] == d;
  }

  lemma CarryStep(d: nat, carry: nat, p: nat)
    ensures var next := d * 256 + carry;
            (next % 10) * p + (next / 10) * (10 * p) == 256 * (d * p) + carry * p
  {
    var next := d * 256 + carry;
    assert next == 10 * (next / 10) + next % 10;
    calc {
      (next % 10) * p + (next / 10) * (10 * p);
      (next % 10 + 10 * (next / 10)) * p;
      next * p;
      (d * 256) * p + carry * p;
      256 * (d * p) + carry * p;
    }
  }

  /** What a digit vector and a pending carry spell together. */
  ghost function Weighted(out: seq<digit>, carry: nat): nat {
    DigitsValue(out) + carry * Pow10(|out|)
  }

  lemma WeightedPush(out: seq<digit>, x: digit, carry: nat)
    ensures Weighted(out + [x], carry) == DigitsValue(out) + x * Pow10(|out|) + carry * (10 * Pow10(|out|))
  {
    PushDigit(out, x);
    hide DigitsValue;
    assert |out + [x]| == |out| + 1;
    assert Pow10(|out| + 1) == 10 * Pow10(|out|);
  }

  lemma MulArithmetic(o: nat, carry: nat, v: nat, d: nat, b: nat, p: nat)
    requires o + carry * p == 256 * v + b
    ensures var next := d * 256 + carry; o + (next % 10) * p + (next / 10) * (10 * p) == 256 * (v + d * p) + b
  {
    CarryStep(d, carry, p);
  }

  /** One digit of the multiplication keeps the weighted sum. */
  lemma MulStep(out: seq<digit>, carry: nat, done: seq<digit>, d: digit, b: nat)
    requires |out| == |done| && Weighted(out, carry) == 256 * DigitsValue(done) + b
    ensures var next := d * 256 + carry; Weighted(out + [next % 10], next / 10) == 256 * DigitsValue(done + [d]) + b
  {
    var next := d * 256 + carry;
    PushDigit(done, d);
    WeightedPush(out, next % 10, next / 10);
    MulArithmetic(DigitsValue(out), carry, DigitsValue(done), d, b, Pow10(|done|));
    hide DigitsValue, Pow10;
  }

  lemma NoDigits()
    ensures DigitsValue([]) == 0 && forall carry: nat :: Weighted([], carry) == carry
  {
    assert Pow10(0) == 1;
  }

  /** The pass over the digits: multiply by 256 with carry. The carry never exceeds 255, so
      the 16-bit products and the digit casts are exact. */
  method MulDigits(digits: seq<digit>, b: byte) returns (out: seq<digit>, carry: nat)
    requires NoTopZero(digits)
    ensures |out| == |digits| && carry <= 255
    ensures Weighted(out, carry) == 256 * DigitsValue(digits) + b as nat
    ensures carry == 0 ==> NoTopZero(out)
  {
    hide DigitsValue, Pow10, Weighted;
    NoDigits();
    carry := b as nat;
    out := [];
    assert digits[..0] == [];
    for i := 0 to |digits|
      invariant |out| == i && carry <= 255
      invariant Weighted(out, carry) == 256 * DigitsValue(digits[..i]) + b as nat
      invariant i == |digits| && digits[i - 1] != 0 ==> carry > 0
    {
      var next := digits[i] * 256 + carry;
      MulStep(out, carry, digits[..i], digits[i], b as nat);
      assert digits[..i + 1] == digits[..i] + [digits[i]];
      out := out + [next % 10];
      carry := next / 10;
    }
    assert digits[..|digits|] == digits;
  }

  lemma PushCarryStep(out: seq<digit>, carry: nat)
    ensures Weighted(out + [carry % 10], carry / 10) == Weighted(out, carry)
  {
    WeightedPush(out, carry % 10, carry / 10);
    CarrySplit(carry, Pow10(|out|));
    hide DigitsValue, Pow10;
  }

  lemma NoCarry(out: seq<digit>)
    ensures Weighted(out, 0) == DigitsValue(out)
  {
    hide DigitsValue, Pow10;
  }

  /** One round of the conversion: multiply the digits by 256 and add a byte. */
  method MulAdd(digits: seq<digit>, b: byte) returns (out: seq<digit>)
    requires NoTopZero(digits)
    ensures DigitsValue(out) == 256 * DigitsValue(digits) + b as nat
    ensures NoTopZero(out)
  {
    hide DigitsValue, Pow10, Weighted;
    var carry;
    out, carry := MulDigits(digits, b);
    while carry > 0
      invariant |out| >= 1 && Weighted(out, carry) == 256 * DigitsValue(digits) + b as nat
      invariant carry == 0 ==> NoTopZero(out)
    {
      PushCarryStep(out, carry);
      out := out + [carry % 10];
      carry := carry / 10;
    }
    NoCarry(out);
  }

  lemma CarrySplit(carry: nat, p: nat)
    ensures carry * p == (carry / 10) * (10 * p) + (carry % 10) * p
  {
    calc {
      carry * p;
      (10 * (carry / 10) + carry % 10) * p;
      (carry / 10) * (10 * p) + (carry % 10) * p;
    }
  }

  /** Text of a digit vector, most significant digit first. */
  function Render(d: seq<digit>): string {
    if d == [] then "" else [DigitChar(d[|d| - 1])] + Render(d[..|d| - 1])
  }

  lemma {:induction false} RenderValue(d: seq<digit>)
    ensures |Render(d)| == |d| && AllDigits(Render(d)) && Value(Render(d)) == DigitsValue(d)
  {
    if d != [] {
      RenderValue(d[..|d| - 1]);
      var t := Render(d);
      ValueFromFront(t);
      assert t[1..] == Render(d[..|d| - 1]);
    }
  }

  /** Digits of any little-endian byte string: its exact value, in canonical form. */
  method BytesToDecimal(raw: seq<byte>) returns (text: string)
    ensures Canonical(text) && Value(text) == LittleEndian(raw)
  {
    var digits: seq<digit> := [0];
    assert DigitsValue(digits) == 0 by { PushDigit([], 0); assert [] + [0 as digit] == digits; }
    var i := |raw|;
    while i > 0
      invariant 0 <= i <= |raw|
      invariant NoTopZero(digits) && DigitsValue(digits) == LittleEndian(raw[i..])
    {
      i := i - 1;
      assert raw[i..][1..] == raw[i + 1..];
      digits := MulAdd(digits, raw[i]);
    }
    assert raw[0..] == raw;
    RenderValue(digits);
    text := Render(digits);
  }

  /** The digits always parse, and parse back to the bytes' value. */
  method BytesParse(raw: seq<byte>) returns (r: Parsed)
    ensures r.Accepted? && Canonical(r.text) && Value(r.text) == LittleEndian(raw)
    ensures r.text == ToText(LittleEndian(raw))
  {
    var text := BytesToDecimal(raw);
    ValueRoundTrip(text);
    r := Parse(text);
  }
}
