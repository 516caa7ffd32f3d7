/** Stored values are opaque bytes; counters read and write them as decimal 64-bit integers. */
module Numbers {
  import opened Base

  type byte = x: int | 0 <= x < 256

  type Bytes = seq<byte>

  const I64_MIN: int := -0x8000_0000_0000_0000
  const I64_MAX: int := 0x7FFF_FFFF_FFFF_FFFF

  predicate InI64(n: int) {
    I64_MIN <= n <= I64_MAX
  }

  predicate IsDigit(b: byte) {
    48 <= b <= 57
  }

  predicate AllDigits(s: Bytes) {
    s != [] && forall i :: 0 <= i < |s| ==> IsDigit(s[i])
  }

  function Decimal(s: Bytes): int
    requires forall i :: 0 <= i < |s| ==> IsDigit(s[i])
  {
    if s == [] then 0 else Decimal(s[..|s| - 1]) * 10 + (s[|s| - 1] as int - 48)
  }

  /** `str::parse::<i64>` on the bytes: an optional sign, at least one digit, and a value in range. */
  function ParseI64(s: Bytes): Option<int> {
    var negative := s != [] && s[0] == 45;
    var digits := if s != [] && (s[0] == 45 || s[0] == 43) then s[1..] else s;
    if !AllDigits(digits) then None
    else
      var n := if negative then -Decimal(digits) else Decimal(digits);
      if InI64(n) then Some(n) else None
  }

  /** The number a string of digits stands for: each digit times the power of ten of its place. */
  function PlaceValue(s: Bytes): int {
    if s == [] then 0 else (s[0] as int - 48) * TenTo(|s| - 1) + PlaceValue(s[1..])
  }

  function TenTo(n: nat): int {
    if n == 0 then 1 else 10 * TenTo(n - 1)
  }

  lemma {:induction false} PlaceLast(s: Bytes, b: byte)
    ensures PlaceValue(s + [b]) == 10 * PlaceValue(s) + (b as int - 48)
    decreases |s|
  {
    if s == [] {
      assert [] + [b] == [b] && [b][1..] == [];
    } else {
      assert (s + [b])[0] == s[0] && (s + [b])[1..] == s[1..] + [b];
      PlaceLast(s[1..], b);
      var d, p := s[0] as int - 48, TenTo(|s| - 1);
      assert TenTo(|s|) == 10 * p && d * (10 * p) == 10 * (d * p);
    }
  }

  lemma {:induction false} DecimalIsPlaceValue(s: Bytes)
    requires forall i :: 0 <= i < |s| ==> IsDigit(s[i])
    ensures Decimal(s) == PlaceValue(s)
  {
    if s != [] {
      DecimalIsPlaceValue(s[..|s| - 1]);
      PlaceLast(s[..|s| - 1], s[|s| - 1]);
      assert s == s[..|s| - 1] + [s[|s| - 1]];
    }
  }

  /** An optional sign, then digits and nothing else. */
  ghost predicate Denotes(s: Bytes, sign: Bytes, digits: Bytes) {
    && s == sign + digits && (sign == [] || sign == [43] || sign == [45])
    && digits != [] && forall i :: 0 <= i < |digits| ==> 48 <= digits[i] <= 57
  }

  /** A counter reads exactly the signed decimal numbers that fit in 64 bits, leading zeros and a plus included. */
  lemma {:induction false} ParseExactly(s: Bytes, n: int)
    ensures ParseI64(s) == Some(n) <==>
            && -0x8000_0000_0000_0000 <= n <= 0x7FFF_FFFF_FFFF_FFFF
            && exists sign, digits :: Denotes(s, sign, digits)
                 && n == if sign == [45] then -PlaceValue(digits) else PlaceValue(digits)
  {
    var sign := if s != [] && (s[0] == 45 || s[0] == 43) then [s[0]] else [];
    var digits := s[|sign|..];
    assert s == sign + digits;
    forall a, b | Denotes(s, a, b) ensures a == sign && b == digits {
      OneReading(s, a, b);
    }
    if AllDigits(digits) {
      DecimalIsPlaceValue(digits);
      assert Denotes(s, sign, digits);
    }
  }

  lemma {:induction false} OneReading(s: Bytes, sign: Bytes, digits: Bytes)
    requires Denotes(s, sign, digits)
    ensures sign == (if s != [] && (s[0] == 45 || s[0] == 43) then [s[0]] else []) && digits == s[|sign|..]
  {
    assert s[0] == if sign == [] then digits[0] else sign[0];
  }

  function Digits(n: nat): (s: Bytes)
    ensures AllDigits(s)
  {
    if n < 10 then [48 + n] else Digits(n / 10) + [48 + n % 10]
  }

  /** `i64::to_string`. */
  function RenderI64(n: int): Bytes {
    if n < 0 then [45] + Digits(-n) else Digits(n)
  }

  lemma {:induction false} DecimalOfDigits(n: nat)
    ensures Decimal(Digits(n)) == n
  {
    if n < 10 {
      assert [48 + n][..0] == [];
    } else {
      DecimalOfDigits(n / 10);
      var s := Digits(n / 10) + [48 + n % 10];
      assert s[..|s| - 1] == Digits(n / 10);
    }
  }

  /** What a counter writes it can read back. */
  lemma {:induction false} ParseRender(n: int)
    requires InI64(n)
    ensures ParseI64(RenderI64(n)) == Some(n)
  {
    if n < 0 {
      DecimalOfDigits(-n);
      assert RenderI64(n)[1..] == Digits(-n);
    } else {
      DecimalOfDigits(n);
      assert IsDigit(Digits(n)[0]);
    }
  }
}
