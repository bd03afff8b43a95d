/** Whether a primary account number is acceptable for a transaction type:
    exactly sixteen ASCII digits whose value lies in the type's inclusive range. */
module PanValidator {
  import opened Wrappers
  import opened JavaStrings
  import opened TransactionTypes

  datatype PanRange = PanRange(low: nat, high: nat) {
    predicate Contains(v: nat) {
      low <= v <= high
    }
  }

  /** The customer-defined range of each type, both ends included. */
  function RangeFor(t: TransactionType): PanRange {
    match t
    case APP => PanRange(1000000000000000, 1000005999999999)
    case BRW => PanRange(2000000000000000, 2000001234567890)
    case TRI => PanRange(3000000000000000, 3000000000000100)
  }

  /** `pan.matches("\\d{16}")`: the whole string is sixteen characters '0'..'9'. */
  predicate IsSixteenDigits(pan: string) {
    |pan| == 16 && AllDigits(pan)
  }

  /** Non-null and sixteen digits: the structural check. */
  predicate IsWellFormed(pan: Option<string>) {
    pan.Some? && IsSixteenDigits(pan.value)
  }

  function IsValidPanForType(pan: Option<string>, t: TransactionType): (r: bool)
    ensures r ==> IsWellFormed(pan)
    ensures IsWellFormed(pan) ==> (r <==> RangeFor(t).Contains(DigitsValue(pan.value)))
  {
    if pan.None? || !IsSixteenDigits(pan.value) then false
    else
      var panValue := DigitsValue(pan.value);
      RangeFor(t).Contains(panValue)
  }

  const LongMax: int := 0x7FFF_FFFF_FFFF_FFFF

  /** `Long.parseLong` of a well-formed PAN cannot overflow. */
  lemma ParseCannotOverflow(pan: string)
    requires IsSixteenDigits(pan)
    ensures DigitsValue(pan) <= 9999999999999999 < LongMax
  {
    assert Pow10(15) == 1000000000000000;
    assert Pow10(16) == 10 * Pow10(15);
  }

  /** Null, empty, short, long or non-digit input is invalid for every type. */
  lemma MalformedIsInvalid(pan: Option<string>, t: TransactionType)
    requires pan.None? || |pan.value| != 16 || exists i :: 0 <= i < |pan.value| && !IsDigit(pan.value[i])
    ensures !IsValidPanForType(pan, t)
  {
  }

  /** The three ranges are pairwise disjoint, so no PAN is valid for two types. */
  lemma ValidForAtMostOneType(pan: Option<string>, a: TransactionType, b: TransactionType)
    requires a != b
    ensures !(IsValidPanForType(pan, a) && IsValidPanForType(pan, b))
  {
  }

  lemma RangeBoundsAreValid(t: TransactionType)
    ensures IsValidPanForType(Some(NatToString(RangeFor(t).low)), t)
    ensures IsValidPanForType(Some(NatToString(RangeFor(t).high)), t)
    ensures !IsValidPanForType(Some(NatToString(RangeFor(t).high + 1)), t)
  {
    var lo, hi := RangeFor(t).low, RangeFor(t).high;
    SixteenDigitText(lo);
    SixteenDigitText(hi);
    SixteenDigitText(hi + 1);
  }

  /** Every number with sixteen decimal digits prints as sixteen characters. */
  lemma SixteenDigitText(n: nat)
    requires 1000000000000000 <= n < 10000000000000000
    ensures IsSixteenDigits(NatToString(n))
  {
    TextLength(n, 15);
    assert Pow10(15) == 1000000000000000;
  }

  lemma {:induction false} TextLength(n: nat, k: nat)
    requires Pow10(k) <= n < 10 * Pow10(k)
    ensures |NatToString(n)| == k + 1
  {
    if k > 0 {
      TextLength(n / 10, k - 1);
    }
  }

  /** The cases of the validator's unit tests. */
  lemma TestCases()
    ensures IsValidPanForType(Some("1000000000000000"), APP)
    ensures !IsValidPanForType(Some("2000000000000000"), APP)
    ensures IsValidPanForType(Some("2000000000000000"), BRW)
    ensures !IsValidPanForType(Some("3000000000000000"), BRW)
    ensures IsValidPanForType(Some("3000000000000000"), TRI)
    ensures !IsValidPanForType(Some("4000000000000000"), TRI)
    ensures !IsValidPanForType(Some("100000"), APP)
    ensures !IsValidPanForType(Some("1000000000000000000"), APP)
    ensures !IsValidPanForType(None, APP)
    ensures !IsValidPanForType(Some(""), APP)
    ensures !IsValidPanForType(Some("9999999999999999"), APP)
  {
    assert Pow10(15) == 1000000000000000;
    assert Pow10(16) == 10 * Pow10(15);
    NinesValue(16);
    assert "9999999999999999" == Repeat('9', 16);
    DigitThenZerosValue('1', 15);
    DigitThenZerosValue('2', 15);
    DigitThenZerosValue('3', 15);
    DigitThenZerosValue('4', 15);
    assert "1000000000000000" == ['1'] + Repeat('0', 15);
    assert "2000000000000000" == ['2'] + Repeat('0', 15);
    assert "3000000000000000" == ['3'] + Repeat('0', 15);
    assert "4000000000000000" == ['4'] + Repeat('0', 15);
  }
}
