/** The audit log: PAN masking, the audit record written for every processed
    transaction, and the append-only sink of (level, message) entries. */
module Logging {
  import opened Wrappers
  import opened JavaStrings
  import TransactionTypes
  import CurrencyCodes
  import opened Transactions

  const Mask: string := "******"

  /** Keeps the first six and the last four characters of a sixteen-character
      PAN and hides the six between them; any other length, and null, pass
      through. Only the length is looked at, not whether the characters are digits. */
  function MaskPan(pan: Option<string>): (r: Option<string>)
    ensures pan.None? ==> r.None?
    ensures pan.Some? && |pan.value| != 16 ==> r == pan
    ensures pan.Some? && |pan.value| == 16 ==>
              && r.Some? && |r.value| == 16
              && r.value[..6] == pan.value[..6]
              && r.value[12..] == pan.value[12..]
              && forall i :: 6 <= i < 12 ==> r.value[i] == '*'
  {
    match pan
    case None => None
    case Some(p) =>
      if |p| == 16 then Some(p[..6] + Mask + p[12..]) else Some(p)
  }

  lemma MaskPanIdempotent(pan: Option<string>)
    ensures MaskPan(MaskPan(pan)) == MaskPan(pan)
  {
  }

  /** Two sixteen-character PANs that agree on the kept characters mask to
      the same text: the middle six cannot be recovered from the result. */
  lemma MaskPanHidesMiddle(p: string, q: string)
    requires |p| == 16 && |q| == 16
    requires p[..6] == q[..6] && p[12..] == q[12..]
    ensures MaskPan(Some(p)) == MaskPan(Some(q))
  {
  }

  lemma MaskPanExamples()
    ensures MaskPan(Some("1000000000000000")) == Some("100000******0000")
    ensures MaskPan(Some("100000")) == Some("100000")
    ensures MaskPan(Some("ABCDEFGHIJKLMNOP")) == Some("ABCDEF******MNOP")
    ensures MaskPan(None) == None
  {
    var p := "1000000000000000";
    assert |p| == 16 && p[..6] == "100000" && p[12..] == "0000";
    assert Mask == "******";
    assert "100000" + "******" + "0000" == "100000******0000";
    var q := "ABCDEFGHIJKLMNOP";
    assert |q| == 16 && q[..6] == "ABCDEF" && q[12..] == "MNOP";
    assert "ABCDEF" + "******" + "MNOP" == "ABCDEF******MNOP";
  }

  /** The display label: only the APPROVED code reads "Approved". */
  function StatusLabel(status: string): (text: string)
    ensures text == "Approved" <==> status == "01"
    ensures text == "Approved" || text == "Declined"
  {
    if status == "01" then "Approved" else "Declined"
  }

  /** `text` is `minor` minor units written as `%.2f` writes `minor / 100.0`:
      a whole part without leading zeros, a '.', and exactly two fraction
      digits. */
  predicate IsAmountText(text: string, minor: nat) {
    && |text| >= 4 && text[|text| - 3] == '.'
    && AllDigits(text[..|text| - 3]) && AllDigits(text[|text| - 2..])
    && (|text| > 4 ==> text[0] != '0')
    && DigitsValue(text[..|text| - 3]) * 100 + DigitsValue(text[|text| - 2..]) == minor
  }

  /** A negative amount is its magnitude's text after a minus sign. */
  predicate IsSignedAmountText(text: string, amount: int) {
    if amount < 0 then |text| >= 1 && text[0] == '-' && IsAmountText(text[1..], -amount)
    else IsAmountText(text, amount)
  }

  function FormatMinorUnits(minor: nat): (text: string)
    ensures IsAmountText(text, minor)
  {
    var whole := NatToString(minor / 100);
    var hundredths := minor % 100;
    var cents := [DigitChar(hundredths / 10), DigitChar(hundredths % 10)];
    var text := whole + "." + cents;
    assert text[..|text| - 3] == whole;
    assert text[|text| - 2..] == cents;
    assert cents[..1] == [cents[0]] && [cents[0]][..0] == [];
    text
  }

  /** `String.format("%.2f", amount / 100.0)`. For an `int` amount the double
      quotient lies so close to the two-decimal value that the rounding to two
      places gives exactly that value's digits. */
  function FormatAmount(amount: int): (text: string)
    ensures IsSignedAmountText(text, amount)
  {
    if amount < 0 then
      var magnitude := FormatMinorUnits(-amount);
      var text := "-" + magnitude;
      assert text[1..] == magnitude;
      text
    else FormatMinorUnits(amount)
  }

  /** Two digits denoting `v` are the digits of `v`. */
  lemma TwoDigitsAreDigitChars(cents: string, v: nat)
    requires |cents| == 2 && AllDigits(cents) && DigitsValue(cents) == v
    ensures v < 100 && cents == [DigitChar(v / 10), DigitChar(v % 10)]
  {
    assert cents[..1] == [cents[0]] && [cents[0]][..0] == [];
    assert v == DigitValue(cents[0]) * 10 + DigitValue(cents[1]);
  }

  lemma HundredsSplit(whole: nat, cents: nat, minor: nat)
    requires cents < 100 && whole * 100 + cents == minor
    ensures minor / 100 == whole && minor % 100 == cents
  {
  }

  lemma SplitAtPoint(text: string)
    requires |text| >= 4 && text[|text| - 3] == '.'
    ensures text == text[..|text| - 3] + "." + text[|text| - 2..]
  {
  }

  /** A canonical whole part and two cent digits that denote `minor`
      together are the text FormatMinorUnits prints. */
  lemma AmountPartsAreUnique(whole: string, cents: string, minor: nat)
    requires AllDigits(whole) && |whole| >= 1 && (|whole| > 1 ==> whole[0] != '0')
    requires |cents| == 2 && AllDigits(cents)
    requires DigitsValue(whole) * 100 + DigitsValue(cents) == minor
    ensures whole + "." + cents == FormatMinorUnits(minor)
  {
    CanonicalDigitsAreNatToString(whole);
    TwoDigitsAreDigitChars(cents, DigitsValue(cents));
    HundredsSplit(DigitsValue(whole), DigitsValue(cents), minor);
  }

  /** The amount text is determined by the amount: FormatMinorUnits is the
      only text that reads back as `minor`. */
  lemma MinorUnitsTextIsUnique(text: string, minor: nat)
    requires IsAmountText(text, minor)
    ensures text == FormatMinorUnits(minor)
  {
    SplitAtPoint(text);
    AmountPartsAreUnique(text[..|text| - 3], text[|text| - 2..], minor);
  }

  /** FormatAmount is the only signed amount text of `amount`. */
  lemma AmountTextIsUnique(text: string, amount: int)
    requires IsSignedAmountText(text, amount)
    ensures text == FormatAmount(amount)
  {
    if amount < 0 {
      MinorUnitsTextIsUnique(text[1..], -amount);
      assert FormatAmount(amount) == "-" + FormatMinorUnits(-amount);
      assert text == "-" + text[1..];
    } else {
      MinorUnitsTextIsUnique(text, amount);
    }
  }

  lemma FormatAmountExamples()
    ensures FormatAmount(1000) == "10.00"
    ensures FormatAmount(0) == "0.00"
    ensures FormatAmount(5) == "0.05"
    ensures FormatAmount(-5) == "-0.05"
  {
  }

  /** FormatMinorUnits unfolded once, for any amount. */
  lemma FormatMinorUnitsParts(minor: nat)
    ensures FormatMinorUnits(minor)
            == NatToString(minor / 100) + "." + [DigitChar(minor % 100 / 10), DigitChar(minor % 100 % 10)]
  {
  }

  /** Integer.MIN_VALUE minor units: the whole range of `int` formats exactly. */
  lemma FormatAmountMinValue()
    ensures FormatAmount(-2147483648) == "-21474836.48"
  {
    FormatMinorUnitsParts(2147483648);
    MinValueMagnitudeText();
    assert 2147483648 / 100 == 21474836 && 2147483648 % 100 / 10 == 4 && 2147483648 % 100 % 10 == 8;
    assert FormatMinorUnits(2147483648) == "21474836.48";
    assert FormatAmount(-2147483648) == "-" + FormatMinorUnits(2147483648);
  }

  /** `data.transaction` of the structured payload. */
  datatype TransactionNode = TransactionNode(
    pan: Option<string>,
    typeCode: string,
    amount: int,
    currency: string,
    status: string)

  datatype Data = Data(transaction: TransactionNode)

  /** `{ "data": { "transaction": { ... } } }` */
  datatype Details = Details(data: Data)

  /** Everything the audit line is made of. */
  datatype AuditRecord = AuditRecord(
    maskedPan: Option<string>,
    timestamp: string,
    amount: int,
    currencyAlpha: string,
    statusLabel: string,
    details: Details)

  /** The exceptions formatting can raise. */
  datatype Thrown = IllegalArgument(message: string) | NullPointer

  /** `part` occurs in `s` at some position. */
  predicate IsInfix(part: string, s: string) {
    exists i, j :: 0 <= i <= j <= |s| && s[i..j] == part
  }

  /** Where the three parts of a concatenation sit in it. */
  lemma ConcatParts(a: string, b: string, c: string)
    ensures (a + b + c)[..|a|] == a
    ensures (a + b + c)[|a|..|a| + |b|] == b
    ensures (a + b + c)[|a| + |b|..] == c
  {
  }

  const SummaryHead: string := "Processed transaction with card number "
  const SummaryTail: string := ". Return transaction details: "

  /** The audit line up to its serialised payload: the masked PAN and the
      timestamp after the fixed head, then the amount with its alphabetic
      currency code, then the status label before the fixed tail. */
  function Summary(r: AuditRecord): (s: string)
    ensures var head := SummaryHead + Show(r.maskedPan) + " on " + r.timestamp;
            |head| <= |s| && s[..|head|] == head
    ensures IsInfix(", amount " + FormatAmount(r.amount) + " " + r.currencyAlpha, s)
    ensures var tail := ", status " + r.statusLabel + SummaryTail;
            |tail| <= |s| && s[|s| - |tail|..] == tail
    ensures var head := SummaryHead + Show(r.maskedPan) + " on " + r.timestamp;
            var tail := ", status " + r.statusLabel + SummaryTail;
            |head| + |tail| <= |s|
            && s[|head|..|s| - |tail|] == ", amount " + FormatAmount(r.amount) + " " + r.currencyAlpha
  {
    var head := SummaryHead + Show(r.maskedPan) + " on " + r.timestamp;
    var amount := ", amount " + FormatAmount(r.amount) + " " + r.currencyAlpha;
    var tail := ", status " + r.statusLabel + SummaryTail;
    ConcatParts(head, amount, tail);
    head + amount + tail
  }

  /** Builds the audit record of a transaction, `now` standing for the clock.
      Reading the status label dereferences the status first; then the
      currency and then the type are looked up, and a miss throws. */
  function FormatTransactionLog(t: TransactionValue, now: string): (r: Result<AuditRecord, Thrown>)
    ensures r == Failure(NullPointer) <==> t.status.None?
    ensures t.status.Some? && CurrencyCodes.FromNumericCode(t.currency).None? ==>
              r == Failure(IllegalArgument(CurrencyCodes.MissMessage(t.currency)))
    ensures t.status.Some? && CurrencyCodes.FromNumericCode(t.currency).Some?
              && TransactionTypes.FromCode(t.kind).None? ==>
              r == Failure(IllegalArgument(TransactionTypes.MissMessage(t.kind)))
    ensures r.Success? <==> t.status.Some? && CurrencyCodes.FromNumericCode(t.currency).Some?
                            && TransactionTypes.FromCode(t.kind).Some?
    ensures r.Success? ==>
              var node := r.value.details.data.transaction;
              && r.value.maskedPan == node.pan == MaskPan(t.pan)
              && r.value.timestamp == now
              && r.value.amount == node.amount == t.amount
              && node.typeCode == TransactionTypes.FromCode(t.kind).value.Code()
              && Some(node.currency) == t.currency
              && r.value.currencyAlpha == CurrencyCodes.FromNumericCode(t.currency).value.AlphaCode()
              && Some(node.status) == t.status
              && r.value.statusLabel == StatusLabel(node.status)
  {
    var maskedPan := MaskPan(t.pan);
    match t.status
    case None => Failure(NullPointer)
    case Some(status) =>
      var statusLabel := StatusLabel(status);
      match CurrencyCodes.FromNumericCode(t.currency)
      case None => Failure(IllegalArgument(CurrencyCodes.MissMessage(t.currency)))
      case Some(currency) =>
        match TransactionTypes.FromCode(t.kind)
        case None => Failure(IllegalArgument(TransactionTypes.MissMessage(t.kind)))
        case Some(kind) =>
          var node := TransactionNode(maskedPan, kind.Code(), t.amount, currency.NumericCode(), status);
          Success(AuditRecord(maskedPan, now, t.amount, currency.AlphaCode(), statusLabel, Details(Data(node))))
  }

  /** The payload carries the numeric code of the type, not its name. */
  lemma PayloadTypeIsNumericCode(t: TransactionValue, now: string)
    requires FormatTransactionLog(t, now).Success?
    ensures var code := FormatTransactionLog(t, now).value.details.data.transaction.typeCode;
            exists k: TransactionTypes.TransactionType :: t.kind == Some(k.Name()) && code == k.Code()
    ensures t.kind == Some("APP") ==>
              FormatTransactionLog(t, now).value.details.data.transaction.typeCode == "01"
  {
  }

  /** Formatting twice gives the same record except for the clock reading. */
  lemma FormatDependsOnClockOnlyInTimestamp(t: TransactionValue, now: string, later: string)
    ensures FormatTransactionLog(t, now).Success? == FormatTransactionLog(t, later).Success?
    ensures FormatTransactionLog(t, now).Success? ==>
              FormatTransactionLog(t, now).value.(timestamp := later) == FormatTransactionLog(t, later).value
    ensures FormatTransactionLog(t, now).Failure? ==>
              FormatTransactionLog(t, now) == FormatTransactionLog(t, later)
  {
  }

  /** The logging unit test: an approved APP transaction of 1000 minor units
      in "978" gives the masked PAN, "amount 10.00 eur" and "status Approved". */
  lemma LoggingTestCase(now: string)
    ensures var t := TransactionValue(Some("1000000000000000"), Some("APP"), 1000, Some("978"), Some("01"));
            && FormatTransactionLog(t, now).Success?
            && Summary(FormatTransactionLog(t, now).value)
               == (SummaryHead + "100000******0000" + " on " + now)
                  + (", amount " + "10.00" + " " + "eur")
                  + (", status " + "Approved" + SummaryTail)
  {
    var t := TransactionValue(Some("1000000000000000"), Some("APP"), 1000, Some("978"), Some("01"));
    TransactionTypes.FromCodeExamples();
    CurrencyCodes.FromNumericCodeResolves(Some("978"));
    var r := FormatTransactionLog(t, now);
    assert r.Success?;
    MaskPanExamples();
    FormatAmountExamples();
    var record := r.value;
    assert Show(record.maskedPan) == "100000******0000";
    assert record.timestamp == now;
    assert FormatAmount(record.amount) == "10.00";
    assert record.currencyAlpha == "eur";
    assert record.statusLabel == "Approved";
  }

  datatype Level = INFO | ERROR

  datatype Message = Text(text: string) | Audit(record: AuditRecord)

  datatype Entry = Entry(level: Level, message: Message)

  /** The append-only sink; each call adds one line. */
  class AuditLog {
    var entries: seq<Entry>

    constructor()
      ensures entries == []
    {
      entries := [];
    }

    method Log(level: Level, message: Message)
      modifies this
      ensures entries == old(entries) + [Entry(level, message)]
    {
      entries := entries + [Entry(level, message)];
    }

    method LogError(message: string)
      modifies this
      ensures entries == old(entries) + [Entry(ERROR, Text(message))]
    {
      Log(ERROR, Text(message));
    }

    /** Appends one INFO entry with the audit record, or, when formatting
        throws, appends nothing and hands the exception back to the caller. */
    method LogTransaction(t: Transaction, now: string) returns (thrown: Option<Thrown>)
      modifies this
      ensures match FormatTransactionLog(t.Value(), now)
              case Success(record) => thrown == None && entries == old(entries) + [Entry(INFO, Audit(record))]
              case Failure(e) => thrown == Some(e) && entries == old(entries)
    {
      match FormatTransactionLog(t.Value(), now)
      case Success(record) =>
        Log(INFO, Audit(record));
        thrown := None;
      case Failure(e) =>
        thrown := Some(e);
    }
  }
}
