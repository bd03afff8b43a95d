/** The approval pipeline: five checks in a fixed order, the first failure
    declining the transaction, and one audit entry written on every exit. */
module Payments {
  import opened Wrappers
  import opened JavaStrings
  import TransactionTypes
  import CurrencyCodes
  import opened TransactionStatuses
  import PanValidator
  import opened Transactions
  import opened Logging

  /** The five checks, in the order they run. */
  datatype Check = StatusCheck | TypeCheck | CurrencyCheck | PanCheck | AmountCheck {
    function Position(): nat {
      match this
      case StatusCheck => 0
      case TypeCheck => 1
      case CurrencyCheck => 2
      case PanCheck => 3
      case AmountCheck => 4
    }
  }

  datatype Decision = Approve | Decline(failed: Check)

  /** What each check demands, taken on its own. The PAN and amount checks
      need a resolved type; without one they do not pass. */
  predicate Passes(c: Check, t: TransactionValue) {
    match c
    case StatusCheck => t.status == Some(ACTIVE.Code())
    case TypeCheck => TransactionTypes.FromCode(t.kind).Some?
    case CurrencyCheck => CurrencyCodes.FromNumericCode(t.currency).Some?
    case PanCheck =>
      TransactionTypes.FromCode(t.kind).Some?
      && PanValidator.IsValidPanForType(t.pan, TransactionTypes.FromCode(t.kind).value)
    case AmountCheck =>
      TransactionTypes.FromCode(t.kind).Some?
      && t.amount <= TransactionTypes.FromCode(t.kind).value.MaxAmount()
  }

  /** The outcome of the pipeline on the transaction as it arrives: approval
      when every check passes, otherwise the first check, in order, that fails. */
  function Evaluate(t: TransactionValue): Decision {
    if t.status != Some(ACTIVE.Code()) then Decline(StatusCheck)
    else
      match TransactionTypes.FromCode(t.kind)
      case None => Decline(TypeCheck)
      case Some(kind) =>
        if CurrencyCodes.FromNumericCode(t.currency).None? then Decline(CurrencyCheck)
        else if !PanValidator.IsValidPanForType(t.pan, kind) then Decline(PanCheck)
        else if t.amount > kind.MaxAmount() then Decline(AmountCheck)
        else Approve
  }

  /** The pipeline approves exactly when every check passes, and otherwise
      declines on the first failing check in order. */
  lemma EvaluateIsFirstFailure(t: TransactionValue)
    ensures Evaluate(t) == Approve <==> forall c: Check :: Passes(c, t)
    ensures forall c: Check :: Evaluate(t) == Decline(c) <==>
              !Passes(c, t) && forall e: Check :: e.Position() < c.Position() ==> Passes(e, t)
  {
    forall c: Check
      ensures Evaluate(t) == Decline(c) <==>
                !Passes(c, t) && forall e: Check :: e.Position() < c.Position() ==> Passes(e, t)
    {
      forall e: Check | e.Position() < c.Position() && Evaluate(t) == Decline(c)
        ensures Passes(e, t)
      {
        assert e.Position() < Evaluate(t).failed.Position();
      }
    }
  }

  function DecidedCode(d: Decision): string {
    if d == Approve then APPROVED.Code() else DECLINED.Code()
  }

  /** The transaction after the pipeline: only the status differs. */
  function Decided(t: TransactionValue): TransactionValue {
    t.(status := Some(DecidedCode(Evaluate(t))))
  }

  const StatusNotActive: string := "Transaction status is not active: "
  const InvalidType: string := "Invalid transaction type: "
  const InvalidCurrency: string := "Invalid currency code: "
  const InvalidPan: string := "Invalid PAN for type: "
  const AmountExceedsLimit: string := "Transaction amount exceeds limit: "
  const LoggingFailed: string := "Error during logging transaction: "

  /** The fixed text a check's cause line starts with. */
  function CausePrefix(c: Check): string {
    match c
    case StatusCheck => StatusNotActive
    case TypeCheck => InvalidType
    case CurrencyCheck => InvalidCurrency
    case PanCheck => InvalidPan
    case AmountCheck => AmountExceedsLimit
  }

  /** The cause line of a failed check, read from the transaction after its
      status was overwritten: the check's fixed text, then the field it
      rejected as Java renders it in a concatenation. */
  function CauseMessage(c: Check, t: TransactionValue): (r: string)
    ensures |CausePrefix(c)| <= |r| && r[..|CausePrefix(c)|] == CausePrefix(c)
    ensures c == StatusCheck ==> r[|CausePrefix(c)|..] == Show(t.status)
    ensures c == TypeCheck ==> r[|CausePrefix(c)|..] == Show(t.kind)
    ensures c == CurrencyCheck ==> r[|CausePrefix(c)|..] == Show(t.currency)
    ensures c == PanCheck ==> r[|CausePrefix(c)|..] == Show(t.pan)
    ensures c == AmountCheck ==> r[|CausePrefix(c)|..] == IntToString(t.amount)
    ensures c == AmountCheck ==> ParseInt(r[|CausePrefix(c)|..]) == Some(t.amount as int)
  {
    var detail := match c
      case StatusCheck => Show(t.status)
      case TypeCheck => Show(t.kind)
      case CurrencyCheck => Show(t.currency)
      case PanCheck => Show(t.pan)
      case AmountCheck => IntToString(t.amount);
    var r := CausePrefix(c) + detail;
    assert r[..|CausePrefix(c)|] == CausePrefix(c) && r[|CausePrefix(c)|..] == detail;
    IntToStringRoundTrip(t.amount);
    r
  }

  /** A cause line tells which check failed: no two checks write the same line. */
  lemma CauseMessageIdentifiesCheck(c: Check, d: Check, t: TransactionValue, u: TransactionValue)
    requires CauseMessage(c, t) == CauseMessage(d, u)
    ensures c == d
  {
    var r := CauseMessage(c, t);
    assert r[0] == CausePrefix(c)[0] == CausePrefix(d)[0];
    assert r[8] == CausePrefix(c)[8] == CausePrefix(d)[8];
    assert r[12] == CausePrefix(c)[12] == CausePrefix(d)[12];
  }

  /** The logging-failure line tells which lookup threw: the type and the
      currency misses never share a message. */
  lemma MissMessagesDiffer(kind: Option<string>, currency: Option<string>)
    ensures TransactionTypes.MissMessage(kind) != CurrencyCodes.MissMessage(currency)
  {
    assert TransactionTypes.MissMessage(kind)[8] == 't';
    assert CurrencyCodes.MissMessage(currency)[8] == 'c';
  }

  /** The entries the checks append: one cause line when a check fails. */
  function CauseEntries(t: TransactionValue): seq<Entry> {
    match Evaluate(t)
    case Approve => []
    case Decline(c) => [Entry(ERROR, Text(CauseMessage(c, Decided(t))))]
  }

  /** The entries the finalisation appends: the audit record, or the error
      line that replaces it when formatting throws IllegalArgumentException.
      A null status would throw NullPointerException, which is not caught and
      logs nothing; the pipeline never leaves the status null. */
  function FinalEntries(t: TransactionValue, now: string): seq<Entry> {
    match FormatTransactionLog(t, now)
    case Success(record) => [Entry(INFO, Audit(record))]
    case Failure(IllegalArgument(m)) => [Entry(ERROR, Text(LoggingFailed + m))]
    case Failure(NullPointer) => []
  }

  function ProcessEntries(t: TransactionValue, now: string): seq<Entry> {
    CauseEntries(t) + FinalEntries(Decided(t), now)
  }

  /** The body of the `try`: each failed check overwrites the status with
      DECLINED, logs its cause and returns; passing all five approves. */
  method RunChecks(t: Transaction, log: AuditLog)
    modifies t`status, log
    ensures t.Value() == Decided(old(t.Value()))
    ensures log.entries == old(log.entries) + CauseEntries(old(t.Value()))
  {
    ghost var v := t.Value();
    if t.status != Some(ACTIVE.Code()) {
      assert Evaluate(v) == Decline(StatusCheck);
      t.SetStatus(Some(DECLINED.Code()));
      log.LogError(StatusNotActive + Show(t.status));
      return;
    }

    var kind := TransactionTypes.FromCode(t.kind);
    if kind.None? {
      assert Evaluate(v) == Decline(TypeCheck);
      t.SetStatus(Some(DECLINED.Code()));
      log.LogError(InvalidType + Show(t.kind));
      return;
    }

    var currency := CurrencyCodes.FromNumericCode(t.currency);
    if currency.None? {
      assert Evaluate(v) == Decline(CurrencyCheck);
      t.SetStatus(Some(DECLINED.Code()));
      log.LogError(InvalidCurrency + Show(t.currency));
      return;
    }

    if !PanValidator.IsValidPanForType(t.pan, kind.value) {
      assert Evaluate(v) == Decline(PanCheck);
      t.SetStatus(Some(DECLINED.Code()));
      log.LogError(InvalidPan + Show(t.pan));
      return;
    }

    if t.amount > kind.value.MaxAmount() {
      assert Evaluate(v) == Decline(AmountCheck);
      t.SetStatus(Some(DECLINED.Code()));
      log.LogError(AmountExceedsLimit + IntToString(t.amount));
      return;
    }

    assert Evaluate(v) == Approve;
    t.SetStatus(Some(APPROVED.Code()));
  }

  /** `process`: the checks, then, on every path, the audit entry; an
      IllegalArgumentException from formatting becomes an error line. The
      same object is returned with only its status changed. */
  method Process(t: Transaction, log: AuditLog, now: string) returns (r: Transaction)
    modifies t`status, log
    ensures r == t
    ensures t.Value() == Decided(old(t.Value()))
    ensures log.entries == old(log.entries) + ProcessEntries(old(t.Value()), now)
  {
    RunChecks(t, log);
    var thrown := log.LogTransaction(t, now);
    if thrown.Some? && thrown.value.IllegalArgument? {
      log.LogError(LoggingFailed + thrown.value.message);
    }
    r := t;
  }

  /** A transaction that is not ACTIVE is declined by the first check, and its
      cause line shows the status already overwritten. */
  lemma InactiveDeclinesFirst(t: TransactionValue)
    requires t.status != Some("00")
    ensures Evaluate(t) == Decline(StatusCheck)
    ensures Decided(t).status == Some("02")
    ensures CauseEntries(t) == [Entry(ERROR, Text("Transaction status is not active: 02"))]
  {
    assert ACTIVE.Code() == "00";
    assert StatusNotActive + "02" == "Transaction status is not active: 02";
  }

  /** The pipeline never leaves a transaction ACTIVE, null or in any status
      other than APPROVED or DECLINED. */
  lemma FinalStatusIsTerminal(t: TransactionValue)
    ensures Decided(t).status == Some("01") || Decided(t).status == Some("02")
    ensures TransactionStatuses.FromCode(Decided(t).status) == Some(APPROVED)
            || TransactionStatuses.FromCode(Decided(t).status) == Some(DECLINED)
    ensures Decided(t).status == Some("01") <==> Evaluate(t) == Approve
  {
  }

  /** Approval holds exactly when the status is ACTIVE, the type and the
      currency resolve, the PAN is valid for the type and the amount is at most
      the type's maximum. */
  lemma ApprovedIff(t: TransactionValue)
    ensures Evaluate(t) == Approve <==>
              && t.status == Some("00")
              && CurrencyCodes.FromNumericCode(t.currency).Some?
              && exists k: TransactionTypes.TransactionType ::
                   && TransactionTypes.FromCode(t.kind) == Some(k)
                   && PanValidator.IsValidPanForType(t.pan, k)
                   && t.amount <= k.MaxAmount()
  {
  }

  /** At most one cause line is written, and it is the one of the first
      failing check; a transaction that passes everything gets none. */
  lemma CauseLineIsFirstFailure(t: TransactionValue, c: Check)
    requires !Passes(c, t)
    requires forall e: Check :: e.Position() < c.Position() ==> Passes(e, t)
    ensures CauseEntries(t) == [Entry(ERROR, Text(CauseMessage(c, Decided(t))))]
  {
    EvaluateIsFirstFailure(t);
  }

  lemma NoCauseLineWhenAllPass(t: TransactionValue)
    requires forall c: Check :: Passes(c, t)
    ensures CauseEntries(t) == [] && Decided(t).status == Some("01")
  {
    EvaluateIsFirstFailure(t);
  }

  /** The limit has no lower bound: any amount up to the maximum, negative
      ones included, passes the amount check. */
  lemma AmountLimitIsUpperBoundOnly(t: TransactionValue)
    requires TransactionTypes.FromCode(t.kind).Some?
    ensures Passes(AmountCheck, t) <==> t.amount <= TransactionTypes.FromCode(t.kind).value.MaxAmount()
    ensures t.amount <= 0 ==> Passes(AmountCheck, t)
  {
  }

  /** The finalisation adds exactly one entry: INFO with the audit record when
      the type and the currency resolve, otherwise the logging-failure error
      line carrying the message of the lookup that threw. */
  lemma FinalisationWritesOneEntry(t: TransactionValue, now: string)
    ensures |FinalEntries(Decided(t), now)| == 1
    ensures FinalEntries(Decided(t), now)[0].level == INFO <==>
              TransactionTypes.FromCode(t.kind).Some? && CurrencyCodes.FromNumericCode(t.currency).Some?
    ensures CurrencyCodes.FromNumericCode(t.currency).None? ==>
              FinalEntries(Decided(t), now)[0]
              == Entry(ERROR, Text(LoggingFailed + CurrencyCodes.MissMessage(t.currency)))
    ensures CurrencyCodes.FromNumericCode(t.currency).Some? && TransactionTypes.FromCode(t.kind).None? ==>
              FinalEntries(Decided(t), now)[0]
              == Entry(ERROR, Text(LoggingFailed + TransactionTypes.MissMessage(t.kind)))
  {
  }

  /** What one run of the pipeline appends: on approval a single INFO entry
      whose record reads "Approved"; on a decline the cause line and then the
      finalisation entry, whose record, if formatted, reads "Declined". */
  lemma ProcessLogShape(t: TransactionValue, now: string)
    ensures |ProcessEntries(t, now)| == if Evaluate(t) == Approve then 1 else 2
    ensures Evaluate(t) == Approve ==>
              var e := ProcessEntries(t, now)[0];
              && e.level == INFO && e.message.Audit?
              && e.message.record.statusLabel == "Approved"
              && e.message.record.details.data.transaction.status == "01"
    ensures Evaluate(t).Decline? ==>
              var es := ProcessEntries(t, now);
              && es[0] == Entry(ERROR, Text(CauseMessage(Evaluate(t).failed, Decided(t))))
              && (es[1].message.Audit? ==>
                    es[1].message.record.statusLabel == "Declined"
                    && es[1].message.record.details.data.transaction.status == "02")
  {
  }

  /** The valid transaction of the payment unit tests. */
  const ValidExample: TransactionValue :=
    TransactionValue(Some("1000000000000000"), Some("APP"), 1000, Some("978"), Some("00"))

  /** The approved payment unit test and the amount-limit boundaries. */
  lemma PaymentApprovedCases()
    ensures Evaluate(ValidExample) == Approve
    ensures Evaluate(ValidExample.(amount := 5000)) == Approve
    ensures Evaluate(ValidExample.(amount := 5001)) == Decline(AmountCheck)
    ensures Evaluate(ValidExample.(amount := -1)) == Approve
  {
    PanValidator.TestCases();
    TransactionTypes.FromCodeExamples();
    CurrencyCodes.FromNumericCodeResolves(Some("978"));
  }

  /** The declining payment unit tests: each one breaks a single check. */
  lemma PaymentDeclineCases()
    ensures Evaluate(ValidExample.(status := Some("01"))) == Decline(StatusCheck)
    ensures Evaluate(ValidExample.(kind := Some("INVALID_TYPE"))) == Decline(TypeCheck)
    ensures Evaluate(ValidExample.(currency := Some("999"))) == Decline(CurrencyCheck)
  {
    PanValidator.TestCases();
    TransactionTypes.FromCodeExamples();
    CurrencyCodes.FromNumericCodeExamples();
  }

  /** The invalid-PAN payment unit test: all nines lies above the APP range. */
  lemma PaymentInvalidPanCase()
    ensures Evaluate(ValidExample.(pan := Some("9999999999999999"))) == Decline(PanCheck)
  {
    PanValidator.TestCases();
    TransactionTypes.FromCodeExamples();
    CurrencyCodes.FromNumericCodeResolves(Some("978"));
  }

  /** The approved unit test run through the imperative pipeline. */
  method ApprovedScenario(now: string) returns (status: Option<string>, entries: seq<Entry>)
    ensures status == Some("01")
    ensures |entries| == 1 && entries[0].level == INFO
  {
    var t := new Transaction(Some("1000000000000000"), Some("APP"), 1000, Some("978"), Some("00"));
    var log := new AuditLog();
    var r := Process(t, log, now);
    PaymentApprovedCases();
    ProcessLogShape(ValidExample, now);
    status := r.status;
    entries := log.entries;
  }

  /** The already-approved unit test: declined at once, the cause line first. */
  method InactiveScenario(now: string) returns (status: Option<string>, entries: seq<Entry>)
    ensures status == Some("02")
    ensures |entries| == 2
    ensures entries[0] == Entry(ERROR, Text("Transaction status is not active: 02"))
    ensures entries[1].level == INFO && entries[1].message.Audit?
    ensures entries[1].message.record.statusLabel == "Declined"
  {
    var v := TransactionValue(Some("1000000000000000"), Some("APP"), 1000, Some("978"), Some("01"));
    var t := new Transaction(v.pan, v.kind, v.amount, v.currency, v.status);
    var log := new AuditLog();
    var r := Process(t, log, now);
    InactiveDeclinesFirst(v);
    ProcessLogShape(v, now);
    TransactionTypes.FromCodeExamples();
    CurrencyCodes.FromNumericCodeResolves(Some("978"));
    FinalisationWritesOneEntry(v, now);
    status := r.status;
    entries := log.entries;
  }
}
