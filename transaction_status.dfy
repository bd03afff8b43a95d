/** The closed table of transaction statuses and their two-digit codes. */
module TransactionStatuses {
  import opened Wrappers
  import Enums

  datatype TransactionStatus = ACTIVE | APPROVED | DECLINED {

    function Code(): string {
      match this
      case ACTIVE => "00"
      case APPROVED => "01"
      case DECLINED => "02"
    }
  }

  /** `values()`, in declaration order. */
  const Values: seq<TransactionStatus> := [ACTIVE, APPROVED, DECLINED]

  /** The lookup by code; any other code, or null, is the
      IllegalArgumentException path and yields None. */
  function FromCode(code: Option<string>): (r: Option<TransactionStatus>)
    ensures forall s: TransactionStatus :: r == Some(s) <==> code == Some(s.Code())
  {
    var r := Enums.FirstMatch(Values, (s: TransactionStatus) => s.Code(), code);
    assert forall s: TransactionStatus :: r == Some(s) <==> code == Some(s.Code()) by {
      forall s: TransactionStatus ensures r == Some(s) <==> code == Some(s.Code()) {
        var i := match s case ACTIVE => 0 case APPROVED => 1 case DECLINED => 2;
        assert Values[i] == s;
      }
    }
    r
  }

  lemma CodesDistinct(a: TransactionStatus, b: TransactionStatus)
    requires a != b
    ensures a.Code() != b.Code()
  {
  }

  lemma FromCodeRoundTrip(s: TransactionStatus)
    ensures FromCode(Some(s.Code())) == Some(s)
  {
  }

  /** Exactly the three codes resolve. */
  lemma FromCodeResolves(code: Option<string>)
    ensures FromCode(code).Some? <==> code == Some("00") || code == Some("01") || code == Some("02")
  {
  }
}
