/** The closed table of transaction types: each has a two-digit numeric code
    and the largest amount, in minor currency units, it may carry. */
module TransactionTypes {
  import opened Wrappers
  import Enums
  import JavaStrings

  datatype TransactionType = APP | BRW | TRI {

    /** The constant's Java `name()`: the key `fromCode` searches on. */
    function Name(): string {
      match this
      case APP => "APP"
      case BRW => "BRW"
      case TRI => "TRI"
    }

    function Code(): string {
      match this
      case APP => "01"
      case BRW => "02"
      case TRI => "03"
    }

    function MaxAmount(): int {
      match this
      case APP => 5000
      case BRW => 10000
      case TRI => 2000
    }
  }

  /** `values()`, in declaration order. */
  const Values: seq<TransactionType> := [APP, BRW, TRI]

  /** The lookup by constant name; a name that is not in the table, or null,
      is the IllegalArgumentException path and yields None. */
  function FromCode(code: Option<string>): (r: Option<TransactionType>)
    ensures forall t: TransactionType :: r == Some(t) <==> code == Some(t.Name())
  {
    var r := Enums.FirstMatch(Values, (t: TransactionType) => t.Name(), code);
    assert forall t: TransactionType :: r == Some(t) <==> code == Some(t.Name()) by {
      forall t: TransactionType ensures r == Some(t) <==> code == Some(t.Name()) {
        var i := match t case APP => 0 case BRW => 1 case TRI => 2;
        assert Values[i] == t;
      }
    }
    r
  }

  /** The message of the exception `fromCode` throws on a miss. */
  const MissPrefix: string := "Invalid transaction type code: "

  function MissMessage(code: Option<string>): (r: string)
    ensures |MissPrefix| <= |r| && r[..|MissPrefix|] == MissPrefix
    ensures r[|MissPrefix|..] == JavaStrings.Show(code)
  {
    var r := MissPrefix + JavaStrings.Show(code);
    assert r[..|MissPrefix|] == MissPrefix && r[|MissPrefix|..] == JavaStrings.Show(code);
    r
  }

  lemma NamesAndCodesDistinct(a: TransactionType, b: TransactionType)
    requires a != b
    ensures a.Name() != b.Name() && a.Code() != b.Code()
  {
  }

  lemma FromCodeRoundTrip(t: TransactionType)
    ensures FromCode(Some(t.Name())) == Some(t)
  {
  }

  /** The lookup is by name: the numeric code and the "3RI" spelling of the
      documentation do not resolve. */
  lemma FromCodeExamples()
    ensures FromCode(Some("TRI")) == Some(TRI)
    ensures FromCode(Some("APP")) == Some(APP)
    ensures FromCode(Some("01")) == None
    ensures FromCode(Some("3RI")) == None
    ensures FromCode(Some("UNKNOWN")) == None
    ensures FromCode(None) == None
  {
  }
}
