/** The closed table of supported currencies: an ISO 4217 numeric code and
    the lower-case symbol shown in the audit line. */
module CurrencyCodes {
  import opened Wrappers
  import Enums
  import JavaStrings

  datatype CurrencyCode = EUR | USD {

    function NumericCode(): string {
      match this
      case EUR => "978"
      case USD => "840"
    }

    function AlphaCode(): string {
      match this
      case EUR => "eur"
      case USD => "usd"
    }
  }

  /** `values()`, in declaration order. */
  const Values: seq<CurrencyCode> := [EUR, USD]

  /** The lookup by numeric code; any other string, or null, is the
      IllegalArgumentException path and yields None. */
  function FromNumericCode(code: Option<string>): (r: Option<CurrencyCode>)
    ensures forall c: CurrencyCode :: r == Some(c) <==> code == Some(c.NumericCode())
  {
    var r := Enums.FirstMatch(Values, (c: CurrencyCode) => c.NumericCode(), code);
    assert forall c: CurrencyCode :: r == Some(c) <==> code == Some(c.NumericCode()) by {
      forall c: CurrencyCode ensures r == Some(c) <==> code == Some(c.NumericCode()) {
        var i := match c case EUR => 0 case USD => 1;
        assert Values[i] == c;
      }
    }
    r
  }

  /** The message of the exception `fromNumericCode` throws on a miss. */
  const MissPrefix: string := "Invalid currency code: "

  function MissMessage(code: Option<string>): (r: string)
    ensures |MissPrefix| <= |r| && r[..|MissPrefix|] == MissPrefix
    ensures r[|MissPrefix|..] == JavaStrings.Show(code)
  {
    var r := MissPrefix + JavaStrings.Show(code);
    assert r[..|MissPrefix|] == MissPrefix && r[|MissPrefix|..] == JavaStrings.Show(code);
    r
  }

  lemma NumericCodesDistinct(a: CurrencyCode, b: CurrencyCode)
    requires a != b
    ensures a.NumericCode() != b.NumericCode() && a.AlphaCode() != b.AlphaCode()
  {
  }

  lemma FromNumericCodeRoundTrip(c: CurrencyCode)
    ensures FromNumericCode(Some(c.NumericCode())) == Some(c)
  {
  }

  /** Exactly "978" and "840" resolve; the alpha code of each is its
      lower-case symbol. */
  lemma FromNumericCodeResolves(code: Option<string>)
    ensures FromNumericCode(code).Some? <==> code == Some("978") || code == Some("840")
    ensures code == Some("978") ==> FromNumericCode(code) == Some(EUR) && EUR.AlphaCode() == "eur"
    ensures code == Some("840") ==> FromNumericCode(code) == Some(USD) && USD.AlphaCode() == "usd"
  {
  }

  lemma FromNumericCodeExamples()
    ensures FromNumericCode(Some("999")) == None
    ensures FromNumericCode(Some("EUR")) == None
    ensures FromNumericCode(None) == None
  {
  }
}
