/** A financial transaction: four fields fixed at construction and a status
    that the payment pipeline overwrites in place. Nothing is validated when
    the object is built. */
module Transactions {
  import opened Wrappers

  /** Java's `int`. */
  type Int32 = x: int | -0x8000_0000 <= x < 0x8000_0000

  /** The value of all five fields at one moment. String fields may be null. */
  datatype TransactionValue = TransactionValue(
    pan: Option<string>,
    kind: Option<string>,
    amount: Int32,
    currency: Option<string>,
    status: Option<string>)

  class Transaction {
    const pan: Option<string>
    /** The Java field `type`: the name of a transaction type, such as "APP". */
    const kind: Option<string>
    /** Minor currency units (1.00 EUR is 100). */
    const amount: Int32
    const currency: Option<string>
    var status: Option<string>

    constructor(pan: Option<string>, kind: Option<string>, amount: Int32,
                currency: Option<string>, status: Option<string>)
      ensures Value() == TransactionValue(pan, kind, amount, currency, status)
    {
      this.pan := pan;
      this.kind := kind;
      this.amount := amount;
      this.currency := currency;
      this.status := status;
    }

    function Value(): TransactionValue
      reads this
    {
      TransactionValue(pan, kind, amount, currency, status)
    }

    method SetStatus(status: Option<string>)
      modifies this`status
      ensures Value() == old(Value()).(status := status)
    {
      this.status := status;
    }
  }
}
