/** A crypto-wallet transaction: a mutable object whose ID, fee and type are
    overwritten by its creators after construction (Transaction.py). */
module Transactions {
  import opened Wrappers

  /** The six fields of a transaction, as a value: what `CryptoWallet.to_dict`
      writes for one transaction and what the loader reads back. */
  datatype TxRecord = TxRecord(
    transactionID: Option<string>,
    sender: string,
    recipient: string,
    amount: real,
    fee: real,
    transactionType: Option<string>)

  /** The fee a new transaction is charged before anyone overwrites it: 1% of the amount. */
  const DefaultFeeRate: real := 0.01

  class Transaction {
    var transactionID: Option<string>
    var sender: string
    var recipient: string
    var amount: real
    var fee: real
    var transactionType: Option<string>

    /** `Transaction(sender, recipient, amount)`: the three arguments are stored as
        given, the fee defaults to 1% of the amount, ID and type start as None. */
    constructor (sender: string, recipient: string, amount: real)
      ensures this.sender == sender && this.recipient == recipient && this.amount == amount
      ensures fee == DefaultFeeRate * amount
      ensures transactionID == None && transactionType == None
    {
      this.transactionID := None;
      this.sender := sender;
      this.recipient := recipient;
      this.amount := amount;
      this.fee := DefaultFeeRate * amount;
      this.transactionType := None;
    }

    /** The current field values of this object. */
    function Record(): TxRecord
      reads this
    {
      TxRecord(transactionID, sender, recipient, amount, fee, transactionType)
    }
  }

  /** The field values of a list of transaction objects, position by position. */
  function Records(ts: seq<Transaction>): (r: seq<TxRecord>)
    reads ts
    ensures |r| == |ts|
    ensures forall k :: 0 <= k < |ts| ==> r[k] == ts[k].Record()
  {
    seq(|ts|, k requires 0 <= k < |ts| reads ts => ts[k].Record())
  }
}
