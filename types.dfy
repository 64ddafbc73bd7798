/** The values the dashboard page works on: the transaction records one search page
    returns, the normalised transactions built from them, and the reasons a pass aborts. */
module Types {

  datatype Option<+T> = None | Some(value: T)

  datatype Result<+R, +E> = Ok(value: R) | Err(error: E)

  /** Why a fetch-and-aggregate pass ends without updating anything. Every case but
      `EpochNotNumeric` is a throw in the page; `EpochNotNumeric` is this model's failure for
      an adjustment the page would read as NaN and carry on with. */
  datatype Failure =
    | MissingEpochAdjustment   // the network properties carry no (or an empty) epochAdjustment
    | EpochNotNumeric          // the epochAdjustment without its unit is not a digit string
    | MissingTransactionInfo   // a record has no transactionInfo
    | MissingHash              // transactionInfo.hash is absent or the empty string
    | MissingTimestamp         // transactionInfo.timestamp is absent

  /** The confirmation metadata of a record; `timestamp` is the compact value of the
      network-relative UInt64 timestamp, in milliseconds. */
  datatype TransactionInfo = TransactionInfo(hash: Option<string>, timestamp: Option<nat>)

  /** What kind of transaction a record is: a transfer carries a message payload. */
  datatype Body = Transfer(payload: string) | NonTransfer

  /** One record of a transaction search page. */
  datatype Record = Record(info: Option<TransactionInfo>, body: Body)

  /** A matching transfer: its hash and its absolute instant in milliseconds. */
  datatype Transaction = Transaction(hash: string, timestamp: int)

  /** An hour of the day, 0 to 23. */
  type Hour = h: nat | h < 24

  /** The local calendar day ("YYYY-MM-DD") and hour of an instant. */
  datatype LocalTime = LocalTime(day: string, hour: Hour)

  /** The date library's view of an instant in local time; the time zone is not modelled. */
  type Clock = int -> LocalTime

  /** The message payload that marks a smoked cigarette. */
  const Marker: string := "cigarette:smoked"
}
