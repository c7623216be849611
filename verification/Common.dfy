/** Types shared by every service: results, 64-bit integers and money. */
module Common {

  datatype Option<+T> = None | Some(value: T)

  datatype Error =
    | AccountIdRequired
    | CustomerIdRequired
    | IdempotencyKeyRequired
    | CurrencyNotNGN
    | InvalidAmount
    | InsufficientFunds
    | AccountNotActive
    | ClosedAccount
    | UnknownEventType
    | MalformedData
    | Database        // any failed call to the database, or a unique index refusing a row

  datatype Result<+T> = Ok(value: T) | Err(error: Error)

  const INT64_MIN: int := -0x8000_0000_0000_0000
  const INT64_MAX: int := 0x7fff_ffff_ffff_ffff

  type int64 = x: int | INT64_MIN <= x <= INT64_MAX

  predicate IsInt64(x: int) {
    INT64_MIN <= x <= INT64_MAX
  }

  /** Go's wrap-around when a sum leaves the 64-bit range; `x` is the sum of two 64-bit values. */
  function Wrap64(x: int): (r: int64)
    requires 2 * INT64_MIN <= x <= 2 * INT64_MAX
    ensures IsInt64(x) ==> r == x
    ensures !IsInt64(x) ==> (r < 0 <==> x > 0)
  {
    if x > INT64_MAX then x - 0x1_0000_0000_0000_0000
    else if x < INT64_MIN then x + 0x1_0000_0000_0000_0000
    else x
  }

  datatype Money = Money(amountKobo: int64, currency: string)

  const NGN := "NGN"

  /** The value an event's amount has after its JSON is read back: `Money` exports no field. */
  const ZERO_MONEY := Money(0, "")

  /** The guard that every money command repeats. */
  function ValidateNgnPositive(m: Money): Option<Error> {
    if m.currency != NGN then Some(CurrencyNotNGN)
    else if m.amountKobo <= 0 then Some(InvalidAmount)
    else None
  }

  datatype EntryType = Deposit | Withdrawal

  /** How the database treats one transaction. */
  datatype Fault =
    | NoFault
    | FailCall(call: nat)   // the call with this number fails, and the transaction rolls back
    | LostCommit            // the commit takes effect but its caller is told that it failed
}
