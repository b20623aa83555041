/** Values shared by every component (model/model.go): job states, events, and
    Go's saturating time subtraction. */
module Model {

  /** State is a uint8 with five named values; only their order is ever used. */
  type State = s: int | 0 <= s <= 4

  const UNKNOWN: State := 0
  const SUBMITTED: State := 1
  const PROVING: State := 2
  const VERIFYING: State := 3
  const COMPLETE: State := 4

  /** A point in time, in nanoseconds from Go's zero time. */
  type Time = int

  datatype Event = Event(state: State, txID: string, proverID: string, tag: string, timestamp: Time)

  datatype TxLogEvent = TxLogEvent(state: State, idType: string, id: string, timestamp: Time)

  datatype TxInfo = TxInfo(state: State, duration: int, txID: string, userID: string, proverID: string,
                           log: seq<TxLogEvent>)

  const MAX_INT64 := 0x7FFF_FFFF_FFFF_FFFF
  const MIN_INT64 := -0x8000_0000_0000_0000

  /** time.Time.Sub: the difference, saturated to the int64 range of a Duration. */
  function Sub(t: Time, u: Time): int {
    if t - u > MAX_INT64 then MAX_INT64
    else if t - u < MIN_INT64 then MIN_INT64
    else t - u
  }

  datatype Option<+T> = None | Some(value: T)

  datatype Result<+T> = Ok(value: T) | Err
}
