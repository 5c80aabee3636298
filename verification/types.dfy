/**
  Shared vocabulary of the simulator model: optional values, the errors the
  simulator raises, log cells and the (period, t) stamp every event log row
  carries.
 */
module SimTypes {

  datatype Option<+T> = None | Some(value: T)

  /** The fatal conditions the simulator raises (each is a thrown Error in the source). */
  datatype Error =
    | SingleUnitTradeRequired    // a trade that is not one unit between one buyer and one seller
    | UndefinedTradePrice        // a trade whose first price is missing or zero
    | CannotDetermineCounts      // numberOfBuyers or numberOfSellers is falsy
    | NotAnArray                 // `.length` read from a missing values/costs array
    | UnknownAgentType           // a rotation of agent types with no entries
    | UpdateNotAFunction         // run() given an update hook that is not callable
  {
    /** Thrown by the trade checks of `logTrade`. */
    predicate IsTradeRefusal() {
      this == SingleUnitTradeRequired || this == UndefinedTradePrice
    }
  }

  datatype Result<+T> = Ok(value: T) | Err(error: Error) {
    predicate IsFailure() {
      Err?
    }

    function PropagateFailure<U>(): Result<U>
      requires Err?
    {
      Err(error)
    }

    function Extract(): T
      requires Ok?
    {
      value
    }
  }

  /** One cell of a logged row: a number, a string, or the blank '' default. */
  datatype Cell = Num(x: real) | Text(s: string) | Blank

  type Row = seq<Cell>

  /** The two columns of an event-log row that the period clocks read. */
  datatype Stamp = Stamp(period: int, t: int)

  /** JavaScript truthiness of an optional number: undefined and 0 are falsy. */
  predicate Truthy(x: Option<int>) {
    x.Some? && x.value != 0
  }

  function Max(a: int, b: int): int {
    if a < b then b else a
  }

  function Last<T>(s: seq<T>): Option<T> {
    if |s| == 0 then None else Some(s[|s| - 1])
  }

  function Sum(s: seq<int>): int {
    if |s| == 0 then 0 else Sum(s[..|s| - 1]) + s[|s| - 1]
  }

  function IntCell(i: int): Cell {
    Num(i as real)
  }
}
