/** Shared vocabulary: optional values, results of operations that can
    throw in the original program, and bytes. */
module Common {

  /** A value that may be absent; stands for a nullable reference. */
  datatype Option<+T> = None | Some(value: T)

  /** The exceptions the modelled code can raise, by the .NET name they
      carry in the original. */
  datatype Error =
    | EndOfStream            // BinaryReader read past the end of the data
    | IndexOutOfRange        // array indexed outside its bounds
    | ArgumentOutOfRange     // String.Substring past the end of the string
    | InvalidCast            // a widget slot holds a widget of another type
    | NullReference          // a member accessed through a null reference
    | KeyNotFound            // Dictionary indexer read of an absent key
    | DivideByZero           // integer division by zero

  /** The outcome of an operation that either returns a value or throws. */
  datatype Result<+T> = Ok(value: T) | Err(error: Error)
  {
    predicate IsFailure()
    {
      Err?
    }

    function PropagateFailure<U>(): Result<U>
      requires Err?
    {
      Err(error)
    }

    function Extract(): T
      requires Ok?
    {
      value
    }
  }

  /** An unsigned 8-bit value, as stored in a .NET byte[]. */
  type byte = x: int | 0 <= x < 256

  /** An unsigned 16-bit value (.NET ushort). */
  type u16 = x: int | 0 <= x < 0x1_0000

  function Min(a: int, b: int): (r: int)
    ensures r <= a && r <= b
    ensures r == a || r == b
  {
    if a < b then a else b
  }

  function Max(a: int, b: int): (r: int)
    ensures r >= a && r >= b
    ensures r == a || r == b
  {
    if a > b then a else b
  }
}
