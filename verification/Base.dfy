/** Shared vocabulary of the model. */
module Base {

  datatype Option<+T> = None | Some(value: T)

  /** Two to the 64th: data registers and memory words hold values below it. */
  const TWO64: int := 0x1_0000_0000_0000_0000

  /** Wrap-around of 64-bit arithmetic. */
  function Wrap(x: int): (r: int)
    ensures 0 <= r < TWO64
  {
    x % TWO64
  }
}
