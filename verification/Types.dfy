/** Small value types shared by every component of the model. */
module Types {

  datatype Option<+T> = None | Some(value: T)

  /** A C floating-point argument: either a finite number, modelled exactly, or an infinity or NaN. */
  datatype Float = Finite(value: real) | NotFinite

  /** One stereo frame. The ring stores it as a single 64-bit word. */
  datatype Stereo = Stereo(left: real, right: real)

  const SILENCE := Stereo(0.0, 0.0)

  const UINT32_RANGE: nat := 0x1_0000_0000

  type UInt32 = x: nat | x < UINT32_RANGE

  function Ceil(x: real): (c: int)
    ensures (c - 1) as real < x <= c as real
  {
    -((-x).Floor)
  }

  function Max(a: int, b: int): int {
    if a < b then b else a
  }

  function Min(a: int, b: int): int {
    if a < b then a else b
  }

  function Abs(x: real): real {
    if x < 0.0 then -x else x
  }
}
