/** Products of reals, one fact at a time. */
module Products {
  import opened Types

  lemma {:induction false} NonNegative(x: real, y: real)
    requires 0.0 <= x && 0.0 <= y
    ensures 0.0 <= x * y
  {
  }

  lemma {:induction false} Scaled(x: real, y: real, z: real)
    requires x <= y && 0.0 <= z
    ensures x * z <= y * z
  {
  }

  lemma {:induction false} ScaledLess(x: real, y: real, z: real)
    requires x < y && 0.0 < z
    ensures x * z < y * z
  {
  }

  lemma {:induction false} Unscaled(x: real, y: real, z: real)
    requires 0.0 < z && x * z <= y * z
    ensures x <= y
  {
  }

  lemma {:induction false} ZeroProduct(x: real, y: real)
    requires 0.0 < y && x * y == 0.0
    ensures x == 0.0
  {
  }

  lemma {:induction false} Negate(x: real, y: real)
    ensures x * (-y) == -(x * y)
  {
  }

  lemma {:induction false} Difference(x: real, y: real, z: real)
    ensures (x - y) * z == x * z - y * z
  {
  }

  lemma {:induction false} OneMore(x: real, z: real)
    ensures (x + 1.0) * z == x * z + z
  {
  }

  lemma {:induction false} AbsOfProduct(x: real, y: real)
    requires 0.0 <= y
    ensures Abs(x * y) == Abs(x) * y
  {
  }
}
