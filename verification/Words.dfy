/** 64-bit machine integers: signed arithmetic and conversion wrap around. */
module Words {

  const TWO_63: int := 0x8000_0000_0000_0000
  const TWO_64: int := 0x1_0000_0000_0000_0000

  predicate Int64(x: int) {
    -TWO_63 <= x < TWO_63
  }

  /** int64 arithmetic wraps around. */
  function Wrap64(x: int): (r: int)
    ensures Int64(r)
    ensures Int64(x) ==> r == x
  {
    (x + TWO_63) % TWO_64 - TWO_63
  }

  /** Adding and then subtracting is the identity, overflow or not. */
  lemma WrapUndo(x: int, a: int)
    requires Int64(x)
    ensures Wrap64(Wrap64(x + a) - a) == x
    ensures Wrap64(Wrap64(x - a) + a) == x
  {
    WrapShift(x + a, -a);
    WrapShift(x - a, a);
  }

  lemma WrapShift(x: int, d: int)
    ensures Wrap64(Wrap64(x) + d) == Wrap64(x + d)
  {
    ModShift(x + TWO_63, d);
  }

  lemma ModShift(y: int, d: int)
    ensures (y % TWO_64 + d) % TWO_64 == (y + d) % TWO_64
  {
    var q := y / TWO_64;
    assert y == q * TWO_64 + y % TWO_64;
    ModMultiple(y % TWO_64 + d, q);
  }

  lemma {:induction false} ModMultiple(z: int, q: int)
    ensures (z + q * TWO_64) % TWO_64 == z % TWO_64
  {
    var k := z / TWO_64;
    assert z + q * TWO_64 == (k + q) * TWO_64 + z % TWO_64;
  }

  /** How often a number has gone round. */
  function Laps(x: int): int {
    (x + TWO_63) / TWO_64
  }

  lemma WrapAndLaps(x: int)
    ensures Wrap64(x) == x - Laps(x) * TWO_64
  {
  }
}
