/** 64-bit unsigned arithmetic. */
module MachineWords {
  /** One past the largest 64-bit unsigned value. */
  const RANGE: nat := 0x1_0000_0000_0000_0000

  function Wrap(x: int): (r: nat)
    ensures r < RANGE
  {
    x % RANGE
  }

  lemma WrapSmall(x: nat)
    requires x < RANGE
    ensures Wrap(x) == x
  {
  }
}
