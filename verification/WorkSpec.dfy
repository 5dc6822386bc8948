/**
 Chain work and difficulty targets as 256-bit numbers: what the byte and limb loops compute.
 */
module WorkSpec {
  const U256_MAX: nat := 0xFFFF_FFFF_FFFF_FFFF_FFFF_FFFF_FFFF_FFFF_FFFF_FFFF_FFFF_FFFF_FFFF_FFFF_FFFF_FFFF
  const RETARGET_WINDOW: nat := 4320
  const EXPECTED_TIME: nat := 43_190
  const MAX_RETARGET_FACTOR: nat := 4

  type U256 = n: nat | n <= U256_MAX

  function Saturate(n: nat): U256 {
    if n > U256_MAX then U256_MAX else n
  }

  /** The number of hashes expected for one below the target. */
  function WorkFromTarget(target: U256): U256 {
    if target == 0 then U256_MAX else Saturate((U256_MAX + 1) / target)
  }

  function AddWork(a: U256, b: U256): U256 {
    Saturate(a + b)
  }

  function Clamp(n: nat, lo: nat, hi: nat): nat {
    if n < lo then lo else if n > hi then hi else n
  }

  /** The target after a window that took `actual` seconds: scaled, within a factor of four, never zero. */
  function Retarget(target: U256, actual: nat): U256 {
    var time := Clamp(if actual == 0 then 1 else actual, EXPECTED_TIME / MAX_RETARGET_FACTOR, EXPECTED_TIME * MAX_RETARGET_FACTOR);
    var scaled := Saturate(target * time / EXPECTED_TIME);
    if scaled == 0 then 1 else scaled
  }
}
