/** What several components share: 64-bit range, counter differences, and the grace of stale entries. */
module Common {

  const UINT64 := 0x1_0000_0000_0000_0000

  /** Windows an entry of a vanished process is kept for. */
  const STALE_WINDOWS_BEFORE_DELETE: nat := 3

  /** The increase of a counter that starts again from 0 when its entry is recreated. */
  function CounterDelta(cur: nat, prev: nat): nat {
    if cur >= prev then cur - prev else cur
  }

  /** The increase of a counter, 0 when it went back. */
  function Saturating(cur: nat, prev: nat): nat {
    if cur >= prev then cur - prev else 0
  }

  function Max(a: int, b: int): int {
    if a >= b then a else b
  }

  function Min(a: int, b: int): int {
    if a <= b then a else b
  }
}
