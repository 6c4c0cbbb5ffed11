/**
 * Single-bit tests on integers. For a power-of-two `mask`, `IsSet(m, mask)`
 * is Go's `m&mask != 0` and Python's `m & mask == mask`; Dafny's division by
 * a positive divisor rounds down, so the test also reads negative Python
 * integers the way their two's-complement `&` does.
 */
module Bits {

  predicate IsSet(m: int, mask: nat)
    requires mask > 0
  {
    (m / mask) % 2 == 1
  }

  /** Go's `os.FileMode`, a 32-bit unsigned word. */
  newtype FileMode = x: int | 0 <= x < 0x1_0000_0000

  /** `os.ModeDir`, the top bit of a FileMode. */
  const ModeDir: nat := 0x8000_0000

  /** The POSIX directory type bits `0o040000` (`S_IFDIR`) as Python's code tests them. */
  const PosixDir: nat := 0x4000

  /**
   * The nine permission bits in `ls -l` order: owner r, w, x (0o400, 0o200,
   * 0o100), group r, w, x (0o040, 0o020, 0o010), other r, w, x (0o004, 0o002, 0o001).
   */
  function PermBits(m: int): (b: seq<bool>)
    ensures |b| == 9
  {
    [IsSet(m, 0x100), IsSet(m, 0x80), IsSet(m, 0x40),
     IsSet(m, 0x20), IsSet(m, 0x10), IsSet(m, 0x8),
     IsSet(m, 0x4), IsSet(m, 0x2), IsSet(m, 0x1)]
  }

  /** The nine permission letters in `ls -l` order. */
  const PermLetters: string := "rwxrwxrwx"

  /** Permission bit `i` of `m` (0 = owner r … 8 = other x). */
  predicate PermBit(m: int, i: nat)
    requires i < 9
  {
    PermBits(m)[i]
  }
}
