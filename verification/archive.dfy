/**
 * The tar header fields both listers read, and the file mode Go derives from
 * them. Decoding an archive is not part of this model: a listing starts from
 * the sequence of headers, in archive order.
 */
module Archive {
  import opened Basics
  import opened Bits

  /**
   * What the listers ask of the system and of their libraries, which the
   * model does not look inside: the user and group databases, the formatting
   * of a modification time, and Python's `bytes.decode('utf-8')`.
   */
  datatype Env = Env(
    users: int -> Option<string>,
    groups: int -> Option<string>,
    formatTime: int -> string,
    decode: seq<Basics.byte> -> string)

  /**
   * One tar member. `mode` is the raw mode field (Python's `member.mode`,
   * Go's `header.Mode`); `isDir` is whether Go's `FileInfo().Mode()` reports a
   * directory; `mtime` is in seconds since the epoch.
   */
  datatype Header = Header(
    mode: int,
    isDir: bool,
    uid: int,
    gid: int,
    size: int,
    mtime: int,
    name: string)

  /**
   * The part of `header.FileInfo().Mode()` that `modeToStr` reads: the nine
   * permission bits of the mode field, plus `ModeDir` for a directory. The
   * set-id, sticky and other type bits it also carries lie outside every mask
   * `modeToStr` tests, so they are left at zero.
   */
  function GoFileMode(h: Header): (m: FileMode)
    ensures IsSet(m as int, ModeDir) <==> h.isDir
    ensures PermBits(m as int) == PermBits(h.mode)
  {
    var r := h.mode % 0x200;
    GoFileModeDir(r, h.isDir);
    PermBitsModulo(h.mode, if h.isDir then 0x40_0000 else 0);
    ((h.mode % 0x200) + (if h.isDir then ModeDir else 0)) as FileMode
  }

  /**
   * Reducing modulo 0o1000 and adding whole multiples of 0o1000 leaves alone
   * every bit `mask` below 0o1000 (`mask * 2 * h == 0x200`).
   */
  lemma MaskModulo(a: int, q: int, mask: nat, h: nat)
    requires mask > 0 && mask * 2 * h == 0x200
    ensures IsSet(a % 0x200 + 0x200 * q, mask) == IsSet(a, mask)
  {
    var p := a / 0x200;
    var r := a % 0x200;
    assert a == 0x200 * p + r;
    Regroup(mask, h, q);
    Regroup(mask, h, p);
    EvenShift(r, mask, h * q);
    EvenShift(r, mask, h * p);
  }

  lemma Regroup(d: int, h: int, q: int)
    ensures (d * 2 * h) * q == 2 * d * (h * q)
  {
  }

  /** Adding an even multiple of `d` leaves bit `d` alone. */
  lemma EvenShift(x: int, d: nat, k: int)
    requires d > 0
    ensures IsSet(x + 2 * d * k, d) == IsSet(x, d)
  {
    var c := x / d;
    assert x == d * c + x % d;
    assert 2 * d * k == d * (2 * k);
    DivUnique(x + 2 * d * k, d, c + 2 * k, x % d);
    Parity(c, k);
  }

  /** Division by a positive divisor has one quotient. */
  lemma DivUnique(y: int, d: int, a: int, b: int)
    requires d > 0 && y == d * a + b && 0 <= b < d
    ensures y / d == a
  {
    var a', b' := y / d, y % d;
    assert y == d * a' + b';
    var k := a' - a;
    assert d * a' == d * a + d * k;
    assert b == d * k + b';
  }

  lemma Parity(x: int, k: int)
    ensures (x + 2 * k) % 2 == x % 2
  {
    assert x == 2 * (x / 2) + x % 2;
    assert x + 2 * k == 2 * (x / 2 + k) + x % 2;
  }

  /** Go's mode carries the header's permission bits unchanged and the directory flag in `ModeDir`. */
  lemma GoFileModeBits(h: Header)
    ensures IsSet(GoFileMode(h) as int, ModeDir) <==> h.isDir
    ensures forall i :: 0 <= i < 9 ==> PermBit(GoFileMode(h) as int, i) == PermBit(h.mode, i)
  {
    var m := GoFileMode(h) as int;
    var r := h.mode % 0x200;
    var q := if h.isDir then 0x40_0000 else 0;
    assert m == r + (if h.isDir then ModeDir else 0) == r + 0x200 * q;
    GoFileModeDir(r, h.isDir);
    PermBitsModulo(h.mode, q);
    assert PermBits(m) == PermBits(h.mode);
  }

  lemma GoFileModeDir(r: int, isDir: bool)
    requires 0 <= r < 0x200
    ensures IsSet(r + (if isDir then ModeDir else 0), ModeDir) <==> isDir
  {
    if isDir {
      DivUnique(r + ModeDir, ModeDir, 1, r);
    } else {
      DivUnique(r, ModeDir, 0, r);
    }
  }

  lemma PermBitsModulo(a: int, q: int)
    ensures PermBits(a % 0x200 + 0x200 * q) == PermBits(a)
  {
    MaskModulo(a, q, 0x100, 1);
    MaskModulo(a, q, 0x80, 2);
    MaskModulo(a, q, 0x40, 4);
    MaskModulo(a, q, 0x20, 8);
    MaskModulo(a, q, 0x10, 16);
    MaskModulo(a, q, 0x8, 32);
    MaskModulo(a, q, 0x4, 64);
    MaskModulo(a, q, 0x2, 128);
    MaskModulo(a, q, 0x1, 256);
  }
}
