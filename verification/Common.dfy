/** Types and constants that the kernel extension and the daemon share. */
module Common {

  /** One octet of a buffer. */
  type Byte = b: int | 0 <= b < 0x100

  /** A `uint32_t`. */
  type U32 = n: int | 0 <= n < 0x1_0000_0000

  /** A `uint64_t`. */
  type U64 = n: int | 0 <= n < 0x1_0000_0000_0000_0000

  const TWO32: int := 0x1_0000_0000
  const TWO64: int := 0x1_0000_0000_0000_0000

  /** PROCFS_CTL_MAXPAYLOAD: the most payload bytes one reply carries. */
  const MAX_PAYLOAD: nat := 2048

  // The macOS errno values that the modelled code names.
  const ENOENT: int := 2
  const EIO: int := 5
  const ENOMEM: int := 12
  const EBUSY: int := 16
  const EINVAL: int := 22
  const ENOTSUP: int := 45
  const ENOTCONN: int := 57
  const ETIMEDOUT: int := 60

  datatype Option<+T> = None | Some(value: T)

  function Min(a: int, b: int): int {
    if a < b then a else b
  }

  /** The first `n` elements of `s`, or all of them when there are fewer. */
  function Clip<T>(s: seq<T>, n: nat): seq<T> {
    if |s| <= n then s else s[..n]
  }

  /** The readers' view of an error: a bridge without a daemon behind it supports nothing. */
  function NoDaemonErrno(e: int): (r: int)
    ensures r == 45 <==> e in {45, 57, 60}
    ensures r != 45 ==> r == e
  {
    if e == ENOTCONN || e == ETIMEDOUT then ENOTSUP else e
  }

  /** None of the first `n` requests fails. */
  ghost predicate NoneFails(rc: nat -> int, n: nat) {
    forall k: nat :: k < n ==> rc(k) == 0
  }

  /** Request number `f` is the first that would fail. */
  ghost predicate FirstFailure(rc: nat -> int, f: nat) {
    NoneFails(rc, f) && rc(f) != 0
  }

  /** A `uint32_t` as it lies in memory, least byte first. */
  function Bytes4(n: U32): (b: seq<Byte>)
    ensures |b| == 4
  {
    [n % 0x100, n / 0x100 % 0x100, n / 0x1_0000 % 0x100, n / 0x100_0000]
  }

  /** What lies where when the rest of `b` from `pos` on is `x` followed by `y`. */
  lemma SplitSuffix<T>(b: seq<T>, pos: nat, x: seq<T>, y: seq<T>)
    requires pos <= |b| && b[pos..] == x + y
    ensures pos + |x| + |y| == |b| && b[pos..pos + |x|] == x && b[pos + |x|..] == y
  {
    var t := b[pos..];
    assert t[..|x|] == x && t[|x|..] == y;
  }
}
