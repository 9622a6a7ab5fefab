/**
 /proc/<pid>/mem: the kernel's read loop (kext/procfs_mem.c, procfs_domem) over the daemon's
 page-by-page reads (tools/procfsd.c, procfsd_handle_memread).

 Addresses are 64-bit: every address is taken modulo 2^64, so a read past the top goes on at 0 in
 both programs. The k-th request fails with rc(k) when that is not 0; the target is
 one the daemon may open.
 */
module MemRead {
  import opened Common

  /** A target's memory: which pages can be read, and the byte at each address. */
  datatype Memory = Memory(pageSize: nat, pageReadable: nat -> bool, byteAt: nat -> Byte)

  /** Pages tile the 64-bit address space. */
  predicate MemoryOk(m: Memory) {
    m.pageSize > 0 && TWO64 % m.pageSize == 0
  }

  predicate Readable(m: Memory, addr: nat)
    requires MemoryOk(m)
  {
    m.pageReadable(addr % TWO64 / m.pageSize)
  }

  /** Length of the readable run from `addr` on, counting no further than `n`. */
  function RunLength(m: Memory, addr: nat, n: nat): (k: nat)
    requires MemoryOk(m)
    ensures k <= n
    decreases n
  {
    if n == 0 || !Readable(m, addr) then 0 else 1 + RunLength(m, addr + 1, n - 1)
  }

  function Bytes(m: Memory, addr: nat, n: nat): (s: seq<Byte>)
    ensures |s| == n
  {
    seq<Byte>(n, i requires 0 <= i < n => m.byteAt((addr + i) % TWO64))
  }

  lemma BytesJoin(m: Memory, addr: nat, a: nat, b: nat)
    ensures Bytes(m, addr, a) + Bytes(m, addr + a, b) == Bytes(m, addr, a + b)
  {
    var x, y := Bytes(m, addr, a) + Bytes(m, addr + a, b), Bytes(m, addr, a + b);
    forall i | 0 <= i < a + b ensures x[i] == y[i] {
      if i >= a { assert x[i] == Bytes(m, addr + a, b)[i - a]; }
    }
  }

  /** The bytes up to the end of a page are all readable or all not. */
  lemma SamePage(m: Memory, addr: nat, i: nat)
    requires MemoryOk(m) && i < m.pageSize - addr % TWO64 % m.pageSize
    ensures Readable(m, addr + i) == Readable(m, addr)
  {
    var ps, cur := m.pageSize, addr % TWO64;
    var q, r, w := cur / ps, cur % ps, TWO64 / ps;
    assert cur == q * ps + r && TWO64 == w * ps;
    assert q < w by {
      if q >= w { MulMonotone(w, q, ps); }
    }
    MulMonotone(q + 1, w, ps);
    assert (q + 1) * ps == q * ps + ps;
    assert cur + i < TWO64;
    assert (addr + i) % TWO64 == cur + i by {
      assert addr + i == TWO64 * (addr / TWO64) + (cur + i);
    }
    assert (cur + i) / ps == q by { DivUnique(cur + i, ps, q, r + i); }
  }

  lemma MulMonotone(a: nat, b: nat, c: nat)
    requires a <= b
    ensures a * c <= b * c
  {
  }

  lemma DivUnique(x: nat, d: nat, q: nat, r: nat)
    requires d > 0 && x == q * d + r && r < d
    ensures x / d == q
  {
    var q', r' := x / d, x % d;
    assert x == q' * d + r';
    assert (q' + 1) * d == q' * d + d && (q + 1) * d == q * d + d;
    if q' < q { MulMonotone(q' + 1, q, d); }
    if q < q' { MulMonotone(q + 1, q', d); }
  }

  /** Every address from `a` up to `b` can be read. */
  ghost predicate AllReadable(m: Memory, a: nat, b: nat)
    requires MemoryOk(m)
  {
    forall x: nat :: a <= x < b ==> Readable(m, x)
  }

  /** The run is `k` bytes long if they can be read and nothing more is wanted or can be. */
  lemma {:induction false} RunIs(m: Memory, addr: nat, k: nat, n: nat)
    requires MemoryOk(m) && k <= n && AllReadable(m, addr, addr + k) && (k == n || !Readable(m, addr + k))
    ensures RunLength(m, addr, n) == k
    decreases k
  {
    if k > 0 { RunIs(m, addr + 1, k - 1, n - 1); }
  }

  lemma {:induction false} RunReadable(m: Memory, addr: nat, n: nat)
    requires MemoryOk(m)
    ensures var k := RunLength(m, addr, n); AllReadable(m, addr, addr + k) && (k < n ==> !Readable(m, addr + k))
    decreases n
  {
    if n > 0 && Readable(m, addr) { RunReadable(m, addr + 1, n - 1); }
  }

  /** Bytes from `addr` to the end of its page, at most `left`. */
  function PagePart(m: Memory, addr: nat, left: nat): (c: nat)
    requires MemoryOk(m)
    ensures c <= left && c <= m.pageSize - addr % TWO64 % m.pageSize && (left > 0 ==> c > 0)
  {
    Min(m.pageSize - addr % TWO64 % m.pageSize, left)
  }

  /** A readable page part extends what was read so far. */
  lemma NextPage(m: Memory, base: nat, cur: nat, left: nat)
    requires MemoryOk(m) && base <= cur && AllReadable(m, base, cur) && Readable(m, cur)
    ensures AllReadable(m, base, cur + PagePart(m, cur, left))
  {
    forall x: nat | cur <= x < cur + PagePart(m, cur, left) ensures Readable(m, x) { SamePage(m, cur, x - cur); }
  }

  /** mach_vm_read_overwrite within one page: all of it or nothing. */
  method VmRead(m: Memory, addr: nat, len: nat) returns (ok: bool, got: seq<Byte>)
    requires MemoryOk(m)
    ensures ok == Readable(m, addr) && (ok ==> got == Bytes(m, addr, len))
  {
    ok, got := m.pageReadable(addr % TWO64 / m.pageSize), [];
    if ok {
      got := Bytes(m, addr, len);
    }
  }

  /** A reply of `k` bytes: readable ones, all there are in the run unless the payload is full. */
  ghost predicate IsReply(m: Memory, base: nat, k: nat)
    requires MemoryOk(m)
  {
    k <= MAX_PAYLOAD && AllReadable(m, base, base + k) && (k < MAX_PAYLOAD ==> !Readable(m, base + k))
  }

  /** procfsd_handle_memread: the readable bytes at `base`, at most one payload of them. */
  method ServeMemory(m: Memory, base: nat) returns (out: seq<Byte>)
    requires MemoryOk(m)
    ensures IsReply(m, base, |out|) && out == Bytes(m, base, |out|)
  {
    out := [];
    var total: nat := 0;
    var more := true;
    while more && total < MAX_PAYLOAD
      invariant total <= MAX_PAYLOAD && out == Bytes(m, base, total) && AllReadable(m, base, base + total)
      invariant !more ==> !Readable(m, base + total)
      decreases more, MAX_PAYLOAD - total
    {
      var cur := base + total;
      var chunk := PagePart(m, cur, MAX_PAYLOAD - total);
      var ok, got := VmRead(m, cur, chunk);
      if ok {
        NextPage(m, base, cur, MAX_PAYLOAD - total);
        BytesJoin(m, base, total, chunk);
        out := out + got;
        total := total + chunk;
      } else {
        more := false;                  // the run ends here
      }
    }
  }

  /** A reply of `got` bytes to a reader that has `done` of the `n` it wants. */
  lemma TakeReply(m: Memory, va: nat, done: nat, n: nat, got: nat)
    requires MemoryOk(m) && AllReadable(m, va, va + done) && done < n && IsReply(m, va + done, got)
    ensures AllReadable(m, va, va + done + Min(got, n - done))
    ensures got < MAX_PAYLOAD ==> done + Min(got, n - done) == RunLength(m, va, n)
  {
    if got < MAX_PAYLOAD { RunIs(m, va, done + Min(got, n - done), n); }
  }

  /** procfs_domem: `n` bytes at `va`. */
  method ReadMemory(m: Memory, va: nat, n: nat, rc: nat -> int) returns (data: seq<Byte>, error: int)
    requires MemoryOk(m)
    ensures |data| <= RunLength(m, va, n) && data == Bytes(m, va, |data|)
    ensures (forall k: nat :: rc(k) == 0) ==> |data| == RunLength(m, va, n)
    ensures forall f: nat :: FirstFailure(rc, f) ==> |data| == Min(f * MAX_PAYLOAD, RunLength(m, va, n))
    ensures error ==
              if n == 0 then 0 else if rc(0) != 0 then NoDaemonErrno(rc(0)) else if !Readable(m, va) then EIO else 0
  {
    data, error := [], 0;
    var requests: nat := 0;
    var more, failed := true, false;
    while more && |data| < n
      invariant |data| <= n && data == Bytes(m, va, |data|) && AllReadable(m, va, va + |data|)
      invariant requests == 0 ==> more && data == [] && error == 0
      invariant n == 0 ==> requests == 0
      invariant more && requests > 0 ==> data != []
      invariant requests > 0 ==> rc(0) == 0 || (data == [] && error == NoDaemonErrno(rc(0)))
      invariant failed ==> !more && requests > 0 && FirstFailure(rc, requests - 1)
      invariant failed ==> |data| == (requests - 1) * MAX_PAYLOAD
      invariant !failed ==> NoneFails(rc, requests) && |data| <= requests * MAX_PAYLOAD
      invariant more ==> |data| == Min(requests * MAX_PAYLOAD, n)
      invariant !more && !failed ==> |data| == RunLength(m, va, n)
      invariant data != [] ==> error == 0
      invariant !more && !failed && data == [] ==> error == EIO
      decreases more, n - |data|
    {
      var any := data != [];
      var e := rc(requests);
      requests := requests + 1;
      if e != 0 {
        if !any {
          error := NoDaemonErrno(e);
        }
        more, failed := false, true;
      } else {
        var at, resid := va + |data|, n - |data|;
        var buf := ServeMemory(m, at);
        TakeReply(m, va, |data|, n, |buf|);
        if |buf| == 0 {
          if !any {
            error := EIO;
          }
          more := false;
        } else {
          var move := if |buf| < resid then |buf| else resid;
          BytesJoin(m, va, |data|, move);
          assert buf[..move] == Bytes(m, at, move);
          data := data + buf[..move];
          more := |buf| == MAX_PAYLOAD;
        }
      }
    }
    ReadAmount(m, va, |data|, n);
  }

  lemma ReadAmount(m: Memory, va: nat, k: nat, n: nat)
    requires MemoryOk(m) && k <= n && AllReadable(m, va, va + k)
    ensures k <= RunLength(m, va, n) && (k == n ==> k == RunLength(m, va, n))
    ensures n > 0 ==> (RunLength(m, va, n) == 0 <==> !Readable(m, va))
  {
    RunReadable(m, va, n);
  }
}
