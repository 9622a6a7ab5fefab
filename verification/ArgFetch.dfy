/**
 Fetching a process's argument region in pieces (kext/procfs_cmdline.c, procfs_fetch_procargs) from the
 daemon, which serves slices of it (tools/procfsd.c, procfsd_handle_procargs), into a buffer that is
 replaced by one twice as large when it is full.

 Whether the k-th request or allocation fails is a parameter.
 */
module ArgFetch {
  import opened Common
  import opened Transfer

  /** PROCFS_CMDLINE_MAX */
  const CMDLINE_MAX: nat := 262144

  /** What that is in payloads. */
  const PAYLOADS: nat := 128

  /** What a reader gets of a region that stays as it is, when the requests fail as `rc` says. */
  function Fetched(region: seq<Byte>, rc: nat -> int, k: nat): seq<Byte>
    decreases CMDLINE_MAX - k * MAX_PAYLOAD
  {
    if k * MAX_PAYLOAD >= CMDLINE_MAX || rc(k) != 0 then []
    else
      var s := Slice(region, k * MAX_PAYLOAD);
      if |s| < MAX_PAYLOAD then s else s + Fetched(region, rc, k + 1)
  }

  /** After `k` full replies there are as many payloads of the region, and what follows. */
  lemma {:induction false} FetchedAfter(region: seq<Byte>, rc: nat -> int, k: nat)
    requires NoneFails(rc, k) && k * MAX_PAYLOAD <= |region| && k * MAX_PAYLOAD <= CMDLINE_MAX
    ensures Fetched(region, rc, 0) == region[..k * MAX_PAYLOAD] + Fetched(region, rc, k)
  {
    if k > 0 {
      var off := (k - 1) * MAX_PAYLOAD;
      FetchedAfter(region, rc, k - 1);
      SliceExtends(region, off);
      Regroup(region[..off], Slice(region, off), Fetched(region, rc, k));
    }
  }

  lemma Regroup(a: seq<Byte>, b: seq<Byte>, c: seq<Byte>)
    ensures a + (b + c) == (a + b) + c
  {
  }

  /** A failing request, or the limit, ends the region there. */
  lemma FetchedStops(region: seq<Byte>, rc: nat -> int, k: nat)
    requires NoneFails(rc, k) && k * MAX_PAYLOAD <= |region| && k * MAX_PAYLOAD <= CMDLINE_MAX
    requires k * MAX_PAYLOAD == CMDLINE_MAX || rc(k) != 0
    ensures Fetched(region, rc, 0) == region[..k * MAX_PAYLOAD]
  {
    FetchedAfter(region, rc, k);
  }

  /** A short reply ends it at its own end. */
  lemma FetchedShort(region: seq<Byte>, rc: nat -> int, k: nat)
    requires NoneFails(rc, k + 1) && k * MAX_PAYLOAD <= |region| && k * MAX_PAYLOAD < CMDLINE_MAX
    requires |Slice(region, k * MAX_PAYLOAD)| < MAX_PAYLOAD
    ensures Fetched(region, rc, 0) == region
  {
    FetchedAfter(region, rc, k);
    SliceExtends(region, k * MAX_PAYLOAD);
  }

  /** A larger buffer with the same first `total` bytes. */
  method Grow(buf: array<Byte>, total: nat, cap: nat) returns (nbuf: array<Byte>)
    requires total <= buf.Length && total <= cap
    ensures fresh(nbuf) && nbuf.Length == cap && nbuf[..total] == buf[..total]
  {
    nbuf := new Byte[cap];
    forall i | 0 <= i < total {
      nbuf[i] := buf[i];
    }
  }

  /** One reply copied into the buffer behind the bytes already there. */
  method TakeReply(region: seq<Byte>, buf: array<Byte>, total: nat) returns (newTotal: nat, full: bool)
    requires total + MAX_PAYLOAD <= buf.Length && total <= |region| && buf[..total] == region[..total]
    modifies buf
    ensures full <==> total + MAX_PAYLOAD <= |region|
    ensures newTotal == (if full then total + MAX_PAYLOAD else |region|) && newTotal <= buf.Length
    ensures buf[..newTotal] == region[..newTotal]
  {
    var got := Slice(region, total);
    SliceExtends(region, total);
    forall i | 0 <= i < |got| {
      buf[total + i] := got[i];
    }
    newTotal, full := total + |got|, |got| == MAX_PAYLOAD;
    assert buf[..total] == region[..total] && buf[total..newTotal] == got;
    assert buf[..newTotal] == buf[..total] + buf[total..newTotal];
  }

  /** Payloads that the buffer holds after `n` allocations: one, then twice as many each time. */
  function Capacity(n: nat): nat {
    if n <= 1 then n else Min(2 * Capacity(n - 1), PAYLOADS)
  }

  lemma {:induction false} CapacityGrows(m: nat, n: nat)
    requires m <= n
    ensures Capacity(m) <= Capacity(n) <= PAYLOADS
  {
    if m < n {
      CapacityGrows(m, n - 1);
    }
    CapacityLimit(n);
  }

  lemma {:induction false} CapacityLimit(n: nat)
    ensures Capacity(n) <= PAYLOADS && (n > 0 ==> Capacity(n) > 0)
  {
    if n > 1 {
      CapacityLimit(n - 1);
    }
  }

  ghost predicate AllGiven(alloc: nat -> bool, n: nat) {
    forall i: nat :: i < n ==> alloc(i)
  }

  /** Allocation number `n` is the first to fail, and the fetch comes to need it: the buffer fills with
      payloads of the region before a request fails or the limit is reached. */
  ghost predicate OutAt(region: seq<Byte>, rc: nat -> int, alloc: nat -> bool, n: nat) {
    && !alloc(n) && AllGiven(alloc, n)
    && Capacity(n) < PAYLOADS && Capacity(n) * MAX_PAYLOAD <= |region| && NoneFails(rc, Capacity(n))
  }

  ghost predicate RunsOut(region: seq<Byte>, rc: nat -> int, alloc: nat -> bool) {
    exists n: nat :: OutAt(region, rc, alloc, n)
  }

  /** A fetch that ends otherwise, with `n` allocations made, never came to need another. */
  lemma NotOut(region: seq<Byte>, rc: nat -> int, alloc: nat -> bool, n: nat, k: nat)
    requires AllGiven(alloc, n)
    requires Capacity(n) == PAYLOADS || (k < Capacity(n) && (rc(k) != 0 || |region| < (k + 1) * MAX_PAYLOAD))
    ensures !RunsOut(region, rc, alloc)
  {
    forall m: nat
      ensures !OutAt(region, rc, alloc, m)
    {
      if n <= m {
        CapacityGrows(n, m);
      }
    }
  }

  datatype Room = Enough | AtLimit | NoMemory

  /** Makes room for another payload, doubling the buffer up to the limit. */
  method MakeRoom(buf: array<Byte>, total: nat, allocs: nat, alloc: nat -> bool, ghost k: nat)
    returns (room: Room, nbuf: array<Byte>, used: nat)
    requires allocs > 0 && buf.Length == Capacity(allocs) * MAX_PAYLOAD && total == k * MAX_PAYLOAD <= buf.Length
    requires AllGiven(alloc, allocs)
    ensures nbuf == buf || fresh(nbuf)
    ensures used >= allocs && nbuf.Length == Capacity(used) * MAX_PAYLOAD && AllGiven(alloc, used)
    ensures total <= nbuf.Length && nbuf[..total] == buf[..total]
    ensures room.Enough? ==> k < Capacity(used)
    ensures room.AtLimit? ==> k == Capacity(used) == PAYLOADS
    ensures room.NoMemory? ==> !alloc(used) && k == Capacity(used) < PAYLOADS
  {
    CapacityLimit(allocs);
    room, nbuf, used := Enough, buf, allocs;
    if total + MAX_PAYLOAD > buf.Length {
      var ncap := buf.Length * 2;
      if ncap > CMDLINE_MAX {
        ncap := CMDLINE_MAX;
      }
      if ncap <= total {
        room := AtLimit;
      } else if !alloc(allocs) {
        room := NoMemory;
      } else {
        used := allocs + 1;
        nbuf := Grow(buf, total, ncap);
      }
    }
  }

  /** The request loop of procfs_fetch_procargs; `alloc(k)` tells whether the k-th allocation succeeds.
      Every reply is stored where a whole payload would fit. */
  method Collect(region: seq<Byte>, rc: nat -> int, alloc: nat -> bool) returns (r: Result)
    ensures r == if RunsOut(region, rc, alloc) then Err(ENOMEM)
                 else if rc(0) != 0 then Err(NoDaemonErrno(rc(0)))
                 else Ok(Fetched(region, rc, 0))
  {
    if !alloc(0) {
      assert OutAt(region, rc, alloc, 0);
      return Err(ENOMEM);
    }
    var buf, allocs := new Byte[MAX_PAYLOAD], 1;
    var total: nat, k: nat := 0, 0;     // bytes and requests so far
    while true
      invariant fresh(buf) && allocs > 0 && buf.Length == Capacity(allocs) * MAX_PAYLOAD && AllGiven(alloc, allocs)
      invariant total == k * MAX_PAYLOAD <= buf.Length && total <= |region| && buf[..total] == region[..total]
      invariant NoneFails(rc, k)
      decreases CMDLINE_MAX - total
    {
      var room;
      room, buf, allocs := MakeRoom(buf, total, allocs, alloc, k);
      CapacityLimit(allocs);
      if room.NoMemory? {
        assert OutAt(region, rc, alloc, allocs);
        return Err(ENOMEM);
      }
      if room.AtLimit? {
        NotOut(region, rc, alloc, allocs, k);
        FetchedStops(region, rc, k);
        break;
      }
      if rc(k) != 0 {
        NotOut(region, rc, alloc, allocs, k);
        if total == 0 {
          return Err(NoDaemonErrno(rc(k)));
        }
        FetchedStops(region, rc, k);
        break;                          // what was fetched before is kept
      }
      var full;
      total, full := TakeReply(region, buf, total);
      if !full {
        NotOut(region, rc, alloc, allocs, k);
        FetchedShort(region, rc, k);
        break;
      }
      k := k + 1;
    }
    r := Ok(buf[..total]);
  }

  /** procfs_fetch_procargs: ENOMEM exactly when an allocation that is needed fails, else the first
      request's error, else EIO for an empty region, else what was fetched. */
  method FetchProcargs(region: seq<Byte>, rc: nat -> int, alloc: nat -> bool) returns (r: Result)
    ensures r == if RunsOut(region, rc, alloc) then Err(ENOMEM)
                 else if rc(0) != 0 then Err(NoDaemonErrno(rc(0)))
                 else if region == [] then Err(EIO)
                 else Ok(Fetched(region, rc, 0))
  {
    r := Collect(region, rc, alloc);
    if r.Ok? && r.data == [] {
      r := Err(EIO);
    }
  }

  /** With no failure that is the region, or its first 256 KiB. */
  lemma FetchedWhole(region: seq<Byte>, rc: nat -> int)
    requires forall i: nat :: rc(i) == 0
    ensures Fetched(region, rc, 0) == Clip(region, CMDLINE_MAX)
  {
    var k := Min(|region| / MAX_PAYLOAD, CMDLINE_MAX / MAX_PAYLOAD);
    if k * MAX_PAYLOAD == CMDLINE_MAX {
      FetchedStops(region, rc, k);
    } else {
      FetchedShort(region, rc, k);
    }
  }

  /** Whatever fails, what is returned is a beginning of the region. */
  lemma {:induction false} FetchedIsPrefix(region: seq<Byte>, rc: nat -> int, k: nat)
    requires k * MAX_PAYLOAD <= |region|
    ensures region[..k * MAX_PAYLOAD] + Fetched(region, rc, k) <= region
    decreases CMDLINE_MAX - k * MAX_PAYLOAD
  {
    var off := k * MAX_PAYLOAD;
    if off < CMDLINE_MAX && rc(k) == 0 {
      SliceExtends(region, off);
      if |Slice(region, off)| == MAX_PAYLOAD {
        FetchedIsPrefix(region, rc, k + 1);
        Regroup(region[..off], Slice(region, off), Fetched(region, rc, k + 1));
      }
    }
  }
}
