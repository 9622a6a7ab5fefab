/**
 Enumerating a process's VM regions: the kernel's walk (kext/procfs_map.c, procfs_map_walk) resumes
 the daemon's (tools/procfsd.c, procfsd_handle_maps) at the end of the last region it got.
 Addresses wrap at 2^64, and a region may end exactly there.
 */
module MapWalk {
  import opened Common

  /** A region; the attributes that the formatters only print ride along as `info`. */
  datatype Region = Region(start: nat, size: nat, shareMode: U32, residentPages: U32, info: int)

  /** Sorted, disjoint, not empty, within the address space. */
  predicate RegionsOk(rs: seq<Region>) {
    && (forall i :: 0 <= i < |rs| ==> rs[i].size > 0 && rs[i].start + rs[i].size <= TWO64)
    && (forall i, j :: 0 <= i < j < |rs| ==> rs[i].start + rs[i].size <= rs[j].start)
  }

  /** PROCFS_CTL_MAXPAYLOAD / sizeof(struct procfs_map_region), which is 64 bytes. */
  const BATCH: nat := 32

  /** mach_vm_region: index of the first region that contains `addr` or lies above it, else |rs|. */
  function FirstAt(rs: seq<Region>, addr: nat, k: nat): (i: nat)
    requires k <= |rs|
    ensures k <= i <= |rs|
    decreases |rs| - k
  {
    if k == |rs| || rs[k].start + rs[k].size > addr then k else FirstAt(rs, addr, k + 1)
  }

  lemma {:induction false} FirstAtSpec(rs: seq<Region>, addr: nat, k: nat)
    requires k <= |rs|
    ensures var i := FirstAt(rs, addr, k);
      && (forall j :: k <= j < i ==> rs[j].start + rs[j].size <= addr)
      && (i < |rs| ==> rs[i].start + rs[i].size > addr)
    decreases |rs| - k
  {
    if k < |rs| && rs[k].start + rs[k].size <= addr { FirstAtSpec(rs, addr, k + 1); }
  }

  /** End of a region as the 64-bit sum computes it. */
  function EndOf(r: Region): nat {
    (r.start + r.size) % TWO64
  }

  /** Resuming at the end of region `i` finds region `i + 1`, unless that end wrapped. */
  lemma ResumeAfter(rs: seq<Region>, i: nat)
    requires RegionsOk(rs) && i < |rs|
    ensures EndOf(rs[i]) <= rs[i].start ==> i == |rs| - 1
    ensures EndOf(rs[i]) > rs[i].start ==> FirstAt(rs, EndOf(rs[i]), 0) == i + 1
  {
    var e := rs[i].start + rs[i].size;
    assert i + 1 < |rs| ==> e <= rs[i + 1].start < TWO64;
    assert forall j :: 0 <= j <= i ==> rs[j].start + rs[j].size <= e;
    FirstAtSpec(rs, e, 0);
  }

  /** procfsd_handle_maps: the regions at or above `arg`, at most one batch. */
  method ServeMaps(rs: seq<Region>, arg: U64) returns (out: seq<Region>)
    requires RegionsOk(rs)
    ensures var i := FirstAt(rs, arg, 0); out == rs[i..Min(i + BATCH, |rs|)]
  {
    ghost var i := FirstAt(rs, arg, 0);
    out := [];
    var addr: nat := arg;
    while |out| < BATCH
      invariant |out| <= BATCH && i + |out| <= |rs| && out == rs[i..i + |out|]
      invariant FirstAt(rs, addr, 0) == i + |out| && addr < TWO64
      decreases BATCH - |out|
    {
      var k := FirstAt(rs, addr, 0);    // mach_vm_region
      if k == |rs| {
        break;                          // nothing is left to list
      }
      addr := rs[k].start;
      out := out + [rs[k]];
      ResumeAfter(rs, k);
      var next := EndOf(rs[k]);
      if next <= addr {
        break;                          // the region reaches 2^64
      }
      addr := next;
    }
  }

  /** What a batch adds: the next regions in order, and a resume address that finds the one after
      them unless the last of them ends the address space. */
  lemma AfterBatch(rs: seq<Region>, addr: nat, k: nat, regs: seq<Region>)
    requires RegionsOk(rs) && addr < TWO64 && FirstAt(rs, addr, 0) == k
    requires regs == rs[k..Min(k + BATCH, |rs|)] && regs != []
    ensures var n := k + |regs|; var last := EndOf(regs[|regs| - 1]);
      && n <= |rs| && rs[..k] + regs == rs[..n]
      && (last <= addr ==> n == |rs|) && (last > addr ==> FirstAt(rs, last, 0) == n)
  {
    var n := k + |regs|;
    assert regs[|regs| - 1] == rs[n - 1];
    ResumeAfter(rs, n - 1);
    Above(rs, addr, n - 1);
  }

  /** After `k` answers the walk has seen these regions and goes on at `addr`. */
  predicate Walked(rs: seq<Region>, k: nat, seen: seq<Region>, addr: nat) {
    && |seen| == Min(k * BATCH, |rs|) && seen == rs[..|seen|]
    && addr < TWO64 && FirstAt(rs, addr, 0) == |seen|
  }

  lemma WalkOn(rs: seq<Region>, k: nat, seen: seq<Region>, addr: nat, regs: seq<Region>)
    requires RegionsOk(rs) && Walked(rs, k, seen, addr)
    requires regs == rs[|seen|..Min(|seen| + BATCH, |rs|)] && regs != []
    ensures var last := EndOf(regs[|regs| - 1]);
      && |seen| < |seen + regs| == Min((k + 1) * BATCH, |rs|)
      && (last <= addr ==> seen + regs == rs) && (last > addr ==> Walked(rs, k + 1, seen + regs, last))
  {
    AfterBatch(rs, addr, |seen|, regs);
  }

  /** The first failing request cuts a walk over `all` regions down to `got`. */
  ghost predicate CutByFailure(rc: nat -> int, all: nat, got: nat) {
    && ((forall k: nat :: rc(k) == 0) ==> got == all)
    && forall f: nat :: FirstFailure(rc, f) ==> got == Min(f * BATCH, all)
  }

  lemma CutAt(rc: nat -> int, k: nat, all: nat)
    requires FirstFailure(rc, k)
    ensures CutByFailure(rc, all, Min(k * BATCH, all))
  {
    forall f: nat | FirstFailure(rc, f)
      ensures f == k
    {
    }
  }

  lemma NotCut(rc: nat -> int, k: nat, all: nat)
    requires NoneFails(rc, k) && all <= k * BATCH
    ensures CutByFailure(rc, all, all)
  {
    forall f: nat | FirstFailure(rc, f)
      ensures f >= k
    {
    }
  }

  /** One answer: the regions seen with it, and where to go on unless there is nothing more. */
  method TakeBatch(rs: seq<Region>, seen: seq<Region>, addr: nat, ghost k: nat)
    returns (now: seq<Region>, next: nat, more: bool)
    requires RegionsOk(rs) && Walked(rs, k, seen, addr)
    ensures !more ==> now == rs && |rs| <= (k + 1) * BATCH
    ensures more ==> Walked(rs, k + 1, now, next) && |now| > |seen| && next > addr
  {
    var regs := ServeMaps(rs, addr);
    var n := |regs|;
    if n == 0 {
      return seen, addr, false;
    }
    WalkOn(rs, k, seen, addr, regs);
    now := seen + regs;
    next := EndOf(regs[n - 1]);
    more := next > addr;                // else the last region reached 2^64
  }

  /** procfs_map_walk: the regions for which the callback runs, in order, and the result. */
  method WalkRegions(rs: seq<Region>, rc: nat -> int) returns (seen: seq<Region>, error: int)
    requires RegionsOk(rs)
    ensures seen <= rs && CutByFailure(rc, |rs|, |seen|)
    ensures error == if rc(0) != 0 then NoDaemonErrno(rc(0)) else 0
  {
    seen, error := [], 0;
    var addr: nat, requests: nat := 0, 0;
    var first := true;
    while true
      invariant Walked(rs, requests, seen, addr) && NoneFails(rc, requests)
      invariant first <==> seen == []
      invariant first ==> addr == 0 && requests == 0
      invariant !first ==> rc(0) == 0 && addr > 0
      invariant error == 0
      decreases |rs| - |seen|
    {
      var e := rc(requests);
      if e != 0 {
        CutAt(rc, requests, |rs|);
        if !first {
          return;
        }
        error := NoDaemonErrno(e);
        return;
      }
      var more;
      seen, addr, more := TakeBatch(rs, seen, addr, requests);
      requests := requests + 1;
      if !more {
        NotCut(rc, requests, |rs|);
        return;
      }
      first := false;
    }
  }

  /** A region found from `addr` on ends above it, so its end passes for no progress only by wrapping. */
  lemma Above(rs: seq<Region>, addr: nat, i: nat)
    requires RegionsOk(rs) && FirstAt(rs, addr, 0) <= i < |rs| && addr < TWO64
    ensures EndOf(rs[i]) <= addr <==> rs[i].start + rs[i].size == TWO64
    ensures EndOf(rs[i]) > addr ==> EndOf(rs[i]) > rs[i].start
    ensures EndOf(rs[i]) <= addr ==> i == |rs| - 1
  {
    var f := FirstAt(rs, addr, 0);
    FirstAtSpec(rs, addr, 0);
    assert f < i ==> rs[f].start + rs[f].size <= rs[i].start;
    ResumeAfter(rs, i);
  }

  // ----- the totals that procfs_task_vm_sizes accumulates over the walk -----

  const SM_SHARED: int := 4
  const SM_TRUESHARED: int := 5
  const SM_SHARED_ALIASED: int := 7

  function TotalSize(rs: seq<Region>): nat {
    if rs == [] then 0 else TotalSize(rs[..|rs| - 1]) + rs[|rs| - 1].size
  }

  /** What a region adds to the resident size: its resident pages, unless other tasks share them. */
  function Resident(r: Region, pageSize: nat): nat {
    if r.shareMode == SM_SHARED || r.shareMode == SM_TRUESHARED || r.shareMode == SM_SHARED_ALIASED then 0
    else r.residentPages * pageSize
  }

  function ResidentSize(rs: seq<Region>, pageSize: nat): nat {
    if rs == [] then 0 else ResidentSize(rs[..|rs| - 1], pageSize) + Resident(rs[|rs| - 1], pageSize)
  }

  lemma WrapTwice(a: nat, b: nat)
    ensures (a % TWO64 + b) % TWO64 == (a + b) % TWO64
  {
    var q := a / TWO64;
    assert a + b == (a % TWO64 + b) + q * TWO64;
  }

  /** procfs_map_sizes_cb for one region after another, into two 64-bit sums. */
  method SumSizes(seen: seq<Region>, pageSize: nat) returns (vsize: nat, rsize: nat)
    ensures vsize == TotalSize(seen) % TWO64 && rsize == ResidentSize(seen, pageSize) % TWO64
  {
    vsize, rsize := 0, 0;
    for i := 0 to |seen|
      invariant vsize == TotalSize(seen[..i]) % TWO64 && rsize == ResidentSize(seen[..i], pageSize) % TWO64
    {
      var mr := seen[i];
      assert seen[..i + 1][..i] == seen[..i];
      WrapTwice(TotalSize(seen[..i]), mr.size);
      WrapTwice(ResidentSize(seen[..i], pageSize), Resident(mr, pageSize));
      vsize := (vsize + mr.size) % TWO64;
      if mr.shareMode != SM_SHARED && mr.shareMode != SM_TRUESHARED && mr.shareMode != SM_SHARED_ALIASED {
        rsize := (rsize + mr.residentPages * pageSize) % TWO64;
      }
    }
    assert seen[..|seen|] == seen;
  }

  /** procfs_task_vm_sizes: the sums over all regions, or over those seen before a request failed, unless
      that was the first one. */
  method TaskVmSizes(rs: seq<Region>, pageSize: nat, rc: nat -> int) returns (error: int, vsize: nat, rsize: nat)
    requires RegionsOk(rs)
    ensures error == if rc(0) != 0 then NoDaemonErrno(rc(0)) else 0
    ensures exists n: nat ::
              && n <= |rs| && CutByFailure(rc, |rs|, n)
              && vsize == TotalSize(rs[..n]) % TWO64 && rsize == ResidentSize(rs[..n], pageSize) % TWO64
  {
    vsize, rsize := 0, 0;
    var seen;
    seen, error := WalkRegions(rs, rc);
    assert rs[..|seen|] == seen;
    var v, r := SumSizes(seen, pageSize);
    if error != 0 {
      assert FirstFailure(rc, 0);
      return;
    }
    vsize, rsize := v, r;
  }

  /** The addresses from `start` on, `n` of them. */
  function Range(start: nat, n: nat): (s: set<nat>)
    ensures forall a: nat :: a in s <==> start <= a < start + n
  {
    if n == 0 then {} else Range(start, n - 1) + {start + n - 1}
  }

  lemma {:induction false} RangeSize(start: nat, n: nat)
    ensures |Range(start, n)| == n
  {
    if n > 0 { RangeSize(start, n - 1); }
  }

  function Addresses(rs: seq<Region>): set<nat> {
    if rs == [] then {} else Addresses(rs[..|rs| - 1]) + Range(rs[|rs| - 1].start, rs[|rs| - 1].size)
  }

  lemma {:induction false} AddressesBelow(rs: seq<Region>, end: nat)
    requires forall i :: 0 <= i < |rs| ==> rs[i].start + rs[i].size <= end
    ensures forall a :: a in Addresses(rs) ==> a < end
  {
    if rs != [] { AddressesBelow(rs[..|rs| - 1], end); }
  }

  /** The total size is the number of addresses that the regions cover. */
  lemma {:induction false} TotalIsCovered(rs: seq<Region>)
    requires RegionsOk(rs)
    ensures TotalSize(rs) == |Addresses(rs)|
  {
    if rs != [] {
      var front, last := rs[..|rs| - 1], rs[|rs| - 1];
      TotalIsCovered(front);
      RangeSize(last.start, last.size);
      AddressesBelow(front, last.start);
      assert Addresses(front) !! Range(last.start, last.size);
    }
  }

  lemma {:induction false} TotalWithin(rs: seq<Region>)
    requires RegionsOk(rs)
    ensures TotalSize(rs) <= TWO64
    ensures rs != [] ==> TotalSize(rs) <= rs[|rs| - 1].start + rs[|rs| - 1].size
  {
    if |rs| > 1 {
      TotalWithin(rs[..|rs| - 1]);
      assert rs[|rs| - 2].start + rs[|rs| - 2].size <= rs[|rs| - 1].start;
    }
  }

  lemma {:induction false} ResidentWithin(rs: seq<Region>, pageSize: nat)
    requires forall i :: 0 <= i < |rs| ==> rs[i].residentPages * pageSize <= rs[i].size
    ensures ResidentSize(rs, pageSize) <= TotalSize(rs)
  {
    if rs != [] {
      ResidentWithin(rs[..|rs| - 1], pageSize);
    }
  }

  /** The regions that are not shared with other tasks. */
  function NotShared(rs: seq<Region>): seq<Region> {
    if rs == [] then []
    else NotShared(rs[..|rs| - 1]) + (if rs[|rs| - 1].shareMode in {4, 5, 7} then [] else [rs[|rs| - 1]])
  }

  function Pages(rs: seq<Region>): nat {
    if rs == [] then 0 else Pages(rs[..|rs| - 1]) + rs[|rs| - 1].residentPages
  }

  /** The resident size is the resident pages of exactly the regions whose share mode is none of 4, 5 and 7,
      the shared ones. */
  lemma {:induction false} ResidentIsNotShared(rs: seq<Region>, pageSize: nat)
    ensures ResidentSize(rs, pageSize) == Pages(NotShared(rs)) * pageSize
  {
    if rs != [] {
      var front, last := rs[..|rs| - 1], rs[|rs| - 1];
      ResidentIsNotShared(front, pageSize);
      if last.shareMode in {4, 5, 7} {
        assert NotShared(rs) == NotShared(front);
      } else {
        MorePages(NotShared(front), last, pageSize);
      }
    }
  }

  lemma MorePages(rs: seq<Region>, r: Region, pageSize: nat)
    ensures Pages(rs + [r]) * pageSize == Pages(rs) * pageSize + r.residentPages * pageSize
  {
    var all := rs + [r];
    assert all[..|all| - 1] == rs;
    Distribute(Pages(rs), r.residentPages, pageSize);
  }

  lemma Distribute(a: nat, b: nat, c: nat)
    ensures (a + b) * c == a * c + b * c
  {
  }

  /** The virtual size is exact unless the regions fill the whole address space, which adds up to 0. */
  lemma VirtualSizeExact(rs: seq<Region>)
    requires RegionsOk(rs)
    ensures TotalSize(rs) % TWO64 == TotalSize(rs) <==> TotalSize(rs) < TWO64
    ensures TotalSize(rs) >= TWO64 ==> TotalSize(rs) == TWO64 && TotalSize(rs) % TWO64 == 0
  {
    TotalWithin(rs);
  }

  /** The resident size is exact whenever the virtual size is, and no larger, if no region has more
      resident pages than it covers. */
  lemma ResidentSizeExact(rs: seq<Region>, pageSize: nat)
    requires RegionsOk(rs) && TotalSize(rs) < TWO64
    requires forall i :: 0 <= i < |rs| ==> rs[i].residentPages * pageSize <= rs[i].size
    ensures ResidentSize(rs, pageSize) % TWO64 == ResidentSize(rs, pageSize) <= TotalSize(rs) % TWO64
  {
    ResidentWithin(rs, pageSize);
    Small(ResidentSize(rs, pageSize));
    Small(TotalSize(rs));
  }

  lemma Small(n: nat)
    requires n < TWO64
    ensures n % TWO64 == n
  {
  }
}
