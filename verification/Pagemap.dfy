/**
 /proc/<pid>/pagemap: one 8-byte entry for each virtual page, at file offset 8 times the page
 number. The kernel (kext/procfs_mem.c, procfs_dopagemap) asks the daemon (tools/procfsd.c,
 procfsd_handle_pagemap) for runs of 256 entries and cuts them to the caller's offset and size.
 */
module Pagemap {
  import opened Common
  import opened MapWalk

  /** What mach_vm_page_query says of a page; `ok` is false when it fails. */
  datatype Disposition = Disposition(ok: bool, present: bool, pagedOut: bool, external: bool, dirty: bool)

  /** An address space: its regions and the disposition of the page at each address. */
  datatype Space = Space(pageSize: nat, regions: seq<Region>, query: nat -> Disposition)

  function EntryOf(d: Disposition): nat {
    if !d.ok then 0
    else (if d.present then 0x8000_0000_0000_0000 else 0) + (if d.pagedOut then 0x4000_0000_0000_0000 else 0)
         + (if d.external then 0x2000_0000_0000_0000 else 0) + (if d.dirty then 0x80_0000_0000_0000 else 0)
  }

  predicate Mapped(rs: seq<Region>, va: nat) {
    exists i :: 0 <= i < |rs| && rs[i].start <= va < rs[i].start + rs[i].size
  }

  /** A query of a page outside every region reports nothing. */
  ghost predicate SpaceOk(sp: Space) {
    && sp.pageSize > 0 && RegionsOk(sp.regions)
    && forall va: nat :: !Mapped(sp.regions, va) ==> EntryOf(sp.query(va)) == 0
  }

  /** The entry of page number `p`. */
  function Entry(sp: Space, p: nat): nat {
    EntryOf(sp.query(p * sp.pageSize))
  }

  function Pow256(j: nat): (r: nat)
    ensures r > 0
  {
    if j == 0 then 1 else 0x100 * Pow256(j - 1)
  }

  /** Byte `j` of a little-endian 64-bit word. */
  function ByteOf(e: nat, j: nat): Byte {
    e / Pow256(j) % 0x100
  }

  function Word64(e: nat): (s: seq<Byte>)
    ensures |s| == 8
  {
    seq<Byte>(8, j requires 0 <= j < 8 => ByteOf(e, j))
  }

  /** The content of the file at offset `o`. */
  function Content(sp: Space, o: nat): Byte {
    ByteOf(Entry(sp, o / 8), o % 8)
  }

  lemma TopBytes(hi: nat, lo: nat, j: nat)
    requires hi < 0x100 && lo < 0x100 && j < 8
    ensures ByteOf(hi * 0x100_0000_0000_0000 + lo * 0x1_0000_0000_0000, j) ==
            if j == 7 then hi else if j == 6 then lo else 0
  {
    var top := hi * 0x100 + lo;
    assert hi * 0x100_0000_0000_0000 + lo * 0x1_0000_0000_0000 == top * 0x1_0000_0000_0000;
    if j < 6 {
      LowByteZero(top, j);
    } else {
      Powers();
    }
  }

  lemma Powers()
    ensures Pow256(6) == 0x1_0000_0000_0000 && Pow256(7) == 0x100_0000_0000_0000
  {
    assert Pow256(2) == 0x1_0000 && Pow256(4) == 0x1_0000_0000;
  }

  lemma LowByteZero(top: nat, j: nat)
    requires j < 6
    ensures ByteOf(top * 0x1_0000_0000_0000, j) == 0
  {
    var m := top * 0x1_0000_0000_0000;
    if j == 0 {
      assert m == (top * 0x100_0000_0000) * 0x100;
    } else if j == 1 {
      assert Pow256(1) == 0x100;
      assert m / 0x100 == (top * 0x1_0000_0000) * 0x100;
    } else if j == 2 {
      assert Pow256(2) == 0x1_0000;
      assert m / 0x1_0000 == (top * 0x100_0000) * 0x100;
    } else if j == 3 {
      assert Pow256(2) == 0x1_0000 && Pow256(3) == 0x100_0000;
      assert m / 0x100_0000 == (top * 0x1_0000) * 0x100;
    } else if j == 4 {
      assert Pow256(2) == 0x1_0000 && Pow256(4) == 0x1_0000_0000;
      assert m / 0x1_0000_0000 == (top * 0x100) * 0x100;
    } else {
      assert Pow256(2) == 0x1_0000 && Pow256(4) == 0x1_0000_0000 && Pow256(5) == 0x100_0000_0000;
      assert m / 0x100_0000_0000 == top * 0x100;
    }
  }

  /** The upper byte of an entry. */
  function Flags(d: Disposition): nat {
    (if d.present then 0x80 else 0) + (if d.pagedOut then 0x40 else 0) + (if d.external then 0x20 else 0)
  }

  /** The eight bytes of a page in the file: bits 63, 62 and 61 say that it is present, paged out and backed
      by a file, bit 55 that it is dirty, and all others are 0. */
  lemma PageBytes(sp: Space, p: nat, j: nat)
    requires j < 8
    ensures var d := sp.query(p * sp.pageSize);
            Content(sp, 8 * p + j) ==
              if !d.ok then 0 else if j == 7 then Flags(d) else if j == 6 && d.dirty then 0x80 else 0
  {
    var d := sp.query(p * sp.pageSize);
    assert (8 * p + j) / 8 == p && (8 * p + j) % 8 == j;
    EntryBytes(d, j);
  }

  lemma EntryBytes(d: Disposition, j: nat)
    requires j < 8
    ensures ByteOf(EntryOf(d), j) ==
              if !d.ok then 0 else if j == 7 then Flags(d) else if j == 6 && d.dirty then 0x80 else 0
  {
    var lo := if d.dirty then 0x80 else 0;
    if d.ok {
      assert EntryOf(d) == Flags(d) * 0x100_0000_0000_0000 + lo * 0x1_0000_0000_0000;
      TopBytes(Flags(d), lo, j);
    }
  }

  /** The page of file offset `o` lies in the 64-bit address space. */
  predicate InSpace(sp: Space, o: nat) {
    o / 8 * sp.pageSize < TWO64
  }

  /** `data` is what the file holds from offset `off` on. */
  ghost predicate Holds(sp: Space, off: nat, data: seq<Byte>) {
    forall o: nat :: off <= o < off + |data| && InSpace(sp, o) ==> data[o - off] == Content(sp, o)
  }

  const ENTRIES: nat := 256

  /** The entry that the daemon computes for address `va`, the next region starting at `ra`. */
  function Probed(sp: Space, va: nat, ra: nat): nat {
    if va >= ra then EntryOf(sp.query(va)) else 0
  }

  /** Not probing the hole below the next region loses nothing. */
  lemma ProbedIsEntry(sp: Space, start: nat, va: nat)
    requires SpaceOk(sp) && start <= va && FirstAt(sp.regions, start, 0) < |sp.regions|
    ensures Probed(sp, va, sp.regions[FirstAt(sp.regions, start, 0)].start) == EntryOf(sp.query(va))
  {
    var rs, i := sp.regions, FirstAt(sp.regions, start, 0);
    FirstAtSpec(rs, start, 0);
    if va < rs[i].start {
      forall j | 0 <= j < |rs| ensures !(rs[j].start <= va < rs[j].start + rs[j].size) {
        if j > i { assert rs[i].start + rs[i].size <= rs[j].start; }
      }
      assert !Mapped(rs, va);
    }
  }

  /** procfsd_handle_pagemap for the page number `pg`, whose address is `start`. */
  method ServePagemap(sp: Space, start: nat, ghost pg: nat) returns (out: seq<Byte>)
    requires SpaceOk(sp) && start == pg * sp.pageSize % TWO64
    ensures |out| == 0 || |out| == MAX_PAYLOAD
    ensures out == [] <==> FirstAt(sp.regions, start, 0) == |sp.regions|
    ensures Holds(sp, pg * 8, out)
  {
    out := [];
    var k := FirstAt(sp.regions, start, 0);     // mach_vm_region
    if k == |sp.regions| {
      return;
    }
    var ra := sp.regions[k].start;
    for i := 0 to ENTRIES
      invariant |out| == 8 * i && Holds(sp, pg * 8, out)
    {
      var va := (start + i * sp.pageSize) % TWO64;
      var e := Probed(sp, va, ra);
      EntryAt(sp, pg, i, start);
      Append(sp, pg, i, out, e);
      out := out + Word64(e);
    }
  }

  /** Entry `i` of a run that starts at page `pg`, when its address did not wrap. */
  lemma EntryAt(sp: Space, pg: nat, i: nat, start: nat)
    requires SpaceOk(sp) && start == pg * sp.pageSize % TWO64 && FirstAt(sp.regions, start, 0) < |sp.regions|
    ensures (pg + i) * sp.pageSize < TWO64 ==>
      Probed(sp, (start + i * sp.pageSize) % TWO64, sp.regions[FirstAt(sp.regions, start, 0)].start)
      == Entry(sp, pg + i)
  {
    var ps := sp.pageSize;
    assert (pg + i) * ps == pg * ps + i * ps;
    if (pg + i) * ps < TWO64 {
      assert start == pg * ps;
      ProbedIsEntry(sp, start, (pg + i) * ps);
    }
  }

  lemma Append(sp: Space, pg: nat, i: nat, out: seq<Byte>, e: nat)
    requires |out| == 8 * i && Holds(sp, pg * 8, out)
    requires (pg + i) * sp.pageSize < TWO64 ==> e == Entry(sp, pg + i)
    ensures Holds(sp, pg * 8, out + Word64(e))
  {
    var w := out + Word64(e);
    forall o: nat | pg * 8 <= o < pg * 8 + |w| && InSpace(sp, o) ensures w[o - pg * 8] == Content(sp, o) {
      var x := o - pg * 8;
      if x >= |out| {
        assert o / 8 == pg + i && o % 8 == x - |out|;
        assert w[x] == Word64(e)[x - |out|];
      }
    }
  }

  /** How far `k` answered requests reach: the first starts within an entry. */
  function Reach(off: nat, k: nat): nat {
    if k == 0 then 0 else k * MAX_PAYLOAD - off % 8
  }

  /** Request number `k` brings nothing: no more is wanted, it fails, or no region is left. */
  ghost predicate BringsNothing(sp: Space, off: nat, n: nat, rc: nat -> int, k: nat) {
    || Reach(off, k) >= n || rc(k) != 0
    || FirstAt(sp.regions, (off + Reach(off, k)) / 8 * sp.pageSize % TWO64, 0) == |sp.regions|
  }

  ghost predicate AllBring(sp: Space, off: nat, n: nat, rc: nat -> int, k: nat) {
    forall j: nat :: j < k ==> !BringsNothing(sp, off, n, rc, j)
  }

  /** Where the read stands after `k` answers. */
  lemma Reached(off: nat, k: nat)
    ensures var pos := off + Reach(off, k);
      && Reach(off, k + 1) == Reach(off, k) + MAX_PAYLOAD - pos % 8
      && (k > 0 ==> pos % 8 == 0)
  {
  }

  /** procfs_dopagemap: `n` bytes at file offset `off`, out of that many answers. */
  method ReadPagemap(sp: Space, off: nat, n: nat, rc: nat -> int)
    returns (data: seq<Byte>, error: int, requests: nat)
    requires SpaceOk(sp)
    ensures |data| <= n && Holds(sp, off, data)
    ensures AllBring(sp, off, n, rc, requests) && BringsNothing(sp, off, n, rc, requests)
    ensures |data| == Min(n, Reach(off, requests))
    ensures (forall k: nat :: rc(k) == 0) ==>
      error == 0
      && (|data| < n ==>
            FirstAt(sp.regions, (off + |data|) / 8 * sp.pageSize % TWO64, 0) == |sp.regions|)
    ensures error == if n > 0 && rc(0) != 0 then NoDaemonErrno(rc(0)) else 0
  {
    data, error, requests := [], 0, 0;
    while |data| < n
      invariant |data| <= n && Holds(sp, off, data) && error == 0
      invariant requests > 0 <==> data != []
      invariant requests > 0 ==> rc(0) == 0
      invariant |data| == Min(n, Reach(off, requests))
      invariant AllBring(sp, off, n, rc, requests)
      decreases n - |data|
    {
      var pos := off + |data|;
      var start := pos / 8 * sp.pageSize % TWO64;
      var byteIn := pos % 8;
      var e := rc(requests);
      if e != 0 {
        if requests == 0 {
          error := NoDaemonErrno(e);
        }
        return;
      }
      var buf := ServePagemap(sp, start, pos / 8);
      if |buf| <= byteIn {
        return;                         // past the last region
      }
      Reached(off, requests);
      requests := requests + 1;
      var resid := n - |data|;
      var avail := |buf| - byteIn;
      var move := if avail < resid then avail else resid;
      Extend(sp, off, data, buf, byteIn, move);
      data := data + buf[byteIn..byteIn + move];
    }
  }

  lemma Extend(sp: Space, off: nat, data: seq<Byte>, buf: seq<Byte>, byteIn: nat, move: nat)
    requires Holds(sp, off, data) && byteIn == (off + |data|) % 8 && byteIn + move <= |buf|
    requires Holds(sp, (off + |data|) / 8 * 8, buf)
    ensures Holds(sp, off, data + buf[byteIn..byteIn + move])
  {
    var pos := off + |data|;
    var d := data + buf[byteIn..byteIn + move];
    forall o: nat | off <= o < off + |d| && InSpace(sp, o) ensures d[o - off] == Content(sp, o) {
      if o >= pos {
        assert d[o - off] == buf[byteIn + (o - pos)];
        assert byteIn + (o - pos) == o - pos / 8 * 8;
      }
    }
  }

  /** Reading stops only where no page is mapped any more. */
  lemma NothingMappedAfter(rs: seq<Region>, start: nat, va: nat)
    requires RegionsOk(rs) && FirstAt(rs, start, 0) == |rs| && start <= va
    ensures !Mapped(rs, va)
  {
    FirstAtSpec(rs, start, 0);
  }

  /** Any two reads that cover the same offset agree on it, wherever they start and however long. */
  lemma ReadsAgree(sp: Space, off1: nat, data1: seq<Byte>, off2: nat, data2: seq<Byte>, o: nat)
    requires Holds(sp, off1, data1) && Holds(sp, off2, data2) && InSpace(sp, o)
    requires off1 <= o < off1 + |data1| && off2 <= o < off2 + |data2|
    ensures data1[o - off1] == data2[o - off2]
  {
    assert data1[o - off1] == Content(sp, o) == data2[o - off2];
  }
}
