/**
 Reading a directory in pieces (kext/procfs_vnops.c, procfs_vnop_readdir). Every call walks the
 structure children from the first one, adding up packed entry sizes, and copies out only entries
 at or past the caller's offset until one does not fit.

 uiomove is taken not to fault.
 */
module Readdir {
  import opened Common

  /** sizeof(struct direntry) less its name array: 21 bytes of fields padded to 24. */
  const DIRENT_FIXED: nat := 24

  datatype Entry = Entry(kind: int, fileId: nat, name: string)

  /** What is copied out for one entry. */
  datatype Dirent = Dirent(fileId: nat, seekOffset: nat, recordLength: nat, kind: int, name: string)

  /** A structure child as readdir meets it. */
  datatype Child =
    | Skipped                          // hidden by the spoofed release, or not accessible to the caller
    | Plain(entry: Entry)
    | Processes(list: seq<Entry>)      // expands to the visible processes
    | PerProcess(list: seq<Entry>)     // expands to the threads or descriptors of the process
    | Broken(errno: int)               // the process is gone, or its threads cannot be listed

  predicate Dynamic(c: Child) {
    c.Processes? || c.PerProcess? || c.Broken?
  }

  /** procfs_calc_dirent_size: the name with its NUL, rounded up to a multiple of 8. */
  function DirentSize(name: string): (n: nat)
    ensures n >= DIRENT_FIXED + |name| + 1 && n % 8 == 0 && n < DIRENT_FIXED + |name| + 9
  {
    DIRENT_FIXED + (|name| + 1 + 7) / 8 * 8
  }

  /** Directory offset of entry number `k`: the sizes of the entries before it. */
  function Offset(es: seq<Entry>, k: nat): nat
    requires k <= |es|
  {
    if k == 0 then 0 else Offset(es, k - 1) + DirentSize(es[k - 1].name)
  }

  function DirentOf(es: seq<Entry>, k: nat): Dirent
    requires k < |es|
  {
    Dirent(es[k].fileId, Offset(es, k + 1), DirentSize(es[k].name), es[k].kind, es[k].name)
  }

  function Dirents(es: seq<Entry>, from: nat, to: nat): (ds: seq<Dirent>)
    requires from <= to <= |es|
    ensures |ds| == to - from
  {
    seq(to - from, i requires 0 <= i < to - from => DirentOf(es, from + i))
  }

  /** First entry at or past the offset `start`, looking from entry `k` on. */
  function From(es: seq<Entry>, k: nat, start: nat): (i: nat)
    requires k <= |es|
    ensures k <= i <= |es|
    ensures forall j :: k <= j < i ==> Offset(es, j) < start
    ensures i < |es| ==> Offset(es, i) >= start
    decreases |es| - k
  {
    if k == |es| || Offset(es, k) >= start then k else From(es, k + 1, start)
  }

  /** First entry from `k` on that no longer fits when `room` bytes are left after skipping to `start`. */
  function Stop(es: seq<Entry>, k: nat, start: nat, room: nat): (j: nat)
    requires k <= |es|
    ensures k <= j <= |es|
    decreases |es| - k
  {
    if k == |es| then k
    else if Offset(es, k) < start then Stop(es, k + 1, start, room)
    else if DirentSize(es[k].name) <= room then Stop(es, k + 1, start, room - DirentSize(es[k].name))
    else k
  }

  /** The entries of a directory, up to and including the first child that expands. */
  function Listed(cs: seq<Child>): seq<Entry> {
    if cs == [] then []
    else match cs[0]
      case Skipped => Listed(cs[1..])
      case Plain(e) => [e] + Listed(cs[1..])
      case Processes(l) => l
      case PerProcess(l) => l
      case Broken(_) => []
  }

  /** Where the caller's buffer and position are kept; copying out is recorded in `out`. */
  class Uio {
    var offset: nat
    var room: nat
    var out: seq<Dirent>

    constructor (offset: nat, room: nat)
      ensures this.offset == offset && this.room == room && out == []
    {
      this.offset, this.room, this.out := offset, room, [];
    }
  }

  /** procfs_copyout_dirent: the size written, or 0 when the entry does not fit. */
  method CopyOut(e: Entry, size: nat, seekOffset: nat, uio: Uio) returns (written: nat)
    modifies uio
    ensures uio.offset == old(uio.offset)
    ensures size <= old(uio.room) ==>
      written == size && uio.room == old(uio.room) - size
      && uio.out == old(uio.out) + [Dirent(e.fileId, seekOffset, size, e.kind, e.name)]
    ensures size > old(uio.room) ==> written == 0 && uio.room == old(uio.room) && uio.out == old(uio.out)
  {
    if size <= uio.room {
      uio.out := uio.out + [Dirent(e.fileId, seekOffset, size, e.kind, e.name)];
      uio.room := uio.room - size;
      written := size;
    } else {
      written := 0;
    }
  }

  /** Having consumed `k` of the entries `es`, the walk has `room` bytes left and wrote `out`. */
  ghost predicate Progress(es: seq<Entry>, k: nat, start: nat, room0: nat, room: nat,
                           out0: seq<Dirent>, out: seq<Dirent>)
  {
    && k <= |es|
    && (k > From(es, 0, start) ==> Offset(es, k) >= start)
    && out == out0 + Dirents(es, Min(From(es, 0, start), k), k)
    && Stop(es, k, start, room) == Stop(es, 0, start, room0)
    && (k <= From(es, 0, start) ==> room == room0)
  }

  lemma {:induction false} OffsetMonotone(es: seq<Entry>, i: nat, j: nat)
    requires i < j <= |es|
    ensures Offset(es, i) < Offset(es, j)
  {
    if i < j - 1 { OffsetMonotone(es, i, j - 1); }
  }

  /** Consuming one more entry: skipped before `start`, written after it when it fits. */
  lemma ProgressSkip(es: seq<Entry>, k: nat, start: nat, room0: nat, room: nat, out0: seq<Dirent>, out: seq<Dirent>)
    requires Progress(es, k, start, room0, room, out0, out) && k < |es| && Offset(es, k) < start
    ensures Progress(es, k + 1, start, room0, room, out0, out)
  {
    assert k < From(es, 0, start);
  }

  lemma ProgressWrite(es: seq<Entry>, k: nat, start: nat, room0: nat, room: nat, out0: seq<Dirent>, out: seq<Dirent>)
    requires Progress(es, k, start, room0, room, out0, out) && k < |es| && Offset(es, k) >= start
    requires DirentSize(es[k].name) <= room
    ensures Progress(es, k + 1, start, room0, room - DirentSize(es[k].name), out0, out + [DirentOf(es, k)])
  {
    var i := From(es, 0, start);
    assert i <= k;
    assert Offset(es, k + 1) >= start by { OffsetMonotone(es, k, k + 1); }
    DirentsGrow(es, i, k);
    var d := Dirents(es, i, k);
    assert (out0 + d) + [DirentOf(es, k)] == out0 + (d + [DirentOf(es, k)]);
  }

  lemma DirentsGrow(es: seq<Entry>, i: nat, k: nat)
    requires i <= k < |es|
    ensures Dirents(es, i, k + 1) == Dirents(es, i, k) + [DirentOf(es, k)]
  {
    var a, b := Dirents(es, i, k + 1), Dirents(es, i, k) + [DirentOf(es, k)];
    forall j | 0 <= j < |a| ensures a[j] == b[j] {
      if j < k - i { assert b[j] == DirentOf(es, i + j); }
    }
  }

  lemma {:induction false} StopAfterFrom(es: seq<Entry>, k: nat, start: nat, room: nat)
    requires k <= |es|
    ensures From(es, k, start) <= Stop(es, k, start, room)
    decreases |es| - k
  {
    if k < |es| && Offset(es, k) < start { StopAfterFrom(es, k + 1, start, room); }
  }

  /** The first child that expands, if any. */
  function Expanding(cs: seq<Child>): Option<Child> {
    if cs == [] then None else if Dynamic(cs[0]) then Some(cs[0]) else Expanding(cs[1..])
  }

  /** What the structure tree guarantees: only the last child of a directory expands. */
  predicate DynamicLast(cs: seq<Child>) {
    forall c :: 0 <= c < |cs| - 1 ==> !Dynamic(cs[c])
  }

  lemma {:induction false} ListedSplit(cs: seq<Child>, c: nat)
    requires c <= |cs| && forall d :: 0 <= d < c ==> !Dynamic(cs[d])
    ensures Listed(cs) == Listed(cs[..c]) + Listed(cs[c..])
    ensures Expanding(cs) == Expanding(cs[c..])
  {
    if c > 0 {
      ListedSplit(cs[1..], c - 1);
      assert cs[1..][..c - 1] == cs[..c][1..];
      assert cs[1..][c - 1..] == cs[c..];
    } else {
      assert cs[..0] == [] && cs[0..] == cs;
    }
  }

  lemma {:induction false} ListedSnoc(cs: seq<Child>, c: nat)
    requires c < |cs| && forall d :: 0 <= d <= c ==> !Dynamic(cs[d])
    ensures Listed(cs[..c + 1]) == Listed(cs[..c]) + (if cs[c].Plain? then [cs[c].entry] else [])
  {
    ListedSplit(cs[..c + 1], c);
    assert cs[..c + 1][..c] == cs[..c] && cs[..c + 1][c..] == [cs[c]];
    assert [cs[c]][1..] == [];
  }

  /** One entry: skipped when it lies before `start`, else copied out if it fits. */
  method EmitOne(e: Entry, start: nat, pos0: nat, uio: Uio,
                 ghost es: seq<Entry>, ghost k: nat, ghost room0: nat, ghost out0: seq<Dirent>)
    returns (pos: nat, n: nat, ok: bool)
    requires k < |es| && es[k] == e && pos0 == Offset(es, k)
    requires Progress(es, k, start, room0, uio.room, out0, uio.out)
    modifies uio
    ensures uio.offset == old(uio.offset) && n == |uio.out| - |old(uio.out)|
    ensures ok ==> Progress(es, k + 1, start, room0, uio.room, out0, uio.out) && pos == Offset(es, k + 1)
    ensures !ok ==> Progress(es, k, start, room0, uio.room, out0, uio.out) && pos == pos0
                    && Stop(es, 0, start, room0) == k
  {
    var size := DirentSize(e.name);
    n, ok := 0, true;
    if pos0 >= start {
      ghost var room, out := uio.room, uio.out;
      size := CopyOut(e, size, pos0 + size, uio);
      if size == 0 {
        return pos0, 0, false;
      }
      ProgressWrite(es, k, start, room0, room, out0, out);
      n := 1;
    } else {
      ProgressSkip(es, k, start, room0, uio.room, out0, uio.out);
    }
    pos := pos0 + size;
  }

  /** The loop over the entries of a child that expands. */
  method EmitList(list: seq<Entry>, start: nat, pos0: nat, uio: Uio,
                  ghost es: seq<Entry>, ghost k0: nat, ghost room0: nat, ghost out0: seq<Dirent>)
    returns (pos: nat, n: nat, all: bool)
    requires k0 <= |es| && list == es[k0..] && pos0 == Offset(es, k0)
    requires Progress(es, k0, start, room0, uio.room, out0, uio.out)
    modifies uio
    ensures uio.offset == old(uio.offset) && n == |uio.out| - |old(uio.out)|
    ensures var j := Stop(es, 0, start, room0);
      && Progress(es, j, start, room0, uio.room, out0, uio.out)
      && pos == Offset(es, j) && all == (j == |es|)
  {
    pos, n := pos0, 0;
    for i := 0 to |list|
      invariant pos == Offset(es, k0 + i) && uio.offset == old(uio.offset)
      invariant Progress(es, k0 + i, start, room0, uio.room, out0, uio.out)
      invariant n == |uio.out| - |old(uio.out)|
    {
      var m, ok;
      pos, m, ok := EmitOne(list[i], start, pos, uio, es, k0 + i, room0, out0);
      if !ok {
        return pos, n, false;
      }
      n := n + m;
    }
    all := true;
  }

  /** When no room is left the walk is where it must stop. */
  lemma NoRoomStops(es: seq<Entry>, k: nat, start: nat, room0: nat, out0: seq<Dirent>, out: seq<Dirent>)
    requires Progress(es, k, start, room0, 0, out0, out) && room0 > 0
    ensures k == Stop(es, 0, start, room0)
  {
    assert Offset(es, k) >= start;
  }

  /** The next child contributes the next entry, or nothing. */
  lemma NextListed(cs: seq<Child>, c: nat)
    requires c < |cs| && forall d :: 0 <= d < c ==> !Dynamic(cs[d])
    ensures var k := |Listed(cs[..c])|;
      && k <= |Listed(cs)| && Expanding(cs) == Expanding(cs[c..])
      && (cs[c].Plain? ==> k < |Listed(cs)| && Listed(cs)[k] == cs[c].entry)
      && (!Dynamic(cs[c]) ==> |Listed(cs[..c + 1])| == k + (if cs[c].Plain? then 1 else 0))
      && (Dynamic(cs[c]) ==> Expanding(cs) == Some(cs[c]))
      && (cs[c].Processes? || cs[c].PerProcess? ==> Listed(cs)[k..] == cs[c].list)
      && (cs[c].Broken? ==> Listed(cs)[k..] == [])
  {
    ListedSplit(cs, c);
    assert cs[c..][1..] == cs[c + 1..];
    if !Dynamic(cs[c]) { ListedSnoc(cs, c); }
  }

  lemma AllListed(cs: seq<Child>)
    requires forall d :: 0 <= d < |cs| ==> !Dynamic(cs[d])
    ensures Expanding(cs) == None
  {
    ListedSplit(cs, |cs|);
  }

  /** How a walk over the children ends that stopped before entry `j` with `room` bytes left: it is
      past the last child only if every entry is out, and it gets there if it has room left and
      nothing but processes expands, last. */
  ghost predicate Ended(cs: seq<Child>, past: bool, error: int, j: nat, room: nat) {
    && (error != 0 ==> Expanding(cs) == Some(Broken(error)))
    && (past ==> j == |Listed(cs)| && error == 0
                      && (Expanding(cs).None? || Expanding(cs).value.Processes?))
    && (j == |Listed(cs)| && room > 0 ==>
          match Expanding(cs)
          case None => past
          case Some(Processes(_)) => DynamicLast(cs) ==> past
          case Some(Broken(e)) => error == e
          case Some(_) => true)
  }

  /** The walk reached entry `k`, at position `pos`. */
  ghost predicate Position(es: seq<Entry>, k: nat, pos: nat, start: nat, room0: nat, room: nat,
                           out0: seq<Dirent>, out: seq<Dirent>)
  {
    k <= |es| && pos == Offset(es, k) && Progress(es, k, start, room0, room, out0, out)
  }

  /** One child: whether the walk ends here, and whether this child is behind it. */
  method Visit(cs: seq<Child>, c: nat, start: nat, pos0: nat, uio: Uio, ghost room0: nat, ghost out0: seq<Dirent>)
    returns (pos: nat, n: nat, stop: bool, past: bool, error: int)
    requires c < |cs| && uio.room > 0 && forall d :: 0 <= d < c ==> !Dynamic(cs[d])
    requires Position(Listed(cs), |Listed(cs[..c])|, pos0, start, room0, uio.room, out0, uio.out)
    modifies uio
    ensures uio.offset == old(uio.offset) && n == |uio.out| - |old(uio.out)|
    ensures !stop ==> past && error == 0 && !Dynamic(cs[c])
    ensures !stop ==> Position(Listed(cs), |Listed(cs[..c + 1])|, pos, start, room0, uio.room, out0, uio.out)
    ensures stop ==> Finished(cs, past && c == |cs| - 1, error, pos, start, room0, uio.room, out0, uio.out)
  {
    NextListed(cs, c);
    ghost var es, k := Listed(cs), |Listed(cs[..c])|;
    pos, n, stop, past, error := pos0, 0, false, true, 0;
    match cs[c] {
      case Skipped =>
      case Plain(e) =>
        var ok;
        pos, n, ok := EmitOne(e, start, pos, uio, es, k, room0, out0);
        stop, past := !ok, ok;
      case Processes(list) =>
        pos, n, past := EmitList(list, start, pos, uio, es, k, room0, out0);
        stop := true;
      case PerProcess(list) =>
        var all;
        pos, n, all := EmitList(list, start, pos, uio, es, k, room0, out0);
        stop, past := true, false;
      case Broken(e) =>
        stop, past, error := true, false, e;
    }
  }

  /** A walk from `start` with `room0` bytes ended at position `pos` with `room` bytes left. */
  ghost predicate Finished(cs: seq<Child>, past: bool, error: int, pos: nat, start: nat, room0: nat, room: nat,
                           out0: seq<Dirent>, out: seq<Dirent>)
  {
    var j := Stop(Listed(cs), 0, start, room0);
    Position(Listed(cs), j, pos, start, room0, room, out0, out) && Ended(cs, past, error, j, room)
  }

  /** The loop of procfs_vnop_readdir: the position reached, the entries written, and the child it stopped at. */
  method WalkChildren(cs: seq<Child>, uio: Uio) returns (pos: nat, n: nat, c: nat, error: int)
    modifies uio
    ensures uio.offset == old(uio.offset) && n == |uio.out| - |old(uio.out)| && c <= |cs|
    ensures old(uio.room) == 0 ==> uio.out == old(uio.out) && pos == 0 && c == 0 && error == 0
    ensures old(uio.room) > 0 ==>
      Finished(cs, c == |cs|, error, pos, old(uio.offset), old(uio.room), uio.room, old(uio.out), uio.out)
  {
    pos, n, c, error := 0, 0, 0, 0;
    var start := uio.offset;
    ghost var room0, out0 := uio.room, uio.out;
    var stop := false;
    while !stop && c < |cs| && uio.room > 0
      invariant 0 <= c <= |cs| && uio.offset == start && n == |uio.out| - |out0|
      invariant room0 == 0 ==> pos == 0 && c == 0 && !stop && uio.room == 0 && uio.out == out0
      invariant !stop ==> error == 0 && forall d :: 0 <= d < c ==> !Dynamic(cs[d])
      invariant !stop ==> Position(Listed(cs), |Listed(cs[..c])|, pos, start, room0, uio.room, out0, uio.out)
      invariant stop ==> Finished(cs, c == |cs|, error, pos, start, room0, uio.room, out0, uio.out)
      decreases !stop, |cs| - c
    {
      var m, past;
      pos, m, stop, past, error := Visit(cs, c, start, pos, uio, room0, out0);
      n := n + m;
      if past {
        c := c + 1;
      }
    }
    if !stop && room0 > 0 {
      Exhausted(cs, c, pos, start, room0, uio.room, out0, uio.out);
    }
  }

  /** procfs_vnop_readdir over the children of one directory. */
  method ReadDirectory(cs: seq<Child>, uio: Uio) returns (error: int, eof: bool, n: nat)
    modifies uio
    ensures old(uio.room) == 0 ==>
      uio.out == old(uio.out) && uio.offset == 0 && n == 0 && error == 0 && eof == (cs == [])
    ensures old(uio.room) > 0 ==>
      && Finished(cs, eof, error, uio.offset, old(uio.offset), old(uio.room), uio.room, old(uio.out), uio.out)
      && n == |uio.out| - |old(uio.out)|
  {
    var pos, c;
    pos, n, c, error := WalkChildren(cs, uio);
    uio.offset := pos;
    eof := c == |cs|;
  }

  /** The walk ran out of room or of children without meeting one that ends it. */
  lemma Exhausted(cs: seq<Child>, c: nat, pos: nat, start: nat, room0: nat, room: nat,
                  out0: seq<Dirent>, out: seq<Dirent>)
    requires c <= |cs| && room0 > 0 && (c == |cs| || room == 0) && forall d :: 0 <= d < c ==> !Dynamic(cs[d])
    requires Position(Listed(cs), |Listed(cs[..c])|, pos, start, room0, room, out0, out)
    ensures Finished(cs, c == |cs|, 0, pos, start, room0, room, out0, out)
  {
    var es, k := Listed(cs), |Listed(cs[..c])|;
    if room == 0 { NoRoomStops(es, k, start, room0, out0, out); }
    if c == |cs| {
      AllListed(cs);
      assert cs[..c] == cs;
    }
  }

  lemma {:induction false} StopWithoutRoom(es: seq<Entry>, k: nat, start: nat)
    requires k <= |es|
    ensures Stop(es, k, start, 0) == From(es, k, start)
    decreases |es| - k
  {
    if k < |es| && Offset(es, k) < start { StopWithoutRoom(es, k + 1, start); }
  }

  lemma NothingWithoutRoom(es: seq<Entry>, k: nat, start: nat, out0: seq<Dirent>, out: seq<Dirent>)
    requires Progress(es, k, start, 0, 0, out0, out)
    ensures k <= From(es, 0, start) && out == out0
    ensures k == Stop(es, 0, start, 0) ==> k == From(es, 0, start)
  {
    StopWithoutRoom(es, 0, start);
  }

  /** procfs_sysctl_readdir: the two dot entries and then the child oids, in the order of `es`. */
  method ReadSysctlDirectory(es: seq<Entry>, uio: Uio) returns (eof: bool, n: nat)
    requires |es| >= 2
    modifies uio
    ensures old(uio.room) > 0 ==>
      var j := Stop(es, 0, old(uio.offset), old(uio.room));
      && Position(es, j, uio.offset, old(uio.offset), old(uio.room), uio.room, old(uio.out), uio.out)
      && n == |uio.out| - |old(uio.out)|
      && (eof <==> j == |es| && uio.room > 0)
    ensures old(uio.room) == 0 ==>
      uio.out == old(uio.out) && n == 0 && !eof
      && uio.offset == Offset(es, Min(2, From(es, 0, old(uio.offset))))
  {
    var pos, start := 0, uio.offset;
    ghost var room0, out0 := uio.room, uio.out;
    n, eof := 0, false;
    var m, ok := 0, true;
    var k := 0;
    while ok && k < |es| && (k < 2 || uio.room > 0)
      invariant 0 <= k <= |es| && uio.offset == start && n == |uio.out| - |out0|
      invariant Position(es, k, pos, start, room0, uio.room, out0, uio.out)
      invariant !ok ==> k == Stop(es, 0, start, room0) && k < |es|
      invariant room0 == 0 ==> uio.room == 0 && k <= 2 && (!ok ==> k < 2)
      decreases ok, |es| - k
    {
      pos, m, ok := EmitOne(es[k], start, pos, uio, es, k, room0, out0);
      n := n + m;
      if ok {
        k := k + 1;
      }
    }
    if ok && uio.room == 0 && room0 > 0 { NoRoomStops(es, k, start, room0, out0, uio.out); }
    eof := ok && k == |es| && uio.room > 0;
    if room0 == 0 { NothingWithoutRoom(es, k, start, out0, uio.out); }
    uio.offset := pos;
  }

  // ----- reading a directory to its end -----

  /** Where a call with no room leaves the offset: the entries it can pass are the first `dots`. */
  function Rewound(es: seq<Entry>, dots: nat, pos: nat): nat {
    Offset(es, Min(dots, From(es, 0, pos)))
  }

  /** Output and final offset of one call per buffer, each resuming where the one before stopped. */
  function Calls(es: seq<Entry>, dots: nat, pos: nat, rooms: seq<nat>): (seq<Dirent>, nat)
    decreases |rooms|
  {
    if rooms == [] then ([], pos)
    else if rooms[0] == 0 then Calls(es, dots, Rewound(es, dots, pos), rooms[1..])
    else
      var i, j := From(es, 0, pos), Stop(es, 0, pos, rooms[0]);
      var rest := Calls(es, dots, Offset(es, j), rooms[1..]);
      ((if i <= j then Dirents(es, i, j) else []) + rest.0, rest.1)
  }

  /** Every buffer has room for the entry that comes next. */
  predicate BigEnough(es: seq<Entry>, pos: nat, rooms: seq<nat>)
    decreases |rooms|
  {
    rooms == [] ||
    (var i, j := From(es, 0, pos), Stop(es, 0, pos, rooms[0]);
     && rooms[0] > 0 && (i < |es| ==> DirentSize(es[i].name) <= rooms[0])
     && BigEnough(es, Offset(es, j), rooms[1..]))
  }

  /** Restarting at the offset of entry `k` finds entry `k`. */
  lemma FromOffset(es: seq<Entry>, k: nat)
    requires k <= |es|
    ensures From(es, 0, Offset(es, k)) == k
  {
    var i := From(es, 0, Offset(es, k));
    if i < k { OffsetMonotone(es, i, k); }
  }

  /** Restarting at the seek offset recorded in an entry resumes with exactly the entries after it. */
  lemma SeekOffsetResumes(es: seq<Entry>, k: nat)
    requires k < |es|
    ensures From(es, 0, DirentOf(es, k).seekOffset) == k + 1
  {
    FromOffset(es, k + 1);
  }

  lemma {:induction false} StopSkips(es: seq<Entry>, k: nat, start: nat, room: nat)
    requires k <= |es|
    ensures Stop(es, k, start, room) == Stop(es, From(es, k, start), start, room)
    decreases |es| - k
  {
    if k < |es| && Offset(es, k) < start { StopSkips(es, k + 1, start, room); }
  }

  /** Starting at any entry, calls whose buffers hold at least the next entry emit a contiguous run
      of entries in order, at least one a call until the directory is exhausted, and leave the
      offset at the first entry not emitted. */
  lemma {:induction false} CallsEmitRun(es: seq<Entry>, dots: nat, i: nat, rooms: seq<nat>) returns (j: nat)
    requires i <= |es| && BigEnough(es, Offset(es, i), rooms)
    ensures i <= j <= |es| && (j == |es| || j >= i + |rooms|)
    ensures Calls(es, dots, Offset(es, i), rooms) == (Dirents(es, i, j), Offset(es, j))
    decreases |rooms|
  {
    j := i;
    if rooms != [] {
      var pos := Offset(es, i);
      FromOffset(es, i);
      StopSkips(es, 0, pos, rooms[0]);
      var mid := Stop(es, 0, pos, rooms[0]);
      j := CallsEmitRun(es, dots, mid, rooms[1..]);
      DirentsJoin(es, i, mid, j);
    }
  }

  lemma DirentsJoin(es: seq<Entry>, i: nat, m: nat, j: nat)
    requires i <= m <= j <= |es|
    ensures Dirents(es, i, m) + Dirents(es, m, j) == Dirents(es, i, j)
  {
    var a, b := Dirents(es, i, m) + Dirents(es, m, j), Dirents(es, i, j);
    forall x | 0 <= x < |b| ensures a[x] == b[x] {
      assert b[x] == DirentOf(es, i + x);
      if x >= m - i { assert a[x] == Dirents(es, m, j)[x - (m - i)]; }
    }
  }

  /** Each entry is there once, in order, with its own number, type and name. */
  predicate AllOut(es: seq<Entry>, out: seq<Dirent>) {
    && |out| == |es|
    && forall k :: 0 <= k < |es| ==>
         out[k].fileId == es[k].fileId && out[k].kind == es[k].kind && out[k].name == es[k].name
  }

  /** From offset 0, as many calls as there are entries suffice, whatever the buffer sizes: every
      entry comes out exactly once, in order. */
  lemma WholeDirectory(es: seq<Entry>, dots: nat, rooms: seq<nat>)
    requires BigEnough(es, 0, rooms) && |rooms| >= |es|
    ensures Calls(es, dots, 0, rooms) == (Dirents(es, 0, |es|), Offset(es, |es|))
    ensures AllOut(es, Calls(es, dots, 0, rooms).0)
  {
    var j := CallsEmitRun(es, dots, 0, rooms);
  }

  /** One call of procfs_vnop_readdir for each buffer, each starting where the one before stopped. */
  method ReadInCalls(cs: seq<Child>, start: nat, rooms: seq<nat>) returns (out: seq<Dirent>, pos: nat)
    ensures (out, pos) == Calls(Listed(cs), 0, start, rooms)
    ensures start == 0 && BigEnough(Listed(cs), 0, rooms) && |rooms| >= |Listed(cs)| ==>
              out == Dirents(Listed(cs), 0, |Listed(cs)|) && AllOut(Listed(cs), out)
  {
    ghost var es := Listed(cs);
    out, pos := [], start;
    NoMoreCalls(es, 0, start, rooms);
    for i := 0 to |rooms|
      invariant CallsFrom(es, 0, start, rooms, i, out, pos)
    {
      var uio := new Uio(pos, rooms[i]);
      var error, eof, n := ReadDirectory(cs, uio);
      CallsNext(es, 0, start, rooms, i, out, pos, uio.out, uio.offset, uio.room);
      out, pos := out + uio.out, uio.offset;
    }
    AllCalls(es, 0, start, rooms, out, pos);
    if start == 0 && BigEnough(es, 0, rooms) && |rooms| >= |es| {
      WholeDirectory(es, 0, rooms);
    }
  }

  /** The same for a directory of the sysctl tree. */
  method ReadSysctlInCalls(es: seq<Entry>, start: nat, rooms: seq<nat>) returns (out: seq<Dirent>, pos: nat)
    requires |es| >= 2
    ensures (out, pos) == Calls(es, 2, start, rooms)
    ensures start == 0 && BigEnough(es, 0, rooms) && |rooms| >= |es| ==>
              out == Dirents(es, 0, |es|) && AllOut(es, out)
  {
    out, pos := [], start;
    NoMoreCalls(es, 2, start, rooms);
    for i := 0 to |rooms|
      invariant CallsFrom(es, 2, start, rooms, i, out, pos)
    {
      var uio := new Uio(pos, rooms[i]);
      var eof, n := ReadSysctlDirectory(es, uio);
      CallsNext(es, 2, start, rooms, i, out, pos, uio.out, uio.offset, uio.room);
      out, pos := out + uio.out, uio.offset;
    }
    AllCalls(es, 2, start, rooms, out, pos);
    if start == 0 && BigEnough(es, 0, rooms) && |rooms| >= |es| {
      WholeDirectory(es, 2, rooms);
    }
  }

  /** After `i` calls `out` was written and the offset is `pos`; the remaining calls complete it. */
  ghost predicate CallsFrom(es: seq<Entry>, dots: nat, start: nat, rooms: seq<nat>, i: nat,
                            out: seq<Dirent>, pos: nat)
  {
    && i <= |rooms|
    && var rest := Calls(es, dots, pos, rooms[i..]);
       Calls(es, dots, start, rooms) == (out + rest.0, rest.1)
  }

  lemma NoMoreCalls(es: seq<Entry>, dots: nat, start: nat, rooms: seq<nat>)
    ensures CallsFrom(es, dots, start, rooms, 0, [], start)
  {
    assert rooms[0..] == rooms;
    assert [] + Calls(es, dots, start, rooms).0 == Calls(es, dots, start, rooms).0;
  }

  lemma AllCalls(es: seq<Entry>, dots: nat, start: nat, rooms: seq<nat>, out: seq<Dirent>, pos: nat)
    requires CallsFrom(es, dots, start, rooms, |rooms|, out, pos)
    ensures Calls(es, dots, start, rooms) == (out, pos)
  {
    assert rooms[|rooms|..] == [];
    assert out + [] == out;
  }

  /** One call into a buffer of `size` bytes wrote this and left this offset and room. */
  ghost predicate CallLeaves(es: seq<Entry>, dots: nat, pos: nat, size: nat, wrote: seq<Dirent>, offset: nat, room: nat)
  {
    if size == 0 then wrote == [] && offset == Rewound(es, dots, pos)
    else Position(es, Stop(es, 0, pos, size), offset, pos, size, room, [], wrote)
  }

  /** One call, as `Calls` counts it. */
  lemma OneCall(es: seq<Entry>, dots: nat, pos: nat, rooms: seq<nat>, wrote: seq<Dirent>, offset: nat, room: nat)
    requires rooms != [] && CallLeaves(es, dots, pos, rooms[0], wrote, offset, room)
    ensures var rest := Calls(es, dots, offset, rooms[1..]); Calls(es, dots, pos, rooms) == (wrote + rest.0, rest.1)
  {
    if rooms[0] == 0 {
      assert [] + Calls(es, dots, offset, rooms[1..]).0 == Calls(es, dots, offset, rooms[1..]).0;
      return;
    }
    StopAfterFrom(es, 0, pos, rooms[0]);
    var d := Dirents(es, From(es, 0, pos), Stop(es, 0, pos, rooms[0]));
    assert wrote == [] + d == d;
  }

  lemma CallsNext(es: seq<Entry>, dots: nat, start: nat, rooms: seq<nat>, i: nat, out: seq<Dirent>, pos: nat,
                  wrote: seq<Dirent>, offset: nat, room: nat)
    requires i < |rooms| && CallsFrom(es, dots, start, rooms, i, out, pos)
    requires CallLeaves(es, dots, pos, rooms[i], wrote, offset, room)
    ensures CallsFrom(es, dots, start, rooms, i + 1, out + wrote, offset)
  {
    OneCall(es, dots, pos, rooms[i..], wrote, offset, room);
    assert rooms[i..][1..] == rooms[i + 1..];
    Joined(out, wrote, Calls(es, dots, offset, rooms[i + 1..]).0);
  }

  lemma Joined(a: seq<Dirent>, b: seq<Dirent>, c: seq<Dirent>)
    ensures a + (b + c) == (a + b) + c
  {
  }

  /** With only the last child expanding, what is listed is everything that any child contributes. */
  lemma {:induction false} NothingBehindDynamic(cs: seq<Child>)
    requires DynamicLast(cs)
    ensures Listed(cs) == Contributed(cs)
  {
    if cs != [] {
      if !Dynamic(cs[0]) {
        NothingBehindDynamic(cs[1..]);
      } else {
        assert cs[1..] == [];
      }
    }
  }

  function Contributed(cs: seq<Child>): seq<Entry> {
    if cs == [] then []
    else (match cs[0]
          case Plain(e) => [e]
          case Processes(l) => l
          case PerProcess(l) => l
          case _ => []) + Contributed(cs[1..])
  }
}
