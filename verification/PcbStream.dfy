/**
 The socket table behind /proc/net/{tcp,tcp6,udp,udp6} (tools/procfsd.c, build_net_pcb_blob): a
 stream of length-tagged blocks padded to 8 bytes, between two xinpgen headers
 (tools/net_pcb_abi.h), is folded into one row per matching socket.

 A row is kept as its column values; printing them is not modelled. Bytes behind the stream lie in the
 rest of a buffer that is allocated larger than needed and not cleared, so that a field read there has
 an arbitrary value; a row with such a field is the row `Wild` here.
 */
module PcbStream {
  import opened Common

  // Block kinds.
  const XSO_SOCKET: int := 0x001
  const XSO_RCVBUF: int := 0x002
  const XSO_SNDBUF: int := 0x004
  const XSO_STATS: int := 0x008
  const XSO_INPCB: int := 0x010
  const XSO_TCPCB: int := 0x020

  /** sizeof(struct procfs_xinpgen) */
  const XINPGEN_SIZE: nat := 24

  /** PROCFS_ROUNDUP64 of a uint32_t: the addition wraps at 32 bits. */
  function RoundUp(x: U32): nat {
    (x + 7) % TWO32 / 8 * 8
  }

  // ----- reading fields; -1 stands for a read outside the bytes -----

  function Field8(b: seq<Byte>, at: nat): int {
    if at < |b| then b[at] else -1
  }

  /** A port in network order, as ntohs yields it. */
  function Port(b: seq<Byte>, at: nat): int {
    if at + 2 <= |b| then 0x100 * (b[at] as int) + b[at + 1] else -1
  }

  function Word(b: seq<Byte>, at: nat): int {
    if at + 4 <= |b| then
      (b[at] as int) + 0x100 * (b[at + 1] as int) + 0x1_0000 * (b[at + 2] as int) + 0x100_0000 * (b[at + 3] as int)
    else -1
  }

  datatype Address = V4(w: int) | V6(w0: int, w1: int, w2: int, w3: int)

  function Words4(b: seq<Byte>, at: nat): Address {
    V6(Word(b, at), Word(b, at + 4), Word(b, at + 8), Word(b, at + 12))
  }

  /** The IPv4 address is the last word of the IPv6 field. */
  function Narrow(a: Address, v6: bool): Address {
    if v6 || a.V4? then a else V4(a.w3)
  }

  predicate InStream(a: Address) {
    match a
    case V4(w) => w >= 0
    case V6(w0, w1, w2, w3) => w0 >= 0 && w1 >= 0 && w2 >= 0 && w3 >= 0
  }

  // ----- rows -----

  /** Which of the four files is being built. */
  datatype Query = Query(v6: bool, tcp: bool)

  datatype Row =
    | Row(sl: nat, local: Address, lport: int, foreign: Address, fport: int, st: int, txq: int, rxq: int, uid: int)
    | Wild

  /** What a row is made of, gathered from the blocks of one socket. */
  datatype Facts = Facts(vflag: int, lport: int, fport: int, local: Address, foreign: Address,
                         uid: int, txq: int, rxq: int, state: int)

  /** macOS TCPS_* to Linux TCP_*. */
  function LinuxState(ts: int): int {
    if 0 <= ts < 11 then [7, 10, 2, 3, 1, 8, 4, 11, 9, 5, 6][ts] else 0
  }

  predicate Matches(vflag: int, q: Query)
    requires vflag >= 0
  {
    if q.v6 then vflag / 2 % 2 == 1 else vflag % 2 == 1
  }

  predicate Readable(f: Facts, q: Query) {
    && f.lport >= 0 && f.fport >= 0 && InStream(f.local) && InStream(f.foreign)
    && f.uid >= 0 && f.txq >= 0 && f.rxq >= 0 && (q.tcp ==> f.state >= 0)
  }

  /** EMIT_RECORD: no row, or one. */
  function Emit(f: Option<Facts>, q: Query, sl: nat): (rows: seq<Row>)
    ensures |rows| <= 1
  {
    match f
    case None => []
    case Some(f) =>
      if f.vflag < 0 then [Wild]
      else if !Matches(f.vflag, q) then []
      else if !Readable(f, q) then [Wild]
      else
        var st := if q.tcp then LinuxState(f.state) else if f.fport != 0 then 1 else 7;
        [Row(sl, Narrow(f.local, q.v6), f.lport, Narrow(f.foreign, q.v6), f.fport, st, f.txq, f.rxq, f.uid)]
  }

  /** The blocks seen since the last inpcb block, as positions in the stream or as their bytes. */
  datatype Current<T> = Current(inp: Option<T>, sock: Option<T>, tcb: Option<T>, rcv: Option<T>, snd: Option<T>)

  function Nothing<T>(): Current<T> {
    Current(None, None, None, None, None)
  }

  predicate Known(kind: int) {
    kind == XSO_SOCKET || kind == XSO_RCVBUF || kind == XSO_SNDBUF || kind == XSO_STATS || kind == XSO_INPCB
    || kind == XSO_TCPCB
  }

  /** The switch on the block kind. */
  function Noted<T>(cur: Current<T>, kind: int, x: T): Current<T> {
    if kind == XSO_INPCB then Current(Some(x), None, None, None, None)
    else if kind == XSO_SOCKET then cur.(sock := Some(x))
    else if kind == XSO_RCVBUF then cur.(rcv := Some(x))
    else if kind == XSO_SNDBUF then cur.(snd := Some(x))
    else if kind == XSO_TCPCB then cur.(tcb := Some(x))
    else cur
  }

  /** Facts read through the recorded positions, at the offsets of the ABI structures. */
  function Gather(b: seq<Byte>, cur: Current<nat>): Option<Facts> {
    match cur.inp
    case None => None
    case Some(p) =>
      Some(Facts(Field8(b, p + 44), Port(b, p + 18), Port(b, p + 16), Words4(b, p + 64), Words4(b, p + 48),
                 if cur.sock.Some? then Word(b, cur.sock.value + 64) else 0,
                 if cur.snd.Some? then Word(b, cur.snd.value + 8) else 0,
                 if cur.rcv.Some? then Word(b, cur.rcv.value + 8) else 0,
                 if cur.tcb.Some? then Word(b, cur.tcb.value + 36) else 0))
  }

  /** Bytes to the next block when the walk goes on past position `p`, else 0. */
  function Advance(b: seq<Byte>, p: nat): (adv: nat)
    ensures p + adv <= |b| || adv == 0
  {
    if p + 8 > |b| || Word(b, p) < 8 then 0
    else
      var adv := RoundUp(Word(b, p));
      if p + adv > |b| || !Known(Word(b, p + 4)) then 0 else adv
  }

  /** A block's kind and what stands for the block. */
  datatype Item<T> = Item(kind: int, at: T)

  /** The blocks that the walk visits from position `p` on. */
  function Walk(b: seq<Byte>, p: nat): seq<Item<nat>>
    decreases |b| - p
  {
    var adv := Advance(b, p);
    if adv == 0 then [] else [Item(Word(b, p + 4), p)] + Walk(b, p + adv)
  }

  /** Whatever the bytes, every block that the walk visits announces at least its own header and lies within
      the stream, and the walk only moves forward. */
  lemma {:induction false} VisitedInside(b: seq<Byte>, p: nat, i: nat)
    requires i < |Walk(b, p)|
    ensures var at := Walk(b, p)[i].at;
            && p <= at && at + 8 <= |b| && 8 <= Word(b, at) && at + RoundUp(Word(b, at)) <= |b|
            && Walk(b, p)[i].kind == Word(b, at + 4)
            && (i > 0 ==> Walk(b, p)[i - 1].at < at)
    decreases |b| - p
  {
    if i > 0 {
      VisitedInside(b, p + Advance(b, p), i - 1);
    }
  }

  /** The blocks of each record: an inpcb block closes the record before it, the end the last one. */
  function Groups<T>(items: seq<Item<T>>, cur: Current<T>): seq<Current<T>> {
    if items == [] then [cur]
    else
      var next := Noted(cur, items[0].kind, items[0].at);
      if items[0].kind == XSO_INPCB then [cur] + Groups(items[1..], next) else Groups(items[1..], next)
  }

  function Gathered(b: seq<Byte>, cs: seq<Current<nat>>): seq<Option<Facts>> {
    if cs == [] then [] else [Gather(b, cs[0])] + Gathered(b, cs[1..])
  }

  /** One row for every record that matches, numbered from `sl`. */
  function Rows(fs: seq<Option<Facts>>, q: Query, sl: nat): seq<Row> {
    if fs == [] then []
    else
      var e := Emit(fs[0], q, sl);
      e + Rows(fs[1..], q, sl + |e|)
  }

  function ParseFrom(b: seq<Byte>, p: nat, cur: Current<nat>, q: Query, sl: nat): seq<Row> {
    Rows(Gathered(b, Groups(Walk(b, p), cur)), q, sl)
  }

  function Parse(b: seq<Byte>, q: Query): seq<Row> {
    if |b| < XINPGEN_SIZE then [] else ParseFrom(b, RoundUp(Word(b, 0)), Nothing(), q, 0)
  }

  /** The loop condition and the three ways out of the loop body. */
  method Next(b: seq<Byte>, p: nat) returns (adv: nat)
    ensures adv == Advance(b, p)
  {
    if p + 8 > |b| {
      return 0;
    }
    var blen, kind := Word(b, p), Word(b, p + 4);
    if blen < 8 {
      return 0;                       // too short for its own header
    }
    adv := RoundUp(blen);
    if p + adv > |b| {
      return 0;
    }
    if !Known(kind) {
      return 0;                       // no block, so the trailer
    }
  }

  method Note(cur: Current<nat>, kind: int, p: nat) returns (next: Current<nat>)
    requires Known(kind)
    ensures next == Noted(cur, kind, p)
  {
    next := cur;
    if kind == XSO_INPCB {
      next := Current(Some(p), None, None, None, None);
    } else if kind == XSO_SOCKET {
      next := next.(sock := Some(p));
    } else if kind == XSO_RCVBUF {
      next := next.(rcv := Some(p));
    } else if kind == XSO_SNDBUF {
      next := next.(snd := Some(p));
    } else if kind == XSO_TCPCB {
      next := next.(tcb := Some(p));
    }
  }

  function Flushed(b: seq<Byte>, p: nat, cur: Current<nat>, q: Query, sl: nat): seq<Row> {
    if Word(b, p + 4) == XSO_INPCB then Emit(Gather(b, cur), q, sl) else []
  }

  /** One turn of the walk moves what it flushes to the rows already built. */
  lemma ParseStep(rows: seq<Row>, b: seq<Byte>, p: nat, cur: Current<nat>, q: Query, sl: nat)
    requires Advance(b, p) != 0
    ensures var row := Flushed(b, p, cur, q, sl);
      rows + ParseFrom(b, p, cur, q, sl)
      == (rows + row) + ParseFrom(b, p + Advance(b, p), Noted(cur, Word(b, p + 4), p), q, sl + |row|)
  {
    var p' := p + Advance(b, p);
    var w, w' := Walk(b, p), Walk(b, p');
    assert w[1..] == w';
    var gs, gs' := Groups(w, cur), Groups(w', Noted(cur, Word(b, p + 4), p));
    if Word(b, p + 4) == XSO_INPCB {
      assert gs == [cur] + gs' && gs[1..] == gs';
      assert gs[0] == cur;
      var fs, fs' := Gathered(b, gs), Gathered(b, gs');
      assert fs == [Gather(b, cur)] + fs';
      assert fs[1..] == fs';
    }
  }

  lemma ParseEnd(b: seq<Byte>, p: nat, cur: Current<nat>, q: Query, sl: nat)
    requires Advance(b, p) == 0
    ensures ParseFrom(b, p, cur, q, sl) == Emit(Gather(b, cur), q, sl)
  {
    var gs := Groups(Walk(b, p), cur);
    assert gs == [cur];
    assert gs[0] == cur && gs[1..] == [];
    var fs := Gathered(b, gs);
    assert fs == [Gather(b, cur)] + Gathered(b, []);
    assert fs[1..] == [];
    var e := Emit(fs[0], q, sl);
    assert Rows(fs[1..], q, sl + |e|) == [];
  }

  /** The rows built and those still to come make up the whole table. */
  ghost predicate Left(all: seq<Row>, rows: seq<Row>, b: seq<Byte>, p: nat, cur: Current<nat>, q: Query, sl: nat) {
    all == rows + ParseFrom(b, p, cur, q, sl)
  }

  lemma NothingBuilt(b: seq<Byte>, p: nat, cur: Current<nat>, q: Query, sl: nat)
    ensures Left(ParseFrom(b, p, cur, q, sl), [], b, p, cur, q, sl)
  {
  }

  /** One block: the row that it flushes and the blocks noted so far. */
  method NoteBlock(b: seq<Byte>, p: nat, cur: Current<nat>, q: Query, sl: nat,
                   ghost all: seq<Row>, ghost rows: seq<Row>)
    returns (row: seq<Row>, next: Current<nat>)
    requires Left(all, rows, b, p, cur, q, sl) && Advance(b, p) != 0
    ensures Left(all, rows + row, b, p + Advance(b, p), next, q, sl + |row|)
  {
    ParseStep(rows, b, p, cur, q, sl);
    var kind := Word(b, p + 4);
    row := [];
    if kind == XSO_INPCB {
      row := Emit(Gather(b, cur), q, sl);
    }
    next := Note(cur, kind, p);
  }

  /** Where the walk is: the position, the blocks noted so far and the rows built. */
  datatype Place = Place(p: nat, cur: Current<nat>, rows: seq<Row>, sl: nat)

  /** One turn of the loop: note the block and go on behind it. */
  method Turn(b: seq<Byte>, at: Place, q: Query, adv: nat, ghost all: seq<Row>) returns (next: Place)
    requires Left(all, at.rows, b, at.p, at.cur, q, at.sl) && adv == Advance(b, at.p) != 0
    ensures Left(all, next.rows, b, next.p, next.cur, q, next.sl) && at.p < next.p <= |b|
  {
    var row, cur := NoteBlock(b, at.p, at.cur, q, at.sl, all, at.rows);
    next := Place(at.p + adv, cur, at.rows + row, at.sl + |row|);
  }

  /** The last record, which no further block flushes. */
  method Flush(b: seq<Byte>, p: nat, cur: Current<nat>, q: Query, sl: nat, ghost all: seq<Row>, ghost rows: seq<Row>)
    returns (row: seq<Row>)
    requires Left(all, rows, b, p, cur, q, sl) && Advance(b, p) == 0
    ensures rows + row == all
  {
    ParseEnd(b, p, cur, q, sl);
    row := Emit(Gather(b, cur), q, sl);
  }

  /** The loop over the blocks from position `start` on, and the last record behind it. */
  method WalkBlocks(b: seq<Byte>, start: nat, none: Current<nat>, q: Query, first: nat) returns (rows: seq<Row>)
    ensures rows == ParseFrom(b, start, none, q, first)
  {
    ghost var all := ParseFrom(b, start, none, q, first);
    NothingBuilt(b, start, none, q, first);
    var at := Place(start, none, [], first);
    var adv := Next(b, at.p);
    while adv != 0
      invariant Left(all, at.rows, b, at.p, at.cur, q, at.sl) && adv == Advance(b, at.p)
      decreases |b| - at.p
    {
      at := Turn(b, at, q, adv, all);
      adv := Next(b, at.p);
    }
    var row := Flush(b, at.p, at.cur, q, at.sl, all, at.rows);
    rows := at.rows + row;
  }

  /** build_net_pcb_blob's walk, as the daemon runs it. */
  method BuildRows(b: seq<Byte>, q: Query) returns (rows: seq<Row>)
    ensures rows == Parse(b, q)
  {
    rows := [];
    if |b| >= XINPGEN_SIZE {
      rows := WalkBlocks(b, RoundUp(Word(b, 0)), Nothing(), q, 0);
    }
  }
}
