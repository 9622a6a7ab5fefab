/**
 The socket table said column by column: which bytes of a socket's blocks each column of its row comes
 from (tools/procfsd.c, EMIT_RECORD, with the structures of tools/net_pcb_abi.h), and that the parser
 builds exactly that table.
 */
module PcbRows {
  import opened Common
  import opened PcbStream
  import opened PcbTheorems

  // Connection states, as macOS numbers them.
  const TCPS_CLOSED: int := 0
  const TCPS_LISTEN: int := 1
  const TCPS_SYN_SENT: int := 2
  const TCPS_SYN_RECEIVED: int := 3
  const TCPS_ESTABLISHED: int := 4
  const TCPS_CLOSE_WAIT: int := 5
  const TCPS_FIN_WAIT_1: int := 6
  const TCPS_CLOSING: int := 7
  const TCPS_LAST_ACK: int := 8
  const TCPS_FIN_WAIT_2: int := 9
  const TCPS_TIME_WAIT: int := 10

  // And as Linux does.
  const TCP_ESTABLISHED: int := 1
  const TCP_SYN_SENT: int := 2
  const TCP_SYN_RECV: int := 3
  const TCP_FIN_WAIT1: int := 4
  const TCP_FIN_WAIT2: int := 5
  const TCP_TIME_WAIT: int := 6
  const TCP_CLOSE: int := 7
  const TCP_CLOSE_WAIT: int := 8
  const TCP_LAST_ACK: int := 9
  const TCP_LISTEN: int := 10
  const TCP_CLOSING: int := 11

  /** The same state under both numberings; a number that macOS does not use shows as 0. */
  predicate SameState(ts: int, st: int) {
    || (ts == TCPS_CLOSED && st == TCP_CLOSE)
    || (ts == TCPS_LISTEN && st == TCP_LISTEN)
    || (ts == TCPS_SYN_SENT && st == TCP_SYN_SENT)
    || (ts == TCPS_SYN_RECEIVED && st == TCP_SYN_RECV)
    || (ts == TCPS_ESTABLISHED && st == TCP_ESTABLISHED)
    || (ts == TCPS_CLOSE_WAIT && st == TCP_CLOSE_WAIT)
    || (ts == TCPS_FIN_WAIT_1 && st == TCP_FIN_WAIT1)
    || (ts == TCPS_CLOSING && st == TCP_CLOSING)
    || (ts == TCPS_LAST_ACK && st == TCP_LAST_ACK)
    || (ts == TCPS_FIN_WAIT_2 && st == TCP_FIN_WAIT2)
    || (ts == TCPS_TIME_WAIT && st == TCP_TIME_WAIT)
    || ((ts < TCPS_CLOSED || ts > TCPS_TIME_WAIT) && st == 0)
  }

  lemma StateExact(ts: int, st: int)
    ensures LinuxState(ts) == st <==> SameState(ts, st)
  {
  }

  // ----- the columns -----

  /** The four bytes at `at` are this number. */
  predicate WordIs(b: seq<Byte>, at: nat, n: int) {
    at + 4 <= |b| && 0 <= n < TWO32 && b[at..at + 4] == Bytes4(n)
  }

  /** The two bytes at `at` are this port, in network order. */
  predicate PortIs(b: seq<Byte>, at: nat, n: int) {
    at + 2 <= |b| && 0 <= n < 0x1_0000 && b[at] == n / 0x100 && b[at + 1] == n % 0x100
  }

  /** The sixteen bytes at `at` are this address, the last four of them if it is one of IPv4. */
  predicate AddressIs(b: seq<Byte>, at: nat, a: Address, v6: bool) {
    match a
    case V4(w) => !v6 && WordIs(b, at + 12, w)
    case V6(w0, w1, w2, w3) =>
      v6 && WordIs(b, at, w0) && WordIs(b, at + 4, w1) && WordIs(b, at + 8, w2) && WordIs(b, at + 12, w3)
  }

  predicate LastBlock(attrs: seq<Block>, kind: int, i: nat) {
    i < |attrs| && attrs[i].kind == kind && forall j :: i < j < |attrs| ==> attrs[j].kind != kind
  }

  /** The word at `at` of the last block of that kind, or 0 without one. */
  ghost predicate FieldIs(attrs: seq<Block>, kind: int, at: nat, n: int) {
    || (exists i: nat :: LastBlock(attrs, kind, i) && WordIs(attrs[i].raw, at, n))
    || ((forall i :: 0 <= i < |attrs| ==> attrs[i].kind != kind) && n == 0)
  }

  /** The state column: that of the TCP control block, or whether a datagram socket has a remote port. */
  ghost predicate StateIs(r: Record, tcp: bool, st: int) {
    if tcp then exists ts :: FieldIs(r.attrs, XSO_TCPCB, 36, ts) && SameState(ts, st)
    else st == if PortIs(r.inp.raw, 16, 0) then TCP_CLOSE else TCP_ESTABLISHED
  }

  /** The row is that of the socket, at this place in the table. */
  ghost predicate Shows(row: Row, r: Record, q: Query, sl: nat) {
    && row.Row? && row.sl == sl
    && AddressIs(r.inp.raw, 64, row.local, q.v6) && PortIs(r.inp.raw, 18, row.lport)
    && AddressIs(r.inp.raw, 48, row.foreign, q.v6) && PortIs(r.inp.raw, 16, row.fport)
    && StateIs(r, q.tcp, row.st)
    && FieldIs(r.attrs, XSO_SNDBUF, 8, row.txq) && FieldIs(r.attrs, XSO_RCVBUF, 8, row.rxq)
    && FieldIs(r.attrs, XSO_SOCKET, 64, row.uid)
  }

  // ----- what the functions read -----

  lemma WordRead(b: seq<Byte>, at: nat, n: int)
    requires at + 4 <= |b|
    ensures Word(b, at) == n <==> WordIs(b, at, n)
  {
    WordExact(b, at, 0);
    if 0 <= n < TWO32 { WordExact(b, at, n); }
  }

  lemma PortRead(b: seq<Byte>, at: nat, n: int)
    requires at + 2 <= |b|
    ensures Port(b, at) == n <==> PortIs(b, at, n)
  {
    PortBytes(b[at], b[at + 1], n);
  }

  lemma PortBytes(hi: Byte, lo: Byte, n: int)
    ensures 0x100 * (hi as int) + lo as int == n <==> 0 <= n < 0x1_0000 && hi == n / 0x100 && lo == n % 0x100
  {
  }

  lemma AddressRead(b: seq<Byte>, at: nat, v6: bool, a: Address)
    requires at + 16 <= |b|
    ensures Narrow(Words4(b, at), v6) == a <==> AddressIs(b, at, a, v6)
  {
    match a
    case V4(w) => WordRead(b, at + 12, w);
    case V6(w0, w1, w2, w3) =>
      WordRead(b, at, w0);
      WordRead(b, at + 4, w1);
      WordRead(b, at + 8, w2);
      WordRead(b, at + 12, w3);
  }

  lemma {:induction false} LastOfIs(attrs: seq<Block>, kind: int) returns (i: nat)
    ensures LastOf(attrs, kind).None? <==> forall j :: 0 <= j < |attrs| ==> attrs[j].kind != kind
    ensures LastOf(attrs, kind).Some? ==> LastBlock(attrs, kind, i) && attrs[i] == LastOf(attrs, kind).value
  {
    i := 0;
    if attrs != [] {
      var n := |attrs| - 1;
      if attrs[n].kind == kind {
        i := n;
      } else {
        i := LastOfIs(attrs[..n], kind);
        assert forall j :: 0 <= j < n ==> attrs[..n][j] == attrs[j];
      }
    }
  }

  lemma OneLast(attrs: seq<Block>, kind: int, i: nat, j: nat)
    requires LastBlock(attrs, kind, i) && LastBlock(attrs, kind, j)
    ensures i == j
  {
  }

  predicate AllLongEnough(attrs: seq<Block>) {
    forall i :: 0 <= i < |attrs| ==> Long(attrs[i])
  }

  lemma FieldRead(attrs: seq<Block>, kind: int, at: nat, n: int)
    requires AllLongEnough(attrs) && at + 4 <= Needed(kind)
    ensures WordIn(LastOf(attrs, kind), at) == n <==> FieldIs(attrs, kind, at, n)
  {
    var i := LastOfIs(attrs, kind);
    if LastOf(attrs, kind).Some? {
      WordRead(attrs[i].raw, at, n);
      if FieldIs(attrs, kind, at, n) {
        assert attrs[i].kind == kind;
        var j: nat :| LastBlock(attrs, kind, j) && WordIs(attrs[j].raw, at, n);
        OneLast(attrs, kind, i, j);
      }
    }
  }

  // ----- rows -----

  /** A socket's own blocks make exactly the row that shows it. */
  lemma EmitShows(r: Record, q: Query, sl: nat, row: Row)
    requires RecordOk(r) && Wanted(r, q)
    ensures Emit(GatherBlocks(OwnBlocks(r)), q, sl) == [row] <==> Shows(row, r, q, sl)
  {
    OwnReadable(r, q);
    EmitOwn(r, q, sl);
    var f := GatherBlocks(OwnBlocks(r)).value;
    var e := Emit(Some(f), q, sl)[0];
    assert Emit(Some(f), q, sl) == [e];
    if row.Row? {
      ColumnsRead(r, q, row, f);
    }
  }

  /** Each column of a row is right exactly when the socket's bytes say so. */
  lemma ColumnsRead(r: Record, q: Query, row: Row, f: Facts)
    requires RecordOk(r) && row.Row? && GatherBlocks(OwnBlocks(r)) == Some(f)
    ensures Narrow(f.local, q.v6) == row.local <==> AddressIs(r.inp.raw, 64, row.local, q.v6)
    ensures Narrow(f.foreign, q.v6) == row.foreign <==> AddressIs(r.inp.raw, 48, row.foreign, q.v6)
    ensures f.lport == row.lport <==> PortIs(r.inp.raw, 18, row.lport)
    ensures f.fport == row.fport <==> PortIs(r.inp.raw, 16, row.fport)
    ensures f.txq == row.txq <==> FieldIs(r.attrs, XSO_SNDBUF, 8, row.txq)
    ensures f.rxq == row.rxq <==> FieldIs(r.attrs, XSO_RCVBUF, 8, row.rxq)
    ensures f.uid == row.uid <==> FieldIs(r.attrs, XSO_SOCKET, 64, row.uid)
    ensures (if q.tcp then LinuxState(f.state) else if f.fport != 0 then 1 else 7) == row.st <==>
            StateIs(r, q.tcp, row.st)
  {
    AddressRead(r.inp.raw, 64, q.v6, row.local);
    AddressRead(r.inp.raw, 48, q.v6, row.foreign);
    PortRead(r.inp.raw, 18, row.lport);
    PortRead(r.inp.raw, 16, row.fport);
    PortRead(r.inp.raw, 16, 0);
    FieldRead(r.attrs, XSO_SNDBUF, 8, row.txq);
    FieldRead(r.attrs, XSO_RCVBUF, 8, row.rxq);
    FieldRead(r.attrs, XSO_SOCKET, 64, row.uid);
    StateRead(r, f.state, row.st);
  }

  lemma StateRead(r: Record, ts: int, st: int)
    requires AllLongEnough(r.attrs) && ts == WordIn(LastOf(r.attrs, XSO_TCPCB), 36)
    ensures LinuxState(ts) == st <==> StateIs(r, true, st)
  {
    FieldRead(r.attrs, XSO_TCPCB, 36, ts);
    StateExact(ts, st);
    forall u | FieldIs(r.attrs, XSO_TCPCB, 36, u) ensures u == ts { FieldRead(r.attrs, XSO_TCPCB, 36, u); }
  }

  /** The sockets of the wanted family, in order. */
  function WantedOf(rs: seq<Record>, q: Query): seq<Record> {
    if rs == [] then []
    else if Wanted(rs[0], q) then [rs[0]] + WantedOf(rs[1..], q)
    else WantedOf(rs[1..], q)
  }

  /** The rows show these sockets one by one, numbered from `sl`. */
  ghost predicate TableOf(rows: seq<Row>, rs: seq<Record>, q: Query, sl: nat) {
    && |rows| == |rs|
    && (rows != [] ==> Shows(rows[0], rs[0], q, sl) && TableOf(rows[1..], rs[1..], q, sl + 1))
  }

  /** The expected rows are that table, and no others are. */
  lemma {:induction false} RowsAreTable(rs: seq<Record>, q: Query, sl: nat, rows: seq<Row>)
    requires RecordsOk(rs)
    ensures rows == Rows(GatheredBlocks(AllOwn(rs)), q, sl) <==> TableOf(rows, WantedOf(rs, q), q, sl)
    decreases |rs|
  {
    if rs != [] {
      var own, rest := OwnBlocks(rs[0]), AllOwn(rs[1..]);
      var e := Emit(GatherBlocks(own), q, sl);
      EmitOwn(rs[0], q, sl);
      RowsCons(own, rest, q, sl);
      if Wanted(rs[0], q) {
        if rows != [] {
          RowsAreTable(rs[1..], q, sl + 1, rows[1..]);
          RowAndRest(rs[0], q, sl, rows, Rows(GatheredBlocks(rest), q, sl + 1), WantedOf(rs[1..], q));
        }
      } else {
        RowsAreTable(rs[1..], q, sl, rows);
      }
    }
  }

  /** The first row and the others. */
  lemma RowAndRest(r: Record, q: Query, sl: nat, rows: seq<Row>, more: seq<Row>, rs: seq<Record>)
    requires RecordOk(r) && Wanted(r, q) && rows != []
    requires rows[1..] == more <==> TableOf(rows[1..], rs, q, sl + 1)
    ensures rows == Emit(GatherBlocks(OwnBlocks(r)), q, sl) + more <==> TableOf(rows, [r] + rs, q, sl)
  {
    EmitOwn(r, q, sl);
    EmitShows(r, q, sl, rows[0]);
    HeadAndRest(rows, Emit(GatherBlocks(OwnBlocks(r)), q, sl), more);
    TableCons(rows, r, rs, q, sl);
  }

  lemma TableCons(rows: seq<Row>, r: Record, rs: seq<Record>, q: Query, sl: nat)
    requires rows != []
    ensures TableOf(rows, [r] + rs, q, sl) <==> Shows(rows[0], r, q, sl) && TableOf(rows[1..], rs, q, sl + 1)
  {
    assert ([r] + rs)[1..] == rs;
  }

  lemma HeadAndRest(rows: seq<Row>, e: seq<Row>, more: seq<Row>)
    requires rows != [] && |e| == 1
    ensures rows == e + more <==> [rows[0]] == e && rows[1..] == more
  {
    assert rows == [rows[0]] + rows[1..];
    assert (e + more)[0] == e[0] && (e + more)[1..] == more;
  }

  lemma RowsCons(own: Current<Block>, rest: seq<Current<Block>>, q: Query, sl: nat)
    ensures var e := Emit(GatherBlocks(own), q, sl);
            Rows(GatheredBlocks([own] + rest), q, sl) == e + Rows(GatheredBlocks(rest), q, sl + |e|)
  {
    GatheredBlocksCons(own, rest);
    RowsAppend([GatherBlocks(own)], GatheredBlocks(rest), q, sl);
    RowsOfOne(GatherBlocks(own), q, sl);
  }

  /** For every list of sockets the parser builds the table that shows those of the wanted family, in order,
      each from its own blocks, if and only if the trailer's count is harmless. */
  lemma ParserExact(head: seq<Byte>, rs: seq<Record>, trailer: Block, q: Query)
    requires RecordsOk(rs) && HeadersOk(head, trailer)
    ensures TableOf(Parse(Stream(head, rs, trailer), q), WantedOf(rs, q), q, 0) <==> Harmless(rs, trailer, q)
  {
    ParseIsExpected(head, rs, trailer, q);
    RowsAreTable(rs, q, 0, Parse(Stream(head, rs, trailer), q));
  }

  /** A count that is no kind in use is harmless. */
  lemma OrdinaryCount(head: seq<Byte>, rs: seq<Record>, trailer: Block, q: Query)
    requires RecordsOk(rs) && HeadersOk(head, trailer)
    requires trailer.kind !in {XSO_SOCKET, XSO_RCVBUF, XSO_SNDBUF, XSO_INPCB, XSO_TCPCB}
    ensures TableOf(Parse(Stream(head, rs, trailer), q), WantedOf(rs, q), q, 0)
  {
    ParserExact(head, rs, trailer, q);
  }
}
