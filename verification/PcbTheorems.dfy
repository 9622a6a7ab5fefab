/** What the parser of module PcbStream makes of streams that the kernel writes. */
module PcbTheorems {
  import opened Common
  import opened PcbStream

  /** A block's bytes, which start with its own length and its kind, and the padding behind them up to a
      multiple of 8. */
  datatype Block = Block(kind: int, raw: seq<Byte>, pad: seq<Byte>)

  predicate BlockOk(k: Block) {
    && 8 <= |k.raw| <= TWO32 - 8 && (|k.raw| + |k.pad|) % 8 == 0 && |k.pad| < 8
    && 0 <= k.kind < TWO32 && k.raw[..4] == Bytes4(|k.raw|) && k.raw[4..8] == Bytes4(k.kind)
  }

  /** A word read is the one whose four bytes lie there. */
  lemma WordExact(b: seq<Byte>, at: nat, n: U32)
    requires at + 4 <= |b|
    ensures 0 <= Word(b, at) < TWO32
    ensures Word(b, at) == n <==> b[at..at + 4] == Bytes4(n)
  {
    var s := b[at..at + 4];
    assert s[0] == b[at] && s[1] == b[at + 1] && s[2] == b[at + 2] && s[3] == b[at + 3];
    FourBytes(b[at], b[at + 1], b[at + 2], b[at + 3]);
    FourBytesBack(n);
  }

  lemma FourBytes(a: Byte, b: Byte, c: Byte, d: Byte)
    ensures var n := a as int + 0x100 * b as int + 0x1_0000 * c as int + 0x100_0000 * d as int;
            0 <= n < TWO32 && Bytes4(n) == [a, b, c, d]
  {
    var hi := c as int + 0x100 * d as int;
    var mid := b as int + 0x100 * hi;
    var n := a as int + 0x100 * mid;
    LowByte(c, d as int);
    LowByte(b, hi);
    LowByte(a, mid);
    NextBytes(n);
  }

  lemma LowByte(a: Byte, m: nat)
    ensures (a as int + 0x100 * m) % 0x100 == a && (a as int + 0x100 * m) / 0x100 == m
  {
  }

  lemma NextBytes(n: nat)
    ensures n / 0x1_0000 == n / 0x100 / 0x100 && n / 0x100_0000 == n / 0x1_0000 / 0x100
  {
  }

  lemma FourBytesBack(n: U32)
    ensures var b := Bytes4(n);
            n == b[0] as int + 0x100 * b[1] as int + 0x1_0000 * b[2] as int + 0x100_0000 * b[3] as int
  {
    NextBytes(n);
  }

  /** Rounding up the length gives what the block takes up with its padding. */
  lemma RoundUpIs(n: nat, pad: nat)
    requires n <= TWO32 - 8 && (n + pad) % 8 == 0 && pad < 8
    ensures RoundUp(n) == n + pad
  {
  }

  lemma HeaderWords(k: Block)
    requires BlockOk(k)
    ensures Word(k.raw, 0) == |k.raw| && Word(k.raw, 4) == k.kind
  {
    assert k.raw[0..0 + 4] == k.raw[..4];
    WordExact(k.raw, 0, |k.raw|);
    WordExact(k.raw, 4, k.kind);
  }

  predicate BlocksOk(ks: seq<Block>) {
    forall i :: 0 <= i < |ks| ==> BlockOk(ks[i])
  }

  function Encoded(ks: seq<Block>): seq<Byte> {
    if ks == [] then [] else ks[0].raw + ks[0].pad + Encoded(ks[1..])
  }

  /** Bytes of a block that the reader looks at. */
  function Needed(kind: int): nat {
    if kind == XSO_INPCB then 80
    else if kind == XSO_SOCKET then 68
    else if kind == XSO_RCVBUF || kind == XSO_SNDBUF then 12
    else if kind == XSO_TCPCB then 40
    else 8
  }

  predicate Long(k: Block) {
    |k.raw| >= Needed(k.kind)
  }

  // ----- from positions to blocks -----

  /** The block lies at `at`; it holds all that is read of it, or nothing follows it. */
  ghost predicate LiesAt(b: seq<Byte>, at: nat, k: Block) {
    && at + |k.raw| <= |b| && (forall i :: 0 <= i < |k.raw| ==> b[at + i] == k.raw[i])
    && (Long(k) || at + |k.raw| == |b|)
  }

  ghost predicate SomeLiesAt(b: seq<Byte>, at: Option<nat>, k: Option<Block>, kind: int) {
    && at.Some? == k.Some?
    && (at.Some? ==> LiesAt(b, at.value, k.value) && k.value.kind == kind)
  }

  ghost predicate Agree(b: seq<Byte>, cur: Current<nat>, bs: Current<Block>) {
    && SomeLiesAt(b, cur.inp, bs.inp, XSO_INPCB) && SomeLiesAt(b, cur.sock, bs.sock, XSO_SOCKET)
    && SomeLiesAt(b, cur.tcb, bs.tcb, XSO_TCPCB) && SomeLiesAt(b, cur.rcv, bs.rcv, XSO_RCVBUF)
    && SomeLiesAt(b, cur.snd, bs.snd, XSO_SNDBUF)
  }

  function WordIn(k: Option<Block>, at: nat): int {
    if k.Some? then Word(k.value.raw, at) else 0
  }

  /** The facts that the inpcb block alone supplies. */
  function InpFacts(r: seq<Byte>, p: nat, uid: int, txq: int, rxq: int, state: int): Facts {
    Facts(Field8(r, p + 44), Port(r, p + 18), Port(r, p + 16), Words4(r, p + 64), Words4(r, p + 48),
          uid, txq, rxq, state)
  }

  /** Facts read from the blocks themselves. */
  function GatherBlocks(bs: Current<Block>): Option<Facts> {
    match bs.inp
    case None => None
    case Some(k) =>
      Some(InpFacts(k.raw, 0, WordIn(bs.sock, 64), WordIn(bs.snd, 8), WordIn(bs.rcv, 8), WordIn(bs.tcb, 36)))
  }

  lemma WordAt(b: seq<Byte>, at: nat, k: Block, o: nat)
    requires LiesAt(b, at, k) && o + 4 <= Needed(k.kind)
    ensures Word(b, at + o) == Word(k.raw, o)
  {
    if o + 4 <= |k.raw| {
      assert k.raw[o] == b[at + o] && k.raw[o + 1] == b[at + o + 1];
      assert k.raw[o + 2] == b[at + o + 2] && k.raw[o + 3] == b[at + o + 3];
    }
  }

  lemma SomeWordAt(b: seq<Byte>, at: Option<nat>, k: Option<Block>, kind: int, o: nat)
    requires SomeLiesAt(b, at, k, kind) && o + 4 <= Needed(kind)
    ensures (if at.Some? then Word(b, at.value + o) else 0) == WordIn(k, o)
  {
    if at.Some? { WordAt(b, at.value, k.value, o); }
  }

  lemma PortAt(b: seq<Byte>, at: nat, k: Block, o: nat)
    requires LiesAt(b, at, k) && o + 2 <= Needed(k.kind)
    ensures Port(b, at + o) == Port(k.raw, o) && Field8(b, at + o) == Field8(k.raw, o)
  {
    if o < |k.raw| { assert k.raw[o] == b[at + o]; }
    if o + 1 < |k.raw| { assert k.raw[o + 1] == b[at + o + 1]; }
  }

  lemma AddressAt(b: seq<Byte>, at: nat, k: Block, o: nat)
    requires LiesAt(b, at, k) && o + 16 <= Needed(k.kind)
    ensures Words4(b, at + o) == Words4(k.raw, o)
  {
    WordAt(b, at, k, o);
    WordAt(b, at, k, o + 4);
    WordAt(b, at, k, o + 8);
    WordAt(b, at, k, o + 12);
  }

  lemma InpFactsAt(b: seq<Byte>, p: nat, k: Block, uid: int, txq: int, rxq: int, state: int)
    requires LiesAt(b, p, k) && k.kind == XSO_INPCB
    ensures InpFacts(b, p, uid, txq, rxq, state) == InpFacts(k.raw, 0, uid, txq, rxq, state)
  {
    PortAt(b, p, k, 44);
    PortAt(b, p, k, 18);
    PortAt(b, p, k, 16);
    AddressAt(b, p, k, 64);
    AddressAt(b, p, k, 48);
  }

  lemma GatherAgrees(b: seq<Byte>, cur: Current<nat>, bs: Current<Block>)
    requires Agree(b, cur, bs)
    ensures Gather(b, cur) == GatherBlocks(bs)
  {
    SomeWordAt(b, cur.sock, bs.sock, XSO_SOCKET, 64);
    SomeWordAt(b, cur.snd, bs.snd, XSO_SNDBUF, 8);
    SomeWordAt(b, cur.rcv, bs.rcv, XSO_RCVBUF, 8);
    SomeWordAt(b, cur.tcb, bs.tcb, XSO_TCPCB, 36);
    if cur.inp.Some? {
      InpFactsAt(b, cur.inp.value, bs.inp.value,
                 WordIn(bs.sock, 64), WordIn(bs.snd, 8), WordIn(bs.rcv, 8), WordIn(bs.tcb, 36));
    }
  }

  /** Reading the header of the block at `p`. */
  lemma HeaderAt(b: seq<Byte>, p: nat, k: Block)
    requires BlockOk(k) && p + |k.raw| + |k.pad| <= |b| && b[p..p + |k.raw|] == k.raw
    ensures Word(b, p + 4) == k.kind
    ensures Advance(b, p) == if Known(k.kind) then |k.raw| + |k.pad| else 0
  {
    HeaderWords(k);
    RoundUpIs(|k.raw|, |k.pad|);
    assert k.raw[0] == b[p] && k.raw[1] == b[p + 1] && k.raw[2] == b[p + 2] && k.raw[3] == b[p + 3];
    assert k.raw[4] == b[p + 4] && k.raw[5] == b[p + 5] && k.raw[6] == b[p + 6] && k.raw[7] == b[p + 7];
  }

  lemma NotedAgrees(b: seq<Byte>, cur: Current<nat>, bs: Current<Block>, p: nat, k: Block)
    requires Agree(b, cur, bs) && LiesAt(b, p, k)
    ensures Agree(b, Noted(cur, k.kind, p), Noted(bs, k.kind, k))
  {
    if k.kind == XSO_INPCB {
    } else if k.kind == XSO_SOCKET {
    } else if k.kind == XSO_RCVBUF {
    } else if k.kind == XSO_SNDBUF {
    } else if k.kind == XSO_TCPCB {
    }
  }

  /** Where the encoded blocks lie. */
  lemma SplitAt(b: seq<Byte>, p: nat, ks: seq<Block>)
    requires ks != [] && p <= |b| && b[p..] == Encoded(ks)
    ensures p + |ks[0].raw| + |ks[0].pad| <= |b|
    ensures b[p..p + |ks[0].raw|] == ks[0].raw
    ensures b[p + |ks[0].raw| + |ks[0].pad|..] == Encoded(ks[1..])
  {
    var n, m := |ks[0].raw|, |ks[0].pad|;
    var t := b[p..];
    assert t == ks[0].raw + ks[0].pad + Encoded(ks[1..]);
    assert t[..n] == ks[0].raw && t[n + m..] == Encoded(ks[1..]);
    assert b[p..p + n] == t[..n] && b[p + n + m..] == t[n + m..];
  }

  /** The first block lies where the parser is. */
  lemma FirstLiesAt(b: seq<Byte>, p: nat, ks: seq<Block>)
    requires ks != [] && p <= |b| && b[p..] == Encoded(ks)
    requires Long(ks[0]) || (|ks| == 1 && ks[0].pad == [])
    ensures LiesAt(b, p, ks[0])
  {
    var k := ks[0];
    SplitAt(b, p, ks);
    forall i | 0 <= i < |k.raw| ensures b[p + i] == k.raw[i] { assert b[p..p + |k.raw|][i] == b[p + i]; }
    if |ks| == 1 { assert Encoded(ks[1..]) == []; }
  }

  // ----- the walk visits the blocks -----

  /** The blocks before the first one of unknown kind. */
  function Items(ks: seq<Block>): seq<Item<Block>> {
    if ks == [] || !Known(ks[0].kind) then [] else [Item(ks[0].kind, ks[0])] + Items(ks[1..])
  }

  ghost predicate Placed(b: seq<Byte>, w: seq<Item<nat>>, ks: seq<Item<Block>>) {
    && |w| == |ks|
    && forall i :: 0 <= i < |w| ==> w[i].kind == ks[i].kind == ks[i].at.kind && LiesAt(b, w[i].at, ks[i].at)
  }

  /** Only the last block may be shorter than what is read of its kind. */
  predicate AllLong(ks: seq<Block>) {
    && (forall i :: 0 <= i < |ks| - 1 ==> Long(ks[i]))
    && (ks != [] && !Long(ks[|ks| - 1]) ==> ks[|ks| - 1].pad == [])
  }

  lemma {:induction false} WalkVisitsBlocks(b: seq<Byte>, p: nat, ks: seq<Block>)
    requires BlocksOk(ks) && AllLong(ks) && p <= |b| && b[p..] == Encoded(ks)
    ensures Placed(b, Walk(b, p), Items(ks))
    decreases |ks|
  {
    if ks == [] {
      assert p == |b|;
    } else {
      VisitFirst(b, p, ks);
      RestOk(ks);
      if Known(ks[0].kind) {
        var k, next := ks[0], p + Advance(b, p);
        WalkVisitsBlocks(b, next, ks[1..]);
        PlacedCons(b, Item(k.kind, p), Walk(b, next), Item(k.kind, k), Items(ks[1..]));
        assert Items(ks) == [Item(k.kind, k)] + Items(ks[1..]);
      } else {
        assert Items(ks) == [];
      }
    }
  }

  lemma RestOk(ks: seq<Block>)
    requires ks != [] && BlocksOk(ks) && AllLong(ks)
    ensures BlocksOk(ks[1..]) && AllLong(ks[1..])
  {
  }

  /** The walk visits the first block and comes to the next, or ends there. */
  lemma VisitFirst(b: seq<Byte>, p: nat, ks: seq<Block>)
    requires ks != [] && BlockOk(ks[0]) && AllLong(ks) && p <= |b| && b[p..] == Encoded(ks)
    ensures !Known(ks[0].kind) ==> Walk(b, p) == []
    ensures Known(ks[0].kind) ==>
              var next := p + Advance(b, p);
              && p < next <= |b| && b[next..] == Encoded(ks[1..]) && LiesAt(b, p, ks[0])
              && Walk(b, p) == [Item(ks[0].kind, p)] + Walk(b, next)
  {
    SplitAt(b, p, ks);
    HeaderAt(b, p, ks[0]);
    if Known(ks[0].kind) {
      FirstLiesAt(b, p, ks);
    }
  }

  lemma PlacedCons(b: seq<Byte>, x: Item<nat>, w: seq<Item<nat>>, y: Item<Block>, ks: seq<Item<Block>>)
    requires Placed(b, w, ks) && x.kind == y.kind == y.at.kind && LiesAt(b, x.at, y.at)
    ensures Placed(b, [x] + w, [y] + ks)
  {
  }

  function GatheredBlocks(cs: seq<Current<Block>>): seq<Option<Facts>> {
    if cs == [] then [] else [GatherBlocks(cs[0])] + GatheredBlocks(cs[1..])
  }

  /** Grouping positions and grouping blocks yields the same facts. */
  lemma {:induction false} GroupsAgree(b: seq<Byte>, w: seq<Item<nat>>, ks: seq<Item<Block>>,
                                       cur: Current<nat>, bs: Current<Block>)
    requires Placed(b, w, ks) && Agree(b, cur, bs)
    ensures Gathered(b, Groups(w, cur)) == GatheredBlocks(Groups(ks, bs))
    decreases |w|
  {
    GatherAgrees(b, cur, bs);
    if w == [] {
      var gs, hs := Groups(w, cur), Groups(ks, bs);
      assert gs == [cur] && gs[1..] == [] && hs == [bs] && hs[1..] == [];
    } else {
      var next, nextB := Noted(cur, w[0].kind, w[0].at), Noted(bs, ks[0].kind, ks[0].at);
      NotedAgrees(b, cur, bs, w[0].at, ks[0].at);
      GroupsAgree(b, w[1..], ks[1..], next, nextB);
      if w[0].kind == XSO_INPCB {
        GatheredCons(b, cur, Groups(w[1..], next));
        GatheredBlocksCons(bs, Groups(ks[1..], nextB));
      }
    }
  }

  lemma GatheredCons(b: seq<Byte>, c: Current<nat>, cs: seq<Current<nat>>)
    ensures Gathered(b, [c] + cs) == [Gather(b, c)] + Gathered(b, cs)
  {
    assert ([c] + cs)[1..] == cs;
  }

  lemma GatheredBlocksCons(c: Current<Block>, cs: seq<Current<Block>>)
    ensures GatheredBlocks([c] + cs) == [GatherBlocks(c)] + GatheredBlocks(cs)
  {
    assert ([c] + cs)[1..] == cs;
  }

  // ----- records -----

  /** One socket: its inpcb block and the blocks that follow it up to the next one. */
  datatype Record = Record(inp: Block, attrs: seq<Block>)

  predicate IsAttr(kind: int) {
    kind == XSO_SOCKET || kind == XSO_RCVBUF || kind == XSO_SNDBUF || kind == XSO_STATS || kind == XSO_TCPCB
  }

  predicate RecordOk(r: Record) {
    && BlockOk(r.inp) && r.inp.kind == XSO_INPCB && Long(r.inp)
    && forall i :: 0 <= i < |r.attrs| ==> BlockOk(r.attrs[i]) && IsAttr(r.attrs[i].kind) && Long(r.attrs[i])
  }

  predicate RecordsOk(rs: seq<Record>) {
    forall i :: 0 <= i < |rs| ==> RecordOk(rs[i])
  }

  function Blocks(rs: seq<Record>): seq<Block> {
    if rs == [] then [] else [rs[0].inp] + rs[0].attrs + Blocks(rs[1..])
  }

  /** The last block of a kind among a record's own. */
  function LastOf(attrs: seq<Block>, kind: int): Option<Block> {
    if attrs == [] then None
    else if attrs[|attrs| - 1].kind == kind then Some(attrs[|attrs| - 1])
    else LastOf(attrs[..|attrs| - 1], kind)
  }

  /** What belongs to a record, from that record alone. */
  function OwnBlocks(r: Record): Current<Block> {
    Current(Some(r.inp), LastOf(r.attrs, XSO_SOCKET), LastOf(r.attrs, XSO_TCPCB),
            LastOf(r.attrs, XSO_RCVBUF), LastOf(r.attrs, XSO_SNDBUF))
  }

  function AllOwn(rs: seq<Record>): seq<Current<Block>> {
    if rs == [] then [] else [OwnBlocks(rs[0])] + AllOwn(rs[1..])
  }

  /** The table that the records call for: a row for each whose address family matches, in order. */
  function Expected(rs: seq<Record>, q: Query): seq<Row> {
    Rows(GatheredBlocks(AllOwn(rs)), q, 0)
  }

  function ItemsOfAttrs(attrs: seq<Block>): seq<Item<Block>> {
    seq(|attrs|, i requires 0 <= i < |attrs| => Item(attrs[i].kind, attrs[i]))
  }

  lemma {:induction false} ItemsAppend(a: seq<Block>, b: seq<Block>)
    requires forall i :: 0 <= i < |a| ==> Known(a[i].kind)
    ensures Items(a + b) == ItemsOfAttrs(a) + Items(b)
  {
    if a == [] {
      assert a + b == b;
    } else {
      ItemsAppend(a[1..], b);
      assert (a + b)[1..] == a[1..] + b;
      assert ItemsOfAttrs(a) == [Item(a[0].kind, a[0])] + ItemsOfAttrs(a[1..]);
    }
  }

  /** The blocks of a record that follow its inpcb block end up in its own group. */
  lemma {:induction false} AttrsGroup(inp: Block, before: seq<Block>, attrs: seq<Block>, rest: seq<Item<Block>>)
    requires forall i :: 0 <= i < |attrs| ==> IsAttr(attrs[i].kind)
    ensures Groups(ItemsOfAttrs(attrs) + rest, OwnBlocks(Record(inp, before)))
            == Groups(rest, OwnBlocks(Record(inp, before + attrs)))
    decreases |attrs|
  {
    if attrs == [] {
      assert ItemsOfAttrs(attrs) + rest == rest && before + attrs == before;
    } else {
      var items := ItemsOfAttrs(attrs) + rest;
      assert items[0] == Item(attrs[0].kind, attrs[0]) && items[1..] == ItemsOfAttrs(attrs[1..]) + rest;
      NotedOwn(inp, before, attrs[0]);
      AttrsGroup(inp, before + [attrs[0]], attrs[1..], rest);
      assert before + [attrs[0]] + attrs[1..] == before + attrs;
    }
  }

  lemma NotedOwn(inp: Block, before: seq<Block>, k: Block)
    requires IsAttr(k.kind)
    ensures Noted(OwnBlocks(Record(inp, before)), k.kind, k) == OwnBlocks(Record(inp, before + [k]))
  {
    var after := before + [k];
    assert after[..|after| - 1] == before;
  }

  /** The group still open after the records, and the groups closed before it. */
  function LastOpen(rs: seq<Record>, open: Current<Block>): Current<Block> {
    if rs == [] then open else OwnBlocks(rs[|rs| - 1])
  }

  function Closed(rs: seq<Record>, open: Current<Block>): seq<Current<Block>> {
    if rs == [] then [] else [open] + Closed(rs[1..], OwnBlocks(rs[0]))
  }

  lemma RecordGroup(r: Record, rest: seq<Block>, open: Current<Block>)
    requires RecordOk(r)
    ensures Groups(Items([r.inp] + r.attrs + rest), open) == [open] + Groups(Items(rest), OwnBlocks(r))
  {
    var all := [r.inp] + r.attrs + rest;
    assert all[0] == r.inp && all[1..] == r.attrs + rest;
    ItemsAppend(r.attrs, rest);
    var items := Items(all);
    assert items[1..] == ItemsOfAttrs(r.attrs) + Items(rest);
    AttrsGroup(r.inp, [], r.attrs, Items(rest));
    assert [] + r.attrs == r.attrs;
  }

  lemma BlocksCons(rs: seq<Record>, tail: seq<Block>)
    requires rs != []
    ensures Blocks(rs) + tail == [rs[0].inp] + rs[0].attrs + (Blocks(rs[1..]) + tail)
  {
  }

  lemma LastOpenCons(rs: seq<Record>, open: Current<Block>)
    requires rs != []
    ensures LastOpen(rs, open) == LastOpen(rs[1..], OwnBlocks(rs[0]))
  {
  }

  lemma {:induction false} RecordsGroup(rs: seq<Record>, tail: seq<Block>, open: Current<Block>)
    requires RecordsOk(rs)
    ensures Groups(Items(Blocks(rs) + tail), open) == Closed(rs, open) + Groups(Items(tail), LastOpen(rs, open))
    decreases |rs|
  {
    if rs == [] {
      assert Blocks(rs) + tail == tail;
    } else {
      var rest := Blocks(rs[1..]) + tail;
      var own := OwnBlocks(rs[0]);
      LastOpenCons(rs, open);
      var g := Groups(Items(tail), LastOpen(rs, open));
      calc {
        Groups(Items(Blocks(rs) + tail), open);
      == { BlocksCons(rs, tail); }
        Groups(Items([rs[0].inp] + rs[0].attrs + rest), open);
      == { RecordGroup(rs[0], rest, open); }
        [open] + Groups(Items(rest), own);
      == { RecordsGroup(rs[1..], tail, own); }
        [open] + (Closed(rs[1..], own) + g);
      ==
        ([open] + Closed(rs[1..], own)) + g;
      }
    }
  }

  lemma {:induction false} ClosedAndOpen(rs: seq<Record>, open: Current<Block>)
    ensures Closed(rs, open) + [LastOpen(rs, open)] == [open] + AllOwn(rs)
    decreases |rs|
  {
    if rs != [] { ClosedAndOpen(rs[1..], OwnBlocks(rs[0])); }
  }

  lemma {:induction false} GatheredAppend(a: seq<Current<Block>>, b: seq<Current<Block>>)
    ensures GatheredBlocks(a + b) == GatheredBlocks(a) + GatheredBlocks(b)
  {
    if a == [] {
      assert a + b == b;
    } else {
      GatheredAppend(a[1..], b);
      assert (a + b)[1..] == a[1..] + b;
    }
  }

  lemma {:induction false} RowsAppend(a: seq<Option<Facts>>, b: seq<Option<Facts>>, q: Query, sl: nat)
    ensures Rows(a + b, q, sl) == Rows(a, q, sl) + Rows(b, q, sl + |Rows(a, q, sl)|)
    decreases |a|
  {
    if a == [] {
      assert a + b == b;
    } else {
      var e := Emit(a[0], q, sl);
      RowsAppend(a[1..], b, q, sl + |e|);
      assert (a + b)[1..] == a[1..] + b;
      Regroup(e, Rows(a[1..], q, sl + |e|), Rows(b, q, sl + |Rows(a, q, sl)|));
    }
  }

  lemma Regroup<T>(a: seq<T>, b: seq<T>, c: seq<T>)
    ensures a + (b + c) == (a + b) + c
  {
  }

  // ----- the trailer -----

  /** The stream as the kernel returns it: a header, the blocks of every record, a second header. */
  function Stream(head: seq<Byte>, rs: seq<Record>, trailer: Block): seq<Byte> {
    head + Encoded(Blocks(rs) + [trailer])
  }

  predicate HeadersOk(head: seq<Byte>, trailer: Block) {
    && |head| == XINPGEN_SIZE && head[..4] == Bytes4(XINPGEN_SIZE)
    && BlockOk(trailer) && |trailer.raw| == XINPGEN_SIZE && trailer.pad == []
  }

  const INP_IPV4: int := 1
  const INP_IPV6: int := 2

  /** The record's address family is the wanted one: its bit of `inp_vflag` is set. */
  predicate Wanted(r: Record, q: Query) {
    |r.inp.raw| > 44 && (r.inp.raw[44] as int) / (if q.v6 then INP_IPV6 else INP_IPV4) % 2 == 1
  }

  /** The trailer has its socket count where blocks have their kind. The count does no harm when it
      is no kind that a row is built from, when the last record is not shown anyway, or when what
      it replaces is not used or happens to be the same. */
  predicate Harmless(rs: seq<Record>, trailer: Block, q: Query) {
    if trailer.kind == XSO_INPCB then false
    else if rs == [] || !Wanted(rs[|rs| - 1], q) then true
    else
      var own := OwnBlocks(rs[|rs| - 1]);
      if trailer.kind == XSO_SOCKET then false
      else if trailer.kind == XSO_TCPCB then !q.tcp
      else if trailer.kind == XSO_RCVBUF then Word(trailer.raw, 8) == WordIn(own.rcv, 8)
      else if trailer.kind == XSO_SNDBUF then Word(trailer.raw, 8) == WordIn(own.snd, 8)
      else true
  }

  lemma {:induction false} LastOfLong(attrs: seq<Block>, kind: int)
    requires forall i :: 0 <= i < |attrs| ==> Long(attrs[i])
    ensures LastOf(attrs, kind).Some? ==> Long(LastOf(attrs, kind).value) && LastOf(attrs, kind).value.kind == kind
  {
    if attrs != [] { LastOfLong(attrs[..|attrs| - 1], kind); }
  }

  /** A record's own blocks hold every field that its row needs. */
  lemma OwnReadable(r: Record, q: Query)
    requires RecordOk(r)
    ensures GatherBlocks(OwnBlocks(r)).Some?
    ensures var f := GatherBlocks(OwnBlocks(r)).value; f.vflag >= 0 && Readable(f, q)
  {
    LastOfLong(r.attrs, XSO_SOCKET);
    LastOfLong(r.attrs, XSO_TCPCB);
    LastOfLong(r.attrs, XSO_RCVBUF);
    LastOfLong(r.attrs, XSO_SNDBUF);
  }

  lemma {:induction false} BlocksOfRecords(rs: seq<Record>)
    requires RecordsOk(rs)
    ensures BlocksOk(Blocks(rs)) && forall i :: 0 <= i < |Blocks(rs)| ==> Long(Blocks(rs)[i])
    decreases |rs|
  {
    if rs != [] {
      BlocksOfRecords(rs[1..]);
      var ks := Blocks(rs);
      var n := 1 + |rs[0].attrs|;
      forall i | 0 <= i < |ks| ensures BlockOk(ks[i]) && Long(ks[i]) {
        if i == 0 {
          assert ks[i] == rs[0].inp;
        } else if i < n {
          assert ks[i] == rs[0].attrs[i - 1];
        } else {
          assert ks[i] == Blocks(rs[1..])[i - n];
        }
      }
    }
  }

  /** What the parser makes of a kernel stream, whatever the trailer's count. */
  lemma ParseOfStream(head: seq<Byte>, rs: seq<Record>, trailer: Block, q: Query)
    requires RecordsOk(rs) && HeadersOk(head, trailer)
    ensures Parse(Stream(head, rs, trailer), q)
      == Rows(GatheredBlocks(Closed(rs, Nothing()) + Groups(Items([trailer]), LastOpen(rs, Nothing()))), q, 0)
  {
    var b, ks := Stream(head, rs, trailer), Blocks(rs) + [trailer];
    BlocksOfRecords(rs);
    var p := XINPGEN_SIZE;
    assert b[p..] == Encoded(ks);
    assert b[..p] == head && Word(b, 0) == Word(head, 0) by {
      assert b[0] == head[0] && b[1] == head[1] && b[2] == head[2] && b[3] == head[3];
    }
    assert head[0..0 + 4] == head[..4];
    WordExact(head, 0, XINPGEN_SIZE);
    assert RoundUp(XINPGEN_SIZE) == XINPGEN_SIZE;
    WalkVisitsBlocks(b, p, ks);
    GroupsAgree(b, Walk(b, p), Items(ks), Nothing(), Nothing());
    RecordsGroup(rs, [trailer], Nothing());
  }

  /** The facts of the last group after the trailer was taken for a block of a record. */
  lemma TrailerGroups(trailer: Block, c: Current<Block>)
    ensures Groups(Items([trailer]), c) ==
      if !Known(trailer.kind) then [c]
      else if trailer.kind == XSO_INPCB then [c, Current(Some(trailer), None, None, None, None)]
      else [Noted(c, trailer.kind, trailer)]
  {
    assert [trailer][1..] == [];
    var it := Item(trailer.kind, trailer);
    assert [it][1..] == [];
    if Known(trailer.kind) { assert Items([trailer]) == [it]; }
  }

  lemma RowsOfOne(f: Option<Facts>, q: Query, sl: nat)
    ensures Rows([f], q, sl) == Emit(f, q, sl)
  {
    assert [f][1..] == [];
    var e := Emit(f, q, sl);
    assert Rows([f][1..], q, sl + |e|) == [];
  }

  /** Reading the trailer where a record's block is meant. */
  lemma TrailerEmit(r: Record, trailer: Block, q: Query, sl: nat)
    requires RecordOk(r) && BlockOk(trailer) && |trailer.raw| == XINPGEN_SIZE && IsAttr(trailer.kind)
    ensures Emit(GatherBlocks(Noted(OwnBlocks(r), trailer.kind, trailer)), q, sl)
            == Emit(GatherBlocks(OwnBlocks(r)), q, sl)
      <==> Harmless([r], trailer, q)
  {
    OwnReadable(r, q);
  }

  lemma TailExact(rs: seq<Record>, trailer: Block, q: Query, sl: nat)
    requires RecordsOk(rs) && BlockOk(trailer) && |trailer.raw| == XINPGEN_SIZE
    ensures var c := LastOpen(rs, Nothing());
      Rows(GatheredBlocks(Groups(Items([trailer]), c)), q, sl) == Rows(GatheredBlocks([c]), q, sl)
      <==> Harmless(rs, trailer, q)
  {
    var c := LastOpen(rs, Nothing());
    TrailerGroups(trailer, c);
    GatheredBlocksCons(c, []);
    assert [c] + [] == [c];
    assert GatheredBlocks([c]) == [GatherBlocks(c)];
    RowsOfOne(GatherBlocks(c), q, sl);
    if trailer.kind == XSO_INPCB {
      var d: Current<Block> := Current(Some(trailer), None, None, None, None);
      GatheredBlocksCons(d, []);
      assert [d] + [] == [d];
      GatheredBlocksCons(c, [d]);
      assert [c] + [d] == [c, d];
      RowsAppend([GatherBlocks(c)], [GatherBlocks(d)], q, sl);
      var n := |Rows([GatherBlocks(c)], q, sl)|;
      RowsOfOne(GatherBlocks(d), q, sl + n);
      assert Emit(GatherBlocks(d), q, sl + n) == [Wild];
    } else if Known(trailer.kind) {
      var d := Noted(c, trailer.kind, trailer);
      GatheredBlocksCons(d, []);
      assert [d] + [] == [d];
      RowsOfOne(GatherBlocks(d), q, sl);
      if rs != [] { TrailerEmit(rs[|rs| - 1], trailer, q, sl); }
    }
  }

  /** Two lists of facts that share a beginning yield the same rows when their ends do. */
  lemma RowsCompare(a: seq<Option<Facts>>, x: seq<Option<Facts>>, y: seq<Option<Facts>>, q: Query)
    ensures Rows(a + x, q, 0) == Rows(a + y, q, 0)
      <==> Rows(x, q, |Rows(a, q, 0)|) == Rows(y, q, |Rows(a, q, 0)|)
  {
    RowsAppend(a, x, q, 0);
    RowsAppend(a, y, q, 0);
    var n := |Rows(a, q, 0)|;
    SamePrefix(Rows(a, q, 0), Rows(x, q, n), Rows(y, q, n));
  }

  /** For every list of sockets the parser emits exactly the rows of those whose family matches, in
      order, each from that socket's own blocks, if and only if the trailer's count is harmless. */
  lemma ParseIsExpected(head: seq<Byte>, rs: seq<Record>, trailer: Block, q: Query)
    requires RecordsOk(rs) && HeadersOk(head, trailer)
    ensures Parse(Stream(head, rs, trailer), q) == Expected(rs, q) <==> Harmless(rs, trailer, q)
  {
    var c, closed := LastOpen(rs, Nothing()), Closed(rs, Nothing());
    var a, x, y := GatheredBlocks(closed), GatheredBlocks(Groups(Items([trailer]), c)), GatheredBlocks([c]);
    var n := |Rows(a, q, 0)|;
    calc {
      Parse(Stream(head, rs, trailer), q) == Expected(rs, q);
    <==> { ParseOfStream(head, rs, trailer, q); GatheredAppend(closed, Groups(Items([trailer]), c)); }
      Rows(a + x, q, 0) == Expected(rs, q);
    <==> { ExpectedAfterNothing(rs, q); GatheredAppend(closed, [c]); }
      Rows(a + x, q, 0) == Rows(a + y, q, 0);
    <==> { RowsCompare(a, x, y, q); }
      Rows(x, q, n) == Rows(y, q, n);
    <==> { TailExact(rs, trailer, q, n); }
      Harmless(rs, trailer, q);
    }
  }

  lemma SamePrefix<T>(a: seq<T>, x: seq<T>, y: seq<T>)
    ensures a + x == a + y <==> x == y
  {
    if a + x == a + y {
      assert x == (a + x)[|a|..] == (a + y)[|a|..] == y;
    }
  }

  lemma ExpectedAfterNothing(rs: seq<Record>, q: Query)
    ensures var none: Current<Block> := Nothing();
      Rows(GatheredBlocks(Closed(rs, none) + [LastOpen(rs, none)]), q, 0) == Expected(rs, q)
  {
    var none: Current<Block> := Nothing();
    ClosedAndOpen(rs, none);
    GatheredBlocksCons(none, AllOwn(rs));
    var fs := GatheredBlocks(AllOwn(rs));
    RowsAppend([None], fs, q, 0);
    RowsOfOne(None, q, 0);
  }

  lemma EmitOwn(r: Record, q: Query, sl: nat)
    requires RecordOk(r)
    ensures Wild !in Emit(GatherBlocks(OwnBlocks(r)), q, sl)
    ensures |Emit(GatherBlocks(OwnBlocks(r)), q, sl)| == if Wanted(r, q) then 1 else 0
  {
    OwnReadable(r, q);
  }

  /** The rows that the records call for are all well read, and one appears exactly for each record
      of the wanted family. */
  lemma {:induction false} ExpectedRowsReadable(rs: seq<Record>, q: Query, sl: nat)
    requires RecordsOk(rs)
    ensures Wild !in Rows(GatheredBlocks(AllOwn(rs)), q, sl)
    ensures |Rows(GatheredBlocks(AllOwn(rs)), q, sl)| == WantedCount(rs, q)
    decreases |rs|
  {
    if rs != [] {
      var own, rest := OwnBlocks(rs[0]), AllOwn(rs[1..]);
      var e := Emit(GatherBlocks(own), q, sl);
      EmitOwn(rs[0], q, sl);
      ExpectedRowsReadable(rs[1..], q, sl + |e|);
      calc {
        Rows(GatheredBlocks(AllOwn(rs)), q, sl);
      == { GatheredBlocksCons(own, rest); }
        Rows([GatherBlocks(own)] + GatheredBlocks(rest), q, sl);
      == { RowsAppend([GatherBlocks(own)], GatheredBlocks(rest), q, sl); RowsOfOne(GatherBlocks(own), q, sl); }
        e + Rows(GatheredBlocks(rest), q, sl + |e|);
      }
    }
  }

  function WantedCount(rs: seq<Record>, q: Query): nat {
    if rs == [] then 0 else (if Wanted(rs[0], q) then 1 else 0) + WantedCount(rs[1..], q)
  }
}
