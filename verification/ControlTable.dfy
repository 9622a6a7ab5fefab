/**
 The slot table of the kernel-control bridge (kext/procfs_ctl.c): sixteen request slots, the
 wrapping sequence counter and the connected flag. Each critical section under the bridge lock
 is given twice: as a function on the table's value, which the protocol in module Bridge steps
 through, and as a method of class ControlBlock that works in place as the kernel code does.
 */
module ControlTable {
  import opened Common

  const SLOTS: nat := 16

  /** A slot's fixed payload buffer. */
  type Buffer = b: seq<Byte> | |b| == MAX_PAYLOAD witness seq(MAX_PAYLOAD, _ => 0)

  type PayloadLength = n: nat | n <= MAX_PAYLOAD

  datatype Slot = Slot(inUse: bool, done: bool, seqNo: U32, error: int, len: PayloadLength, buf: Buffer)

  /** A reply's header fields and the payload bytes that actually arrived with it. */
  datatype Reply = Reply(seqNo: U32, error: int, len: U32, payload: seq<Byte>)

  /** What the kernel hands to the control's send callback. */
  datatype Datagram = Runt | Datagram(magic: U32, reply: Reply)

  const MAGIC: U32 := 0x50524F43

  /** The daemon always sends as many payload bytes as its header announces, at most one payload. */
  predicate Complete(r: Reply) {
    |r.payload| == r.len && r.len <= MAX_PAYLOAD
  }

  // ----- sequence numbers -----

  /** Pre-increment of the 32-bit counter, skipping zero when it wraps. */
  function NextSeq(counter: U32): U32 {
    var n := (counter + 1) % TWO32;
    if n == 0 then 1 else n
  }

  /** Number of distinct sequence numbers before they repeat. */
  const PERIOD: nat := 0xFFFF_FFFF

  /** The sequence number that the `ticket`-th claim (counting from 0) receives. */
  function SeqOf(ticket: nat): U32 {
    ticket % PERIOD + 1
  }

  /** Counter value before claim number `ticket`. */
  function CounterBefore(ticket: nat): U32 {
    if ticket == 0 then 0 else SeqOf(ticket - 1)
  }

  lemma NextSeqIsSeqOf(ticket: nat)
    ensures NextSeq(CounterBefore(ticket)) == SeqOf(ticket) == CounterBefore(ticket + 1)
    ensures SeqOf(ticket) != 0
  {
    if ticket > 0 {
      var m := ticket - 1;
      assert m == PERIOD * (m / PERIOD) + m % PERIOD;
      if m % PERIOD == PERIOD - 1 {
        assert ticket == PERIOD * (m / PERIOD + 1);
      } else {
        assert ticket == PERIOD * (m / PERIOD) + (m % PERIOD + 1);
      }
    }
  }

  /** Two claims get the same number exactly when a whole number of periods lies between them. */
  lemma SeqCollision(a: nat, b: nat)
    requires a <= b
    ensures SeqOf(a) == SeqOf(b) <==> (b - a) % PERIOD == 0
    ensures b - a < PERIOD && SeqOf(a) == SeqOf(b) ==> a == b
  {
    var qa, ra := a / PERIOD, a % PERIOD;
    var qb, rb := b / PERIOD, b % PERIOD;
    assert a == PERIOD * qa + ra && b == PERIOD * qb + rb;
    if rb >= ra {
      assert b - a == PERIOD * (qb - qa) + (rb - ra);
    } else {
      assert b - a == PERIOD * (qb - qa - 1) + (PERIOD + rb - ra);
    }
  }

  // ----- the critical sections as functions -----

  /** Least index of a free slot, or |slots| when every slot is in use. */
  function FirstFree(slots: seq<Slot>): (k: nat)
    ensures k <= |slots|
    ensures forall i :: 0 <= i < k ==> slots[i].inUse
    ensures k < |slots| ==> !slots[k].inUse
  {
    if slots == [] || !slots[0].inUse then 0 else 1 + FirstFree(slots[1..])
  }

  predicate Awaits(sl: Slot, seqNo: U32) {
    sl.inUse && !sl.done && sl.seqNo == seqNo
  }

  /** Least index of a slot still waiting for `seqNo`, or |slots|. */
  function FirstAwaiting(slots: seq<Slot>, seqNo: U32): (k: nat)
    ensures k <= |slots|
    ensures forall i :: 0 <= i < k ==> !Awaits(slots[i], seqNo)
    ensures k < |slots| ==> Awaits(slots[k], seqNo)
  {
    if slots == [] || Awaits(slots[0], seqNo) then 0 else 1 + FirstAwaiting(slots[1..], seqNo)
  }

  function Claimed(sl: Slot, seqNo: U32): Slot {
    sl.(inUse := true, done := false, seqNo := seqNo, error := 0, len := 0)
  }

  /** The slot after a matching reply: a reply cut short keeps the old buffer contents. */
  function Filled(sl: Slot, r: Reply): Slot {
    var plen := Min(r.len, MAX_PAYLOAD);
    var buf: Buffer := if 0 < plen <= |r.payload| then r.payload[..plen] + sl.buf[plen..] else sl.buf;
    sl.(buf := buf, len := plen, error := r.error, done := true)
  }

  function Delivered(slots: seq<Slot>, r: Reply): (s: seq<Slot>)
    ensures |s| == |slots|
  {
    var k := FirstAwaiting(slots, r.seqNo);
    if k < |slots| then slots[k := Filled(slots[k], r)] else slots
  }

  function Aborted(sl: Slot): Slot {
    if sl.inUse && !sl.done then sl.(error := ENOTCONN, done := true) else sl
  }

  function Disconnected(slots: seq<Slot>): (s: seq<Slot>)
    ensures |s| == |slots|
  {
    seq(|slots|, i requires 0 <= i < |slots| => Aborted(slots[i]))
  }

  datatype Outcome = Failed(errno: int) | Ok(data: seq<Byte>)

  /** What a waiter takes from its slot: the clipped payload, or the slot's error. */
  function Collected(sl: Slot, cap: nat): Outcome {
    if sl.error != 0 then Failed(sl.error)
    else Ok(sl.buf[..Min(sl.len, cap)])
  }

  /** The bytes a filled slot offers are the reply's own exactly when none of the announced bytes
      is missing: of a reply cut short nothing is kept, and all that is offered was there before. */
  lemma FilledHoldsPayloadIffWhole(sl: Slot, r: Reply)
    ensures Filled(sl, r).buf[..Filled(sl, r).len] == Clip(r.payload, Min(r.len, MAX_PAYLOAD))
            <==> Min(r.len, MAX_PAYLOAD) <= |r.payload|
    ensures Min(r.len, MAX_PAYLOAD) > |r.payload| ==>
              Filled(sl, r).buf == sl.buf && Filled(sl, r).len == Min(r.len, MAX_PAYLOAD)
  {
    var f := Filled(sl, r);
    var plen := Min(r.len, MAX_PAYLOAD);
    if 0 < plen <= |r.payload| {
      assert f.buf[..plen] == r.payload[..plen];
    }
  }

  /** The bridge's globals, updated in place. */
  class ControlBlock {
    var slots: array<Slot>
    var counter: U32
    var connected: bool
    var unit: U32

    ghost predicate Valid()
      reads this
    {
      slots.Length == SLOTS
    }

    constructor ()
      ensures Valid() && fresh(slots)
      ensures counter == 0 && !connected
      ensures forall i :: 0 <= i < SLOTS ==> !slots[i].inUse
    {
      var empty: Buffer := seq(MAX_PAYLOAD, _ => 0);
      slots := new Slot[SLOTS](_ => Slot(false, false, 0, 0, 0, empty));
      counter, connected, unit := 0, false, 0;
    }

    /** procfs_ctl_connect */
    method Connect(peer: U32)
      requires Valid()
      modifies this`connected, this`unit
      ensures Valid() && connected && unit == peer
    {
      unit := peer;
      connected := true;
    }

    /** procfs_ctl_disconnect */
    method Disconnect()
      requires Valid()
      modifies this`connected, slots
      ensures Valid() && !connected
      ensures slots[..] == Disconnected(old(slots[..]))
    {
      connected := false;
      for i := 0 to SLOTS
        invariant Valid() && !connected
        invariant forall j :: 0 <= j < i ==> slots[j] == Aborted(old(slots[j]))
        invariant forall j :: i <= j < SLOTS ==> slots[j] == old(slots[j])
      {
        if slots[i].inUse && !slots[i].done {
          slots[i] := slots[i].(error := ENOTCONN, done := true);
        }
      }
    }

    /** procfs_ctl_send */
    method Send(m: Datagram)
      requires Valid()
      modifies slots
      ensures Valid()
      ensures slots[..] == if m.Datagram? && m.magic == MAGIC then Delivered(old(slots[..]), m.reply)
                           else old(slots[..])
    {
      if m.Datagram? && m.magic == MAGIC {
        var r := m.reply;
        var plen := if r.len > MAX_PAYLOAD then MAX_PAYLOAD else r.len;
        var i := 0;
        while i < SLOTS
          invariant 0 <= i <= SLOTS
          invariant slots[..] == old(slots[..])
          invariant forall j :: 0 <= j < i ==> !Awaits(slots[j], r.seqNo)
        {
          if slots[i].inUse && !slots[i].done && slots[i].seqNo == r.seqNo {
            if plen > 0 && |r.payload| >= plen {
              slots[i] := slots[i].(buf := r.payload[..plen] + slots[i].buf[plen..]);
            }
            slots[i] := slots[i].(len := plen, error := r.error, done := true);
            assert FirstAwaiting(old(slots[..]), r.seqNo) == i;
            return;
          }
          i := i + 1;
        }
      }
    }

    /** First critical section of procfs_ctl_request_impl: pick a slot and a sequence number. */
    method Claim() returns (slot: int, seqNo: U32)
      requires Valid()
      modifies this`counter, slots
      ensures Valid()
      ensures FirstFree(old(slots[..])) == SLOTS ==>
                slot == -1 && slots[..] == old(slots[..]) && counter == old(counter)
      ensures FirstFree(old(slots[..])) < SLOTS ==>
                slot == FirstFree(old(slots[..])) && seqNo == counter == NextSeq(old(counter))
                && slots[..] == old(slots[..])[slot := Claimed(old(slots[..])[slot], seqNo)]
    {
      slot, seqNo := -1, 0;
      var i := 0;
      while i < SLOTS
        invariant 0 <= i <= SLOTS
        invariant slot == -1
        invariant forall j :: 0 <= j < i ==> slots[j].inUse
      {
        if !slots[i].inUse {
          slot := i;
          break;
        }
        i := i + 1;
      }
      assert old(slots[..]) == slots[..];
      if slot < 0 {
        return;
      }
      assert slot == FirstFree(slots[..]);
      counter := (counter + 1) % TWO32;
      seqNo := counter;
      if seqNo == 0 {
        counter := (counter + 1) % TWO32;
        seqNo := counter;
      }
      slots[slot] := slots[slot].(inUse := true, done := false, seqNo := seqNo, error := 0, len := 0);
    }

    /** Second critical section: what the waiter leaves with once it stops sleeping. */
    method Finish(slot: nat, cap: nat) returns (out: Outcome)
      requires Valid() && slot < SLOTS
      ensures out == if slots[slot].done then Collected(slots[slot], cap) else Failed(ETIMEDOUT)
    {
      if slots[slot].done {
        var error := slots[slot].error;
        if error == 0 {
          var n: nat := slots[slot].len;
          if n > cap {
            n := cap;
          }
          out := Ok(slots[slot].buf[..n]);
        } else {
          out := Failed(error);
        }
      } else {
        out := Failed(ETIMEDOUT);
      }
    }

    /** Last critical section: give the slot back. */
    method Release(slot: nat)
      requires Valid() && slot < SLOTS
      modifies slots
      ensures Valid()
      ensures slots[..] == old(slots[..])[slot := old(slots[slot]).(inUse := false)]
    {
      slots[slot] := slots[slot].(inUse := false);
    }
  }
}
