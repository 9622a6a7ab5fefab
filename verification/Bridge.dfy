/**
 The request protocol of the kernel-control bridge as a transition system: any number of
 concurrent callers of procfs_ctl_request_impl (kext/procfs_ctl.c), the daemon's request loop
 (tools/procfsd.c), the wire between them, and connect/disconnect. Every critical section under
 the bridge lock is one step; steps interleave in any order.

 A claim is identified by its ticket, the number of claims before it. Tickets, the `answers` the
 daemon gave and the `holder` of each slot are history: no step's guard or effect on the slot
 table depends on them, except the guard of a claim, which states the one assumption made about
 the environment: nothing that is still live was claimed PERIOD or more claims ago.
 */
module Bridge {
  import opened Common
  import opened ControlTable

  /** How far one call of procfs_ctl_request_impl has come. */
  datatype Phase =
    | Checked(cap: nat)                                        // saw the connected flag
    | Rejected(errno: int)                                     // returned without ever owning a slot
    | Owning(slot: nat, ticket: nat, cap: nat, sent: bool)     // claimed; waiting once sent
    | Leaving(slot: nat, ticket: nat, cap: nat, out: Outcome)  // outcome fixed, slot not yet given back
    | Returned(ticket: nat, cap: nat, out: Outcome)

  predicate Holds(p: Phase) {
    p.Owning? || p.Leaving?
  }

  predicate HasTicket(p: Phase) {
    p.Owning? || p.Leaving? || p.Returned?
  }

  datatype State = State(
    slots: seq<Slot>,
    counter: U32,
    connected: bool,
    calls: map<nat, Phase>,
    requests: map<nat, U32>,    // ticket -> sequence number, on the wire to the daemon
    replies: map<nat, Reply>,   // ticket -> reply, on the wire to the kernel
    answers: map<nat, Reply>,   // history: what the daemon answered
    holder: map<nat, nat>,      // history: slot -> call that owns it
    issued: seq<nat>)           // history: the call that made each claim, in order

  predicate Init(s: State) {
    && |s.slots| == SLOTS && (forall k :: 0 <= k < SLOTS ==> !s.slots[k].inUse)
    && s.counter == 0 && s.calls == map[] && s.requests == map[] && s.replies == map[]
    && s.answers == map[] && s.holder == map[] && s.issued == []
  }

  datatype Step =
    | Begin(call: nat, cap: nat)           // the unlocked test of the connected flag
    | Claim(call: nat)
    | EnqueueFails(call: nat, errno: int)
    | Enqueue(call: nat)
    | Answer(ticket: nat, reply: Reply)    // the daemon serves a request
    | Deliver(ticket: nat)                 // the kernel runs the send callback
    | LoseRequest(ticket: nat)
    | LoseReply(ticket: nat)
    | Collect(call: nat)                   // the waiter finds its slot done
    | TimeOut(call: nat)                   // the sleep ends with the slot still pending
    | Release(call: nat)
    | Connect
    | Disconnect

  /** No live ticket is more than `span` claims old. */
  ghost predicate Within(s: State, span: nat) {
    && (forall t :: t in s.requests ==> |s.issued| - t <= span)
    && (forall t :: t in s.replies ==> |s.issued| - t <= span)
    && (forall c :: c in s.calls && Holds(s.calls[c]) ==> |s.issued| - s.calls[c].ticket <= span)
  }

  ghost predicate Enabled(s: State, step: Step) {
    match step
    case Begin(c, cap) => c !in s.calls
    case Claim(c) => c in s.calls && s.calls[c].Checked? && Within(s, PERIOD - 1)
    case EnqueueFails(c, e) => c in s.calls && s.calls[c].Owning? && !s.calls[c].sent && e != 0
    case Enqueue(c) => c in s.calls && s.calls[c].Owning? && !s.calls[c].sent && s.calls[c].slot < |s.slots|
    case Answer(t, r) => t in s.requests && r.seqNo == s.requests[t] && Complete(r)
    case Deliver(t) => t in s.replies
    case LoseRequest(t) => t in s.requests
    case LoseReply(t) => t in s.replies
    case Collect(c) => Waiting(s, c) && s.slots[s.calls[c].slot].done
    case TimeOut(c) => Waiting(s, c) && !s.slots[s.calls[c].slot].done
    case Release(c) => c in s.calls && s.calls[c].Leaving? && s.calls[c].slot < |s.slots|
    case Connect => true
    case Disconnect => true
  }

  predicate Waiting(s: State, c: nat) {
    c in s.calls && s.calls[c].Owning? && s.calls[c].sent && s.calls[c].slot < |s.slots|
  }

  ghost function Apply(s: State, step: Step): State
    requires Enabled(s, step)
  {
    match step
    case Begin(c, cap) =>
      s.(calls := s.calls[c := if s.connected then Checked(cap) else Rejected(ENOTCONN)])
    case Claim(c) => ApplyClaim(s, c)
    case EnqueueFails(c, e) => s.(calls := s.calls[c := Leave(s.calls[c], Failed(e))])
    case Enqueue(c) =>
      var p := s.calls[c];
      s.(calls := s.calls[c := p.(sent := true)], requests := s.requests[p.ticket := s.slots[p.slot].seqNo])
    case Answer(t, r) =>
      s.(requests := s.requests - {t}, replies := s.replies[t := r], answers := s.answers[t := r])
    case Deliver(t) => s.(slots := Delivered(s.slots, s.replies[t]), replies := s.replies - {t})
    case LoseRequest(t) => s.(requests := s.requests - {t})
    case LoseReply(t) => s.(replies := s.replies - {t})
    case Collect(c) =>
      var p := s.calls[c];
      s.(calls := s.calls[c := Leave(p, Collected(s.slots[p.slot], p.cap))])
    case TimeOut(c) => s.(calls := s.calls[c := Leave(s.calls[c], Failed(ETIMEDOUT))])
    case Release(c) =>
      var p := s.calls[c];
      s.(slots := s.slots[p.slot := s.slots[p.slot].(inUse := false)],
         holder := s.holder - {p.slot},
         calls := s.calls[c := Returned(p.ticket, p.cap, p.out)])
    case Connect => s.(connected := true)
    case Disconnect => s.(connected := false, slots := Disconnected(s.slots))
  }

  function Leave(p: Phase, out: Outcome): Phase
    requires p.Owning?
  {
    Leaving(p.slot, p.ticket, p.cap, out)
  }

  ghost function ApplyClaim(s: State, c: nat): State
    requires c in s.calls && s.calls[c].Checked?
  {
    var k := FirstFree(s.slots);
    if k == |s.slots| then s.(calls := s.calls[c := Rejected(EBUSY)])
    else
      var n := NextSeq(s.counter);
      s.(counter := n,
         slots := s.slots[k := Claimed(s.slots[k], n)],
         calls := s.calls[c := Owning(k, |s.issued|, s.calls[c].cap, false)],
         holder := s.holder[k := c],
         issued := s.issued + [c])
  }

  /** A run: every step is enabled in the state that the steps before it lead to. */
  ghost predicate Runs(s: State, steps: seq<Step>)
    decreases |steps|
  {
    steps == [] || (Enabled(s, steps[0]) && Runs(Apply(s, steps[0]), steps[1..]))
  }

  ghost function Exec(s: State, steps: seq<Step>): State
    requires Runs(s, steps)
    decreases |steps|
  {
    if steps == [] then s else Exec(Apply(s, steps[0]), steps[1..])
  }

  // ----- the invariant -----

  /** The slot holds nothing yet, or an error, or the whole answer to ticket `t`. */
  predicate Sound(sl: Slot, t: nat, answers: map<nat, Reply>) {
    sl.done && sl.error == 0 ==>
      t in answers && answers[t].error == 0 && sl.buf[..sl.len] == answers[t].payload
  }

  /** A successful outcome is the clipped answer to ticket `t`. */
  predicate Own(out: Outcome, t: nat, cap: nat, answers: map<nat, Reply>) {
    out.Ok? ==> t in answers && answers[t].error == 0 && out.data == Clip(answers[t].payload, cap)
  }

  /** A call between its claim and its release owns its slot, which carries its number and content. */
  predicate OwnerOk(s: State, c: nat, p: Phase)
    requires Holds(p)
  {
    && p.slot in s.holder && s.holder[p.slot] == c
    && p.slot < |s.slots| && s.slots[p.slot].inUse
    && s.slots[p.slot].seqNo == SeqOf(p.ticket)
    && Sound(s.slots[p.slot], p.ticket, s.answers)
    && |s.issued| - p.ticket <= PERIOD
  }

  predicate CallOk(s: State, c: nat)
    requires c in s.calls
  {
    var p := s.calls[c];
    && (HasTicket(p) ==> p.ticket < |s.issued| && s.issued[p.ticket] == c)
    && (Holds(p) ==> OwnerOk(s, c, p))
    && (p.Leaving? || p.Returned? ==> Own(p.out, p.ticket, p.cap, s.answers))
    && (p.Owning? && !p.sent ==> p.ticket !in s.requests && p.ticket !in s.answers)
  }

  /** A slot is in use exactly while some call owns it. */
  predicate SlotOk(s: State, k: nat) {
    && (k < |s.slots| && s.slots[k].inUse <==> k in s.holder)
    && (k in s.holder ==>
          s.holder[k] in s.calls && Holds(s.calls[s.holder[k]]) && s.calls[s.holder[k]].slot == k)
  }

  /** Messages carry the number of their ticket, and a ticket is answered at most once. */
  predicate WireOk(s: State, t: nat) {
    && (t in s.requests ==>
          t < |s.issued| && s.requests[t] == SeqOf(t) && t !in s.answers && |s.issued| - t <= PERIOD)
    && (t in s.replies ==> t in s.answers && s.replies[t] == s.answers[t] && |s.issued| - t <= PERIOD)
    && (t in s.answers ==> t < |s.issued| && s.answers[t].seqNo == SeqOf(t) && Complete(s.answers[t]))
  }

  ghost predicate Inv(s: State) {
    && |s.slots| == SLOTS
    && s.counter == CounterBefore(|s.issued|)
    && (forall c {:trigger CallOk(s, c)} :: c in s.calls ==> CallOk(s, c))
    && (forall k: nat {:trigger SlotOk(s, k)} :: SlotOk(s, k))
    && (forall t: nat {:trigger WireOk(s, t)} :: WireOk(s, t))
  }

  lemma InitInv(s: State)
    requires Init(s)
    ensures Inv(s)
  {
  }

  /** A call keeps its invariant when its phase and its slot stay as they are. */
  lemma CallKept(s: State, s': State, c: nat)
    requires c in s.calls && CallOk(s, c) && c in s'.calls && s'.calls[c] == s.calls[c]
    requires s.issued <= s'.issued
    requires forall t :: t in s.answers ==> t in s'.answers && s'.answers[t] == s.answers[t]
    requires var p := s.calls[c]; Holds(p) ==>
      && p.slot in s'.holder && s'.holder[p.slot] == c
      && p.slot < |s'.slots| && s'.slots[p.slot] == s.slots[p.slot]
      && |s'.issued| - p.ticket <= PERIOD
    requires var p := s.calls[c]; p.Owning? && !p.sent ==> p.ticket !in s'.requests && p.ticket !in s'.answers
    ensures CallOk(s', c)
  {
  }

  /** Steps that move one call to a later phase and touch nothing else. */
  lemma PhaseInv(s: State, c: nat, p: Phase)
    requires Inv(s)
    requires c in s.calls ==> Holds(s.calls[c]) == Holds(p)
    requires c in s.calls && Holds(p) ==> p.slot == s.calls[c].slot
    requires c !in s.calls ==> !Holds(p)
    requires c in s.calls[c := p] ==> CallOk(s.(calls := s.calls[c := p]), c)
    ensures Inv(s.(calls := s.calls[c := p]))
  {
    var s' := s.(calls := s.calls[c := p]);
    forall d | d in s'.calls ensures CallOk(s', d) {
      if d != c { CallKept(s, s', d); }
    }
    forall k: nat ensures SlotOk(s', k) {
      assert SlotOk(s, k);
      if k in s.holder { assert CallOk(s, s.holder[k]); }
    }
    forall t: nat ensures WireOk(s', t) { assert WireOk(s, t); }
  }

  lemma ClaimerOk(s: State, c: nat)
    requires Inv(s) && Enabled(s, Claim(c)) && FirstFree(s.slots) < |s.slots|
    ensures CallOk(ApplyClaim(s, c), c)
  {
    NextSeqIsSeqOf(|s.issued|);
    assert WireOk(s, |s.issued|);
  }

  lemma ClaimInv(s: State, c: nat)
    requires Inv(s) && Enabled(s, Claim(c))
    ensures Inv(ApplyClaim(s, c))
  {
    var k := FirstFree(s.slots);
    var s' := ApplyClaim(s, c);
    if k == |s.slots| {
      PhaseInv(s, c, Rejected(EBUSY));
      return;
    }
    NextSeqIsSeqOf(|s.issued|);
    assert SlotOk(s, k);
    forall d | d in s'.calls ensures CallOk(s', d) {
      if d == c { ClaimerOk(s, c); } else { CallKept(s, s', d); }
    }
    forall j: nat ensures SlotOk(s', j) { assert SlotOk(s, j); }
    forall t: nat ensures WireOk(s', t) { assert WireOk(s, t); }
  }

  lemma EnqueueInv(s: State, c: nat)
    requires Inv(s) && Enabled(s, Enqueue(c))
    ensures Inv(Apply(s, Enqueue(c)))
  {
    var s' := Apply(s, Enqueue(c));
    assert CallOk(s, c);
    forall d | d in s'.calls ensures CallOk(s', d) {
      if d != c { CallKept(s, s', d); }
    }
    forall j: nat ensures SlotOk(s', j) { assert SlotOk(s, j); }
    forall t: nat ensures WireOk(s', t) { assert WireOk(s, t); }
  }

  /** Steps of the daemon and of the wire leave slots and phases alone. */
  lemma WireStepInv(s: State, step: Step)
    requires Inv(s) && Enabled(s, step)
    requires step.Answer? || step.LoseRequest? || step.LoseReply?
    ensures Inv(Apply(s, step))
  {
    var s' := Apply(s, step);
    assert WireOk(s, step.ticket);
    forall d | d in s'.calls ensures CallOk(s', d) { CallKept(s, s', d); }
    forall j: nat ensures SlotOk(s', j) { assert SlotOk(s, j); }
    forall t: nat ensures WireOk(s', t) { assert WireOk(s, t); }
  }

  /** While both are live, a reply's number finds no slot but that of its own ticket. */
  lemma NumbersIdentify(s: State, t: nat, k: nat)
    requires Inv(s) && t in s.replies && k < SLOTS && s.slots[k].inUse
    requires s.slots[k].seqNo == s.replies[t].seqNo
    ensures k in s.holder && s.holder[k] in s.calls && Holds(s.calls[s.holder[k]])
    ensures s.calls[s.holder[k]].ticket == t
  {
    assert SlotOk(s, k) && CallOk(s, s.holder[k]) && WireOk(s, t);
    var u := s.calls[s.holder[k]].ticket;
    if u <= t { SeqCollision(u, t); } else { SeqCollision(t, u); }
  }

  /** Steps that rewrite the content of slots but neither their number nor their use. */
  lemma ContentInv(s: State, s': State)
    requires Inv(s) && s' == s.(slots := s'.slots, replies := s'.replies, connected := s'.connected)
    requires |s'.slots| == |s.slots|
    requires forall k :: 0 <= k < |s.slots| ==>
      s'.slots[k].inUse == s.slots[k].inUse && s'.slots[k].seqNo == s.slots[k].seqNo
    requires forall c :: c in s.calls && Holds(s.calls[c]) && s.calls[c].slot < |s.slots| ==>
      Sound(s'.slots[s.calls[c].slot], s.calls[c].ticket, s.answers)
    requires forall t :: t in s'.replies ==> t in s.replies && s'.replies[t] == s.replies[t]
    ensures Inv(s')
  {
    forall d | d in s'.calls ensures CallOk(s', d) { assert CallOk(s, d); }
    forall j: nat ensures SlotOk(s', j) { assert SlotOk(s, j); }
    forall t: nat ensures WireOk(s', t) { assert WireOk(s, t); }
  }

  lemma DeliverInv(s: State, t: nat)
    requires Inv(s) && Enabled(s, Deliver(t))
    ensures Inv(Apply(s, Deliver(t)))
  {
    var s' := Apply(s, Deliver(t));
    var r := s.replies[t];
    var k := FirstAwaiting(s.slots, r.seqNo);
    assert WireOk(s, t);
    if k < |s.slots| {
      NumbersIdentify(s, t, k);
      FilledHoldsPayloadIffWhole(s.slots[k], r);
    }
    forall c | c in s.calls && Holds(s.calls[c]) && s.calls[c].slot < |s.slots|
      ensures Sound(s'.slots[s.calls[c].slot], s.calls[c].ticket, s.answers)
    {
      assert CallOk(s, c);
    }
    ContentInv(s, s');
  }

  lemma DisconnectInv(s: State)
    requires Inv(s)
    ensures Inv(Apply(s, Disconnect))
  {
    var s' := Apply(s, Disconnect);
    forall c | c in s.calls && Holds(s.calls[c]) && s.calls[c].slot < |s.slots|
      ensures Sound(s'.slots[s.calls[c].slot], s.calls[c].ticket, s.answers)
    {
      assert CallOk(s, c);
    }
    ContentInv(s, s');
  }

  lemma CollectInv(s: State, c: nat)
    requires Inv(s) && Enabled(s, Collect(c))
    ensures Inv(Apply(s, Collect(c)))
  {
    var p := s.calls[c];
    var sl := s.slots[p.slot];
    assert CallOk(s, c);
    if sl.error == 0 {
      assert sl.buf[..Min(sl.len, p.cap)] == Clip(sl.buf[..sl.len], p.cap);
    }
    PhaseInv(s, c, Leave(p, Collected(sl, p.cap)));
  }

  lemma ReleaseInv(s: State, c: nat)
    requires Inv(s) && Enabled(s, Release(c))
    ensures Inv(Apply(s, Release(c)))
  {
    var s' := Apply(s, Release(c));
    assert CallOk(s, c);
    forall d | d in s'.calls ensures CallOk(s', d) {
      if d != c {
        assert CallOk(s, d);
        CallKept(s, s', d);
      }
    }
    forall j: nat ensures SlotOk(s', j) { assert SlotOk(s, j); }
    forall t: nat ensures WireOk(s', t) { assert WireOk(s, t); }
  }

  lemma StepInv(s: State, step: Step)
    requires Inv(s) && Enabled(s, step)
    ensures Inv(Apply(s, step))
  {
    match step
    case Begin(c, cap) => PhaseInv(s, c, if s.connected then Checked(cap) else Rejected(ENOTCONN));
    case Claim(c) => ClaimInv(s, c);
    case EnqueueFails(c, e) => assert CallOk(s, c); PhaseInv(s, c, Leave(s.calls[c], Failed(e)));
    case Enqueue(c) => EnqueueInv(s, c);
    case Answer(_, _) => WireStepInv(s, step);
    case LoseRequest(_) => WireStepInv(s, step);
    case LoseReply(_) => WireStepInv(s, step);
    case Deliver(t) => DeliverInv(s, t);
    case Collect(c) => CollectInv(s, c);
    case TimeOut(c) => assert CallOk(s, c); PhaseInv(s, c, Leave(s.calls[c], Failed(ETIMEDOUT)));
    case Release(c) => ReleaseInv(s, c);
    case Connect =>
      forall c | c in s.calls && Holds(s.calls[c]) && s.calls[c].slot < |s.slots|
        ensures Sound(s.slots[s.calls[c].slot], s.calls[c].ticket, s.answers)
      {
        assert CallOk(s, c);
      }
      ContentInv(s, s.(connected := true));
    case Disconnect => DisconnectInv(s);
  }

  lemma {:induction false} RunInv(s: State, steps: seq<Step>)
    requires Inv(s) && Runs(s, steps)
    ensures Inv(Exec(s, steps))
    decreases |steps|
  {
    if steps != [] {
      StepInv(s, steps[0]);
      RunInv(Apply(s, steps[0]), steps[1..]);
    }
  }

  // ----- what every run guarantees -----

  /** In every reachable state the slots in use carry distinct nonzero sequence numbers. */
  lemma DistinctNumbers(s0: State, steps: seq<Step>)
    requires Init(s0) && Runs(s0, steps)
    ensures var slots := Exec(s0, steps).slots;
      && |slots| == SLOTS
      && (forall i :: 0 <= i < SLOTS && slots[i].inUse ==> slots[i].seqNo != 0)
      && (forall i, j :: 0 <= i < j < SLOTS && slots[i].inUse && slots[j].inUse ==>
            slots[i].seqNo != slots[j].seqNo)
  {
    InitInv(s0);
    RunInv(s0, steps);
    var s := Exec(s0, steps);
    forall i | 0 <= i < SLOTS && s.slots[i].inUse ensures s.slots[i].seqNo != 0 {
      assert SlotOk(s, i) && CallOk(s, s.holder[i]);
    }
    forall i, j | 0 <= i < j < SLOTS && s.slots[i].inUse && s.slots[j].inUse
      ensures s.slots[i].seqNo != s.slots[j].seqNo
    {
      NumbersDiffer(s, i, j);
    }
  }

  lemma NumbersDiffer(s: State, i: nat, j: nat)
    requires Inv(s) && i < j < SLOTS && s.slots[i].inUse && s.slots[j].inUse
    ensures s.slots[i].seqNo != s.slots[j].seqNo
  {
    assert SlotOk(s, i) && SlotOk(s, j) && CallOk(s, s.holder[i]) && CallOk(s, s.holder[j]);
    var t, u := s.calls[s.holder[i]].ticket, s.calls[s.holder[j]].ticket;
    if t <= u { SeqCollision(t, u); } else { SeqCollision(u, t); }
  }

  /** A request that returns 0 got the clipped payload that the daemon produced for that very request. */
  lemma OwnPayload(s0: State, steps: seq<Step>, c: nat)
    requires Init(s0) && Runs(s0, steps)
    requires var s := Exec(s0, steps); c in s.calls && s.calls[c].Returned? && s.calls[c].out.Ok?
    ensures var s := Exec(s0, steps); var p := s.calls[c];
      && p.ticket < |s.issued| && s.issued[p.ticket] == c
      && p.ticket in s.answers && s.answers[p.ticket].error == 0
      && p.out.data == Clip(s.answers[p.ticket].payload, p.cap)
  {
    InitInv(s0);
    RunInv(s0, steps);
    assert CallOk(Exec(s0, steps), c);
  }

  /** Each slot in use is owned by exactly one call, and each call past its claim owns one slot. */
  lemma OneOwner(s0: State, steps: seq<Step>, k: nat)
    requires Init(s0) && Runs(s0, steps) && k < SLOTS
    ensures var s := Exec(s0, steps);
      && |s.slots| == SLOTS
      && (s.slots[k].inUse <==> exists c :: c in s.calls && Holds(s.calls[c]) && s.calls[c].slot == k)
      && forall c, d ::
           (c in s.calls && d in s.calls && Holds(s.calls[c]) && Holds(s.calls[d])
            && s.calls[c].slot == s.calls[d].slot) ==> c == d
  {
    InitInv(s0);
    RunInv(s0, steps);
    var s := Exec(s0, steps);
    assert SlotOk(s, k);
    forall c | c in s.calls && Holds(s.calls[c]) ensures OwnerOk(s, c, s.calls[c]) {
      assert CallOk(s, c);
    }
  }

  /** EBUSY is returned exactly when each of the sixteen slots is owned by a call of its own. */
  lemma BusyIffAllOwned(s0: State, steps: seq<Step>, c: nat)
    requires Init(s0) && Runs(s0, steps) && Enabled(Exec(s0, steps), Claim(c))
    ensures var s := Exec(s0, steps);
      Apply(s, Claim(c)).calls[c] == Rejected(EBUSY) <==>
        forall k: nat :: k < SLOTS ==>
          k in s.holder && s.holder[k] in s.calls && Holds(s.calls[s.holder[k]]) && s.calls[s.holder[k]].slot == k
  {
    InitInv(s0);
    RunInv(s0, steps);
    var s := Exec(s0, steps);
    forall k: nat | k < SLOTS ensures s.slots[k].inUse <==> k in s.holder
    {
      assert SlotOk(s, k);
    }
    forall k: nat | k in s.holder
      ensures s.holder[k] in s.calls && Holds(s.calls[s.holder[k]]) && s.calls[s.holder[k]].slot == k
    {
      assert SlotOk(s, k);
    }
    var f := FirstFree(s.slots);
    if f < SLOTS { assert f !in s.holder; }
  }

  /** Once no call is between its claim and its release, all slots are free again. */
  lemma NothingLeaks(s0: State, steps: seq<Step>)
    requires Init(s0) && Runs(s0, steps)
    requires forall c :: c in Exec(s0, steps).calls ==> !Holds(Exec(s0, steps).calls[c])
    ensures forall k :: 0 <= k < |Exec(s0, steps).slots| ==> !Exec(s0, steps).slots[k].inUse
  {
    InitInv(s0);
    RunInv(s0, steps);
    var s := Exec(s0, steps);
    forall k | 0 <= k < |s.slots| ensures !s.slots[k].inUse {
      assert SlotOk(s, k);
    }
  }

  /** Own steps a call has left before it has returned. */
  function Remaining(p: Phase): nat {
    match p
    case Checked(_) => 4
    case Owning(_, _, _, sent) => if sent then 2 else 3
    case Leaving(_, _, _, _) => 1
    case Rejected(_) => 0
    case Returned(_, _, _) => 0
  }

  /** The step is one that call `c` takes. */
  predicate Acts(step: Step, c: nat) {
    (step.Begin? || step.Claim? || step.EnqueueFails? || step.Enqueue? || step.Collect? || step.TimeOut?
     || step.Release?) && step.call == c
  }

  /** A step leaves a call where it is or takes it strictly nearer its return; so no call releases
      its slot twice, and a call that has returned never changes its outcome. */
  lemma PhasesAdvance(s: State, step: Step, c: nat)
    requires Enabled(s, step) && c in s.calls
    ensures var s' := Apply(s, step);
      && c in s'.calls
      && (s'.calls[c] == s.calls[c] || Remaining(s'.calls[c]) < Remaining(s.calls[c]))
      && (!Acts(step, c) ==> s'.calls[c] == s.calls[c])
      && (Holds(s.calls[c]) && !Holds(s'.calls[c]) ==> step == Release(c))
  {
  }

  function Releases(steps: seq<Step>, c: nat): nat {
    if steps == [] then 0 else (if steps[0] == Release(c) then 1 else 0) + Releases(steps[1..], c)
  }

  function HasReturned(s: State, c: nat): nat {
    if c in s.calls && s.calls[c].Returned? then 1 else 0
  }

  lemma ReleaseCounts(s: State, step: Step, c: nat)
    requires Enabled(s, step)
    ensures (if step == Release(c) then 1 else 0) == HasReturned(Apply(s, step), c) - HasReturned(s, c)
    ensures HasReturned(s, c) == 1 ==> Apply(s, step).calls[c] == s.calls[c]
  {
  }

  /** Over any run, a call's releases number exactly the times it went from not returned to
      returned; from an initial state that is once if it returned after a claim, else never. */
  lemma {:induction false} ReleasedOnce(s: State, steps: seq<Step>, c: nat)
    requires Runs(s, steps)
    ensures Releases(steps, c) == HasReturned(Exec(s, steps), c) - HasReturned(s, c)
    ensures HasReturned(s, c) == 1 ==> Exec(s, steps).calls[c] == s.calls[c]
    decreases |steps|
  {
    if steps != [] {
      ReleaseCounts(s, steps[0], c);
      ReleasedOnce(Apply(s, steps[0]), steps[1..], c);
    }
  }

  /** A call past its claim is never stuck: a step of its own is enabled whatever the others did. */
  lemma NeverStuck(s0: State, steps: seq<Step>, c: nat)
    requires Init(s0) && Runs(s0, steps)
    requires c in Exec(s0, steps).calls && Holds(Exec(s0, steps).calls[c])
    ensures var s := Exec(s0, steps);
      exists step :: Enabled(s, step) && Remaining(Apply(s, step).calls[c]) < Remaining(s.calls[c])
  {
    InitInv(s0);
    RunInv(s0, steps);
    var s := Exec(s0, steps);
    assert CallOk(s, c);
    var p := s.calls[c];
    var step := if p.Leaving? then Release(c)
                else if !p.sent then Enqueue(c)
                else if s.slots[p.slot].done then Collect(c) else TimeOut(c);
    assert Enabled(s, step);
    assert Remaining(Apply(s, step).calls[c]) < Remaining(p);
  }

  // ----- disconnect -----

  /** The call can only end in an error: it has one already, or its slot is done with one. */
  predicate Doomed(s: State, c: nat) {
    && c in s.calls
    && var p := s.calls[c];
       && (p.Owning? ==> p.slot < |s.slots| && s.slots[p.slot].done && s.slots[p.slot].error != 0)
       && (p.Owning? || p.Leaving? || p.Returned?)
       && (p.Leaving? || p.Returned? ==> p.out.Failed? && p.out.errno != 0)
  }

  /** Only its owner touches a slot that is done. */
  lemma DoneSlotKept(s: State, step: Step, c: nat)
    requires Inv(s) && Enabled(s, step) && c in s.calls && Holds(s.calls[c])
    requires s.calls[c].slot < |s.slots| && s.slots[s.calls[c].slot].done
    requires step != Release(c)
    ensures |Apply(s, step).slots| == |s.slots|
    ensures Apply(s, step).slots[s.calls[c].slot] == s.slots[s.calls[c].slot]
  {
    assert CallOk(s, c);
    if step.Release? {
      assert CallOk(s, step.call);
    }
  }

  lemma DoomedStep(s: State, step: Step, c: nat)
    requires Inv(s) && Enabled(s, step) && Doomed(s, c)
    ensures Doomed(Apply(s, step), c)
  {
    if s.calls[c].Owning? {
      DoneSlotKept(s, step, c);
    }
    if !Acts(step, c) {
      PhasesAdvance(s, step, c);
    } else {
      DoomedOwnStep(s, step, c);
    }
  }

  lemma DoomedOwnStep(s: State, step: Step, c: nat)
    requires Enabled(s, step) && Acts(step, c) && Doomed(s, c)
    ensures Doomed(Apply(s, step), c)
  {
  }

  lemma {:induction false} DoomedRun(s: State, steps: seq<Step>, c: nat)
    requires Inv(s) && Runs(s, steps) && Doomed(s, c)
    ensures Doomed(Exec(s, steps), c)
    decreases |steps|
  {
    if steps != [] {
      DoomedStep(s, steps[0], c);
      StepInv(s, steps[0]);
      DoomedRun(Apply(s, steps[0]), steps[1..], c);
    }
  }

  /** A disconnect leaves no owned slot pending, and every request still incomplete at that moment
      can afterwards only return a nonzero error, whatever happens in between. */
  lemma DisconnectFailsPending(s0: State, before: seq<Step>, after: seq<Step>, c: nat)
    requires Init(s0) && Runs(s0, before)
    requires var s := Exec(s0, before);
      c in s.calls && s.calls[c].Owning? && s.calls[c].slot < |s.slots| && !s.slots[s.calls[c].slot].done
    requires Runs(Apply(Exec(s0, before), Disconnect), after)
    ensures forall k :: 0 <= k < |Exec(s0, before).slots| ==>
      var sl := Apply(Exec(s0, before), Disconnect).slots[k]; sl.inUse ==> sl.done
    ensures var s := Exec(Apply(Exec(s0, before), Disconnect), after);
      && c in s.calls
      && (s.calls[c].Returned? ==> s.calls[c].out.Failed? && s.calls[c].out.errno != 0)
  {
    InitInv(s0);
    RunInv(s0, before);
    var s := Exec(s0, before);
    assert CallOk(s, c);
    StepInv(s, Disconnect);
    assert Doomed(Apply(s, Disconnect), c);
    DoomedRun(Apply(s, Disconnect), after, c);
  }
}
