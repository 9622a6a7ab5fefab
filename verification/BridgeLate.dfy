/**
 The bridge without its assumption on ages: the same steps, but a claim may be made whatever is still
 live. Sequence numbers then repeat while a reply is under way, and a caller can get an answer that
 was not given to it.
 */
module BridgeLate {
  import opened Common
  import opened ControlTable
  import opened Bridge

  ghost predicate Permitted(s: State, step: Step) {
    if step.Claim? then step.call in s.calls && s.calls[step.call].Checked? else Enabled(s, step)
  }

  ghost function Next(s: State, step: Step): State
    requires Permitted(s, step)
  {
    if step.Claim? then ApplyClaim(s, step.call) else Apply(s, step)
  }

  ghost predicate Runs(s: State, steps: seq<Step>)
    decreases |steps|
  {
    steps == [] || (Permitted(s, steps[0]) && Runs(Next(s, steps[0]), steps[1..]))
  }

  ghost function Exec(s: State, steps: seq<Step>): State
    requires Runs(s, steps)
    decreases |steps|
  {
    if steps == [] then s else Exec(Next(s, steps[0]), steps[1..])
  }

  /** Every run of the bridge is one of these. */
  lemma {:induction false} RunsHereToo(s: State, steps: seq<Step>)
    requires Bridge.Runs(s, steps)
    ensures Runs(s, steps) && Exec(s, steps) == Bridge.Exec(s, steps)
    decreases |steps|
  {
    if steps != [] {
      RunsHereToo(Apply(s, steps[0]), steps[1..]);
    }
  }

  lemma {:induction false} RunOn(s: State, steps: seq<Step>, step: Step)
    requires Runs(s, steps) && Permitted(Exec(s, steps), step)
    ensures Runs(s, steps + [step]) && Exec(s, steps + [step]) == Next(Exec(s, steps), step)
    decreases |steps|
  {
    if steps == [] {
      assert steps + [step] == [step] && [step][1..] == [];
      assert Runs(Next(s, step), []);
    } else {
      RunOn(Next(s, steps[0]), steps[1..], step);
      assert (steps + [step])[1..] == steps[1..] + [step];
    }
  }

  // ----- which slot a reply fills -----

  /** A reply to ticket `t` fills the slot of ticket `u` exactly when that slot is the first one still
      waiting for its number and a whole number of periods lies between the two tickets. */
  lemma FillsExactly(slots: seq<Slot>, k: nat, t: nat, u: nat, r: Reply)
    requires k < |slots| && slots[k].seqNo == SeqOf(u) && r.seqNo == SeqOf(t) && t <= u
    ensures FirstAwaiting(slots, r.seqNo) == k <==>
            && slots[k].inUse && !slots[k].done && (u - t) % PERIOD == 0
            && forall i :: 0 <= i < k ==> !Awaits(slots[i], r.seqNo)
  {
    SeqCollision(t, u);
  }

  // ----- a run that goes wrong -----

  /** After `n` claims all calls have returned, and the answer to the first is still on the wire. */
  ghost predicate Idle(s: State, n: nat, r: Reply) {
    && |s.slots| == SLOTS && (forall k :: 0 <= k < SLOTS ==> !s.slots[k].inUse)
    && s.connected && s.counter == CounterBefore(n) && |s.issued| == n
    && s.requests == map[] && s.replies == map[0 := r] && s.answers == map[0 := r]
    && forall c :: c in s.calls ==> c < n
  }

  predicate Answers(r: Reply) {
    r.seqNo == SeqOf(0) && Complete(r) && r.error == 0
  }

  /** A call claims a slot while all are free. */
  lemma ClaimFirst(s: State, n: nat, cap: nat, r: Reply)
    requires Idle(s, n, r)
    ensures var s1 := Next(s, Begin(n, cap));
            && Permitted(s, Begin(n, cap)) && Permitted(s1, Claim(n))
            && var s2 := Next(s1, Claim(n));
               && s2.calls == s.calls[n := Owning(0, n, cap, false)]
               && s2.slots == s.slots[0 := Claimed(s.slots[0], SeqOf(n))]
               && s2.counter == CounterBefore(n + 1) && s2.issued == s.issued + [n]
               && s2.connected && s2.requests == s.requests && s2.replies == s.replies && s2.answers == s.answers
  {
    NextSeqIsSeqOf(n);
    assert FirstFree(s.slots) == 0;
    assert s.calls[n := Checked(cap)][n := Owning(0, n, cap, false)] == s.calls[n := Owning(0, n, cap, false)];
  }

  /** One more call comes and goes: it claims a slot, cannot enqueue its request, and gives up. */
  lemma OneMore(s0: State, steps: seq<Step>, n: nat, r: Reply) returns (more: seq<Step>)
    requires Runs(s0, steps) && Idle(Exec(s0, steps), n, r)
    ensures Runs(s0, more) && Idle(Exec(s0, more), n + 1, r)
  {
    var s := Exec(s0, steps);
    ClaimFirst(s, n, 0, r);
    RunOn(s0, steps, Begin(n, 0));
    more := steps + [Begin(n, 0)];
    RunOn(s0, more, Claim(n));
    more := more + [Claim(n)];
    RunOn(s0, more, EnqueueFails(n, EINVAL));
    more := more + [EnqueueFails(n, EINVAL)];
    RunOn(s0, more, Release(n));
    more := more + [Release(n)];
  }

  lemma {:induction false} ManyMore(s0: State, steps: seq<Step>, n: nat, m: nat, r: Reply) returns (more: seq<Step>)
    requires Runs(s0, steps) && Idle(Exec(s0, steps), n, r) && n <= m
    ensures Runs(s0, more) && Idle(Exec(s0, more), m, r)
    decreases m - n
  {
    more := steps;
    if n < m {
      more := OneMore(s0, steps, n, r);
      more := ManyMore(s0, more, n + 1, m, r);
    }
  }

  /** The first call times out while the daemon's answer to it is under way. */
  lemma FirstTimesOut(s0: State, r: Reply) returns (steps: seq<Step>)
    requires Init(s0) && Answers(r)
    ensures Runs(s0, steps) && Idle(Exec(s0, steps), 1, r)
  {
    steps := [];
    RunOn(s0, steps, Connect);
    steps := steps + [Connect];
    var s := Exec(s0, steps);
    NextSeqIsSeqOf(0);
    assert FirstFree(s.slots) == 0;
    RunOn(s0, steps, Begin(0, 0));
    steps := steps + [Begin(0, 0)];
    RunOn(s0, steps, Claim(0));
    steps := steps + [Claim(0)];
    RunOn(s0, steps, Enqueue(0));
    steps := steps + [Enqueue(0)];
    RunOn(s0, steps, Answer(0, r));
    steps := steps + [Answer(0, r)];
    RunOn(s0, steps, TimeOut(0));
    steps := steps + [TimeOut(0)];
    RunOn(s0, steps, Release(0));
    steps := steps + [Release(0)];
  }

  /** Call `c` waits in slot 0 for the number that the late answer carries. */
  ghost predicate Asking(s: State, c: nat, cap: nat, r: Reply) {
    && |s.slots| == SLOTS && c in s.calls && s.calls[c] == Owning(0, c, cap, true)
    && s.slots[0].inUse && !s.slots[0].done && s.slots[0].seqNo == SeqOf(c)
    && 0 in s.replies && s.replies[0] == r && s.answers == map[0 := r]
  }

  lemma Asks(s0: State, steps: seq<Step>, n: nat, cap: nat, r: Reply) returns (more: seq<Step>)
    requires Runs(s0, steps) && Idle(Exec(s0, steps), n, r)
    ensures Runs(s0, more) && Asking(Exec(s0, more), n, cap, r)
  {
    ClaimFirst(Exec(s0, steps), n, cap, r);
    RunOn(s0, steps, Begin(n, cap));
    more := steps + [Begin(n, cap)];
    RunOn(s0, more, Claim(n));
    more := more + [Claim(n)];
    RunOn(s0, more, Enqueue(n));
    more := more + [Enqueue(n)];
  }

  /** The late answer fills the slot. */
  lemma LateFills(s: State, c: nat, cap: nat, r: Reply)
    requires Asking(s, c, cap, r) && Answers(r) && c % PERIOD == 0
    ensures var s' := Next(s, Deliver(0));
            && |s'.slots| == SLOTS && s'.slots[0].done && s'.calls == s.calls && s'.answers == s.answers
            && Collected(s'.slots[0], cap) == Ok(Clip(r.payload, cap))
  {
    FillsExactly(s.slots, 0, 0, c, r);
    FilledHoldsPayloadIffWhole(s.slots[0], r);
    var f := Filled(s.slots[0], r);
    assert f.buf[..f.len] == r.payload;
    assert f.buf[..Min(f.len, cap)] == Clip(r.payload, cap);
  }

  /** The call that is given the same number gets that answer, though the daemon never saw its request. */
  lemma TakesIt(s0: State, steps: seq<Step>, c: nat, cap: nat, r: Reply) returns (more: seq<Step>)
    requires Runs(s0, steps) && Asking(Exec(s0, steps), c, cap, r) && Answers(r) && 0 < c && c % PERIOD == 0
    ensures Runs(s0, more) && WrongAnswer(Exec(s0, more), c, cap, r)
  {
    LateFills(Exec(s0, steps), c, cap, r);
    RunOn(s0, steps, Deliver(0));
    more := steps + [Deliver(0)];
    RunOn(s0, more, Collect(c));
    more := more + [Collect(c)];
    RunOn(s0, more, Release(c));
    more := more + [Release(c)];
  }

  /** Call `c` returned 0 with the payload of `r`, but its request was not answered. */
  ghost predicate WrongAnswer(s: State, c: nat, cap: nat, r: Reply) {
    && c in s.calls && s.calls[c].Returned? && s.calls[c].out == Ok(Clip(r.payload, cap))
    && s.calls[c].ticket !in s.answers
  }

  /** So the assumption on ages cannot be dropped: whatever the daemon answered to a request that timed
      out, a run one period longer hands it to another caller. */
  lemma ReplyOnePeriodLate(s0: State, cap: nat, r: Reply) returns (steps: seq<Step>)
    requires Init(s0) && Answers(r)
    ensures Runs(s0, steps) && WrongAnswer(Exec(s0, steps), PERIOD, cap, r)
  {
    steps := FirstTimesOut(s0, r);
    steps := ManyMore(s0, steps, 1, PERIOD, r);
    steps := Asks(s0, steps, PERIOD, cap, r);
    steps := TakesIt(s0, steps, PERIOD, cap, r);
  }
}
