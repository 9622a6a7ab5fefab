/**
 What a call of procfs_ctl_request_impl returns (kext/procfs_ctl.c): each event that decides it, a
 reply, a disconnect, a timeout, a failed send or a missing daemon, fixes the outcome over every
 continuation of the run.
 */
module BridgeOutcomes {
  import opened Common
  import opened ControlTable
  import opened Bridge

  /** The outcome of the call is decided, even if the call has not picked it up yet. */
  predicate Settled(s: State, c: nat, out: Outcome) {
    && c in s.calls
    && match s.calls[c]
       case Checked(_) => false
       case Rejected(e) => out == Failed(e)
       case Owning(k, _, cap, sent) =>
         sent && k < |s.slots| && s.slots[k].done && Collected(s.slots[k], cap) == out
       case Leaving(_, _, _, o) => o == out
       case Returned(_, _, o) => o == out
  }

  lemma SettledStep(s: State, step: Step, c: nat, out: Outcome)
    requires Inv(s) && Enabled(s, step) && Settled(s, c, out)
    ensures Settled(Apply(s, step), c, out)
  {
    if Holds(s.calls[c]) && s.calls[c].Owning? && step != Release(c) {
      DoneSlotKept(s, step, c);
    }
    if !Acts(step, c) {
      PhasesAdvance(s, step, c);
    }
  }

  lemma {:induction false} SettledRun(s: State, steps: seq<Step>, c: nat, out: Outcome)
    requires Inv(s) && Runs(s, steps) && Settled(s, c, out)
    ensures Settled(Exec(s, steps), c, out)
    decreases |steps|
  {
    if steps != [] {
      SettledStep(s, steps[0], c, out);
      StepInv(s, steps[0]);
      SettledRun(Apply(s, steps[0]), steps[1..], c, out);
    }
  }

  /** The call returned this outcome, or will: nothing is left to do but to pick it up and go. */
  ghost predicate EndsWith(s: State, c: nat, out: Outcome) {
    && c in s.calls
    && (s.calls[c].Returned? ==> s.calls[c].out == out)
    && (s.calls[c].Rejected? ==> out == Failed(s.calls[c].errno))
    && (s.calls[c].Leaving? ==> s.calls[c].out == out)
    && (s.calls[c].Owning? ==> Enabled(s, Collect(c)) && Apply(s, Collect(c)).calls[c].out == out)
    && !s.calls[c].Checked?
  }

  /** What the events below have in common. */
  lemma SettledEnds(s: State, step: Step, after: seq<Step>, c: nat, out: Outcome)
    requires Inv(s) && Enabled(s, step) && Runs(Apply(s, step), after) && Settled(Apply(s, step), c, out)
    ensures EndsWith(Exec(Apply(s, step), after), c, out)
  {
    StepInv(s, step);
    SettledRun(Apply(s, step), after, c, out);
  }

  lemma ReachableInv(s0: State, before: seq<Step>)
    requires Init(s0) && Runs(s0, before)
    ensures Inv(Exec(s0, before))
  {
    InitInv(s0);
    RunInv(s0, before);
  }

  /** The call has sent the request with this ticket and its slot is still open. */
  predicate Pending(s: State, c: nat, t: nat) {
    Waiting(s, c) && s.calls[c].ticket == t && !s.slots[s.calls[c].slot].done
  }

  /** The reply to a ticket finds the slot of the call that waits for it. */
  lemma ReplyFindsSlot(s: State, t: nat, c: nat)
    requires Inv(s) && t in s.replies && Pending(s, c, t)
    ensures FirstAwaiting(s.slots, s.replies[t].seqNo) == s.calls[c].slot
  {
    assert CallOk(s, c) && WireOk(s, t);
    var k := FirstAwaiting(s.slots, s.replies[t].seqNo);
    NumbersIdentify(s, t, k);
    assert SlotOk(s, k) && CallOk(s, s.holder[k]);
  }

  /** A reply that arrives while its caller waits is what the caller returns: the daemon's error if it
      sent one, else the payload as far as the caller's buffer holds it. */
  lemma ReplyReturned(s0: State, before: seq<Step>, t: nat, after: seq<Step>, c: nat)
    requires Init(s0) && Runs(s0, before)
    requires var s := Exec(s0, before);
             t in s.replies && Pending(s, c, t) && Runs(Apply(s, Deliver(t)), after)
    ensures var s := Exec(s0, before);
            && t in s.answers
            && var a := s.answers[t];
               EndsWith(Exec(Apply(s, Deliver(t)), after), c,
                        if a.error != 0 then Failed(a.error) else Ok(Clip(a.payload, s.calls[c].cap)))
  {
    ReachableInv(s0, before);
    var s := Exec(s0, before);
    assert WireOk(s, t);
    var r, k, cap := s.replies[t], s.calls[c].slot, s.calls[c].cap;
    ReplyFindsSlot(s, t, c);
    FilledHoldsPayloadIffWhole(s.slots[k], r);
    var sl := Filled(s.slots[k], r);
    assert sl.buf[..Min(sl.len, cap)] == Clip(sl.buf[..sl.len], cap);
    assert Apply(s, Deliver(t)).slots[k] == sl;
    SettledEnds(s, Deliver(t), after, c,
                if r.error != 0 then Failed(r.error) else Ok(Clip(r.payload, cap)));
  }

  /** A call that waits when the daemon goes away returns ENOTCONN. */
  lemma DisconnectReturned(s0: State, before: seq<Step>, after: seq<Step>, c: nat, t: nat)
    requires Init(s0) && Runs(s0, before)
    requires var s := Exec(s0, before); Pending(s, c, t) && Runs(Apply(s, Disconnect), after)
    ensures EndsWith(Exec(Apply(Exec(s0, before), Disconnect), after), c, Failed(ENOTCONN))
  {
    ReachableInv(s0, before);
    var s := Exec(s0, before);
    assert CallOk(s, c);
    SettledEnds(s, Disconnect, after, c, Failed(ENOTCONN));
  }

  /** A call that gives up waiting returns ETIMEDOUT, even if its reply comes in before it has left. */
  lemma TimeoutReturned(s0: State, before: seq<Step>, after: seq<Step>, c: nat)
    requires Init(s0) && Runs(s0, before)
    requires var s := Exec(s0, before); Enabled(s, TimeOut(c)) && Runs(Apply(s, TimeOut(c)), after)
    ensures EndsWith(Exec(Apply(Exec(s0, before), TimeOut(c)), after), c, Failed(ETIMEDOUT))
  {
    ReachableInv(s0, before);
    SettledEnds(Exec(s0, before), TimeOut(c), after, c, Failed(ETIMEDOUT));
  }

  /** A call whose request could not be sent returns that error. */
  lemma SendErrorReturned(s0: State, before: seq<Step>, after: seq<Step>, c: nat, e: int)
    requires Init(s0) && Runs(s0, before)
    requires var s := Exec(s0, before); Enabled(s, EnqueueFails(c, e)) && Runs(Apply(s, EnqueueFails(c, e)), after)
    ensures EndsWith(Exec(Apply(Exec(s0, before), EnqueueFails(c, e)), after), c, Failed(e))
  {
    ReachableInv(s0, before);
    SettledEnds(Exec(s0, before), EnqueueFails(c, e), after, c, Failed(e));
  }

  /** A call that starts returns ENOTCONN without a slot exactly when no daemon is connected. */
  lemma NoDaemonReturned(s0: State, before: seq<Step>, after: seq<Step>, c: nat, cap: nat)
    requires Init(s0) && Runs(s0, before)
    requires var s := Exec(s0, before); Enabled(s, Begin(c, cap)) && Runs(Apply(s, Begin(c, cap)), after)
    ensures !Exec(s0, before).connected ==>
              EndsWith(Exec(Apply(Exec(s0, before), Begin(c, cap)), after), c, Failed(ENOTCONN))
    ensures Exec(s0, before).connected ==> Apply(Exec(s0, before), Begin(c, cap)).calls[c] == Checked(cap)
  {
    ReachableInv(s0, before);
    var s := Exec(s0, before);
    if !s.connected {
      SettledEnds(s, Begin(c, cap), after, c, Failed(ENOTCONN));
    }
  }

  /** The call has room for `cap` bytes. */
  predicate HasRoom(s: State, c: nat, cap: nat) {
    c in s.calls && (s.calls[c].Rejected? || s.calls[c].cap == cap)
  }

  /** The room that a call is given is the one its payload is clipped to. */
  lemma {:induction false} RoomKept(s: State, steps: seq<Step>, c: nat, cap: nat)
    requires Runs(s, steps) && HasRoom(s, c, cap)
    ensures HasRoom(Exec(s, steps), c, cap)
    decreases |steps|
  {
    if steps != [] {
      RoomStep(s, steps[0], c, cap);
      RoomKept(Apply(s, steps[0]), steps[1..], c, cap);
    }
  }

  lemma RoomStep(s: State, step: Step, c: nat, cap: nat)
    requires Enabled(s, step) && HasRoom(s, c, cap)
    ensures HasRoom(Apply(s, step), c, cap)
  {
  }

  lemma RoomGiven(s: State, c: nat, cap: nat, after: seq<Step>)
    requires Enabled(s, Begin(c, cap)) && Runs(Apply(s, Begin(c, cap)), after)
    ensures HasRoom(Exec(Apply(s, Begin(c, cap)), after), c, cap)
  {
    RoomKept(Apply(s, Begin(c, cap)), after, c, cap);
  }

  /** Whether a daemon is connected is what the last connect or disconnect of the run says. */
  function LastLink(steps: seq<Step>, was: bool): bool {
    if steps == [] then was
    else match steps[|steps| - 1]
      case Connect => true
      case Disconnect => false
      case _ => LastLink(steps[..|steps| - 1], was)
  }

  function Link(step: Step, was: bool): bool {
    step.Connect? || (was && !step.Disconnect?)
  }

  lemma LinkStep(s: State, step: Step)
    requires Enabled(s, step)
    ensures Apply(s, step).connected == Link(step, s.connected)
  {
  }

  lemma {:induction false} LinkFirst(step: Step, rest: seq<Step>, was: bool)
    ensures LastLink([step] + rest, was) == LastLink(rest, Link(step, was))
    decreases |rest|
  {
    var all := [step] + rest;
    if rest == [] {
      assert all[..|all| - 1] == [];
    } else {
      assert all[..|all| - 1] == [step] + rest[..|rest| - 1];
      LinkFirst(step, rest[..|rest| - 1], was);
    }
  }

  lemma {:induction false} ConnectedIsLastLink(s: State, steps: seq<Step>)
    requires Runs(s, steps)
    ensures Exec(s, steps).connected == LastLink(steps, s.connected)
    decreases |steps|
  {
    if steps != [] {
      LinkStep(s, steps[0]);
      ConnectedIsLastLink(Apply(s, steps[0]), steps[1..]);
      LinkFirst(steps[0], steps[1..], s.connected);
      assert [steps[0]] + steps[1..] == steps;
    }
  }
}
