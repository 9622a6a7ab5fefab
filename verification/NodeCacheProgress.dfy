/**
 No call of procfsnode_find is ever stuck: from every reachable state, whatever the other threads and
 the VFS have done, the run can go on so that the call returns with a node and a vnode.
 */
module NodeCacheProgress {
  import opened Common
  import opened NodeTable
  import opened NodeCache
  import opened NodeCacheRuns

  /** These steps bring the call to a successful return. */
  ghost predicate Returns(s: State, steps: seq<Step>, t: nat) {
    Runs(s, steps) && t in Exec(s, steps).threads && Exec(s, steps).threads[t].pc.Returned?
  }

  lemma StepFirst(s: State, step: Step, rest: seq<Step>, t: nat)
    requires Enabled(s, step) && Returns(Apply(s, step), rest, t)
    ensures Returns(s, [step] + rest, t)
  {
    assert ([step] + rest)[1..] == rest;
  }

  lemma StepsFirst(s: State, steps: seq<Step>, rest: seq<Step>, t: nat)
    requires Runs(s, steps) && Returns(Exec(s, steps), rest, t)
    ensures Returns(s, steps + rest, t)
  {
    RunAppend(s, steps, rest);
  }

  /** The allocator and the VFS never run out of addresses. */
  lemma Fresh(used: set<nat>) returns (n: nat)
    ensures n !in used && forall m :: m in used ==> m < n
    decreases used
  {
    if used == {} {
      n := 0;
    } else {
      var m :| m in used;
      var above := Fresh(used - {m});
      n := if m < above then above else m + 1;
      forall i | i in used
        ensures i < n
      {
        assert i == m || i in used - {m};
      }
    }
  }

  lemma FromExiting(s: State, t: nat)
    requires t in s.threads && s.threads[t].pc.Exiting?
    ensures Returns(s, [Exit(t)], t)
  {
    assert [Exit(t)][1..] == [];
    assert Runs(Apply(s, Exit(t)), []);
  }

  lemma FromAttaching(s: State, t: nat)
    requires t in s.threads && s.threads[t].pc.Attaching?
    ensures Returns(s, [Attach(t)] + [Exit(t)], t)
  {
    FromExiting(Apply(s, Attach(t)), t);
    StepFirst(s, Attach(t), [Exit(t)], t);
  }

  lemma FromCreating(s: State, t: nat) returns (steps: seq<Step>)
    requires t in s.threads && s.threads[t].pc.Creating?
    ensures Returns(s, steps, t)
  {
    var v := Fresh(s.vnodes.Keys);
    FromAttaching(Apply(s, CreateOk(t, v)), t);
    steps := [CreateOk(t, v)] + ([Attach(t)] + [Exit(t)]);
    StepFirst(s, CreateOk(t, v), [Attach(t)] + [Exit(t)], t);
  }

  /** The call is about to take the mutex. */
  predicate AtTop(s: State, t: nat) {
    t in s.threads && s.threads[t].pc.Top?
  }

  /** Nobody has a node for the key, and the call has one to insert. */
  lemma InsertsSpare(s: State, t: nat) returns (steps: seq<Step>)
    requires Inv(s) && AtTop(s, t) && s.threads[t].key !in s.index && s.threads[t].spare.Some?
    ensures Returns(s, steps, t)
  {
    FindIsIndex(s, s.threads[t].key);
    var rest := FromCreating(Apply(s, Pass(t)), t);
    steps := [Pass(t)] + rest;
    StepFirst(s, Pass(t), rest, t);
  }

  lemma Allocates(s: State, t: nat) returns (n: nat)
    requires Inv(s) && t in s.threads && s.threads[t].pc.Allocating?
    ensures var step := AllocOk(t, n, Node(s.threads[t].key, false, false, None));
      && Enabled(s, step) && Inv(Apply(s, step)) && AtTop(Apply(s, step), t)
      && Apply(s, step).threads[t].spare.Some? && Apply(s, step).threads[t].key == s.threads[t].key
      && Apply(s, step).index == s.index
  {
    n := Fresh(s.tb.heap.Keys);
    StepInv(s, AllocOk(t, n, Node(s.threads[t].key, false, false, None)));
  }

  /** Nobody has a node for the key. */
  lemma FromAbsent(s: State, t: nat) returns (steps: seq<Step>)
    requires Inv(s) && AtTop(s, t) && s.threads[t].key !in s.index
    ensures Returns(s, steps, t)
  {
    if s.threads[t].spare.Some? {
      steps := InsertsSpare(s, t);
    } else {
      FindIsIndex(s, s.threads[t].key);
      var s1 := Apply(s, Pass(t));
      StepInv(s, Pass(t));
      var n := Allocates(s1, t);
      var alloc := AllocOk(t, n, Node(s1.threads[t].key, false, false, None));
      var rest := InsertsSpare(Apply(s1, alloc), t);
      StepFirst(s1, alloc, rest, t);
      StepFirst(s, Pass(t), [alloc] + rest, t);
      steps := [Pass(t)] + ([alloc] + rest);
    }
  }

  /** The node for the key is linked to a vnode. */
  predicate IsBound(s: State, k: Key) {
    k in s.index && s.index[k] in s.roles && s.roles[s.index[k]].Bound?
  }

  lemma FromBound(s: State, t: nat) returns (steps: seq<Step>)
    requires Inv(s) && AtTop(s, t) && IsBound(s, s.threads[t].key)
    ensures Returns(s, steps, t)
  {
    var k := s.threads[t].key;
    var n := s.index[k];
    var v := s.roles[n].vn;
    assert KeyOk(s, k) && NodeOk(s, n);
    if s.vnodes[v].life.Live? {
      steps := FromLive(s, t, n, v);
    } else {
      var s1 := Apply(s, Reclaim(v));
      StepInv(s, Reclaim(v));
      var rest := FromAbsent(s1, t);
      steps := [Reclaim(v)] + rest;
      StepFirst(s, Reclaim(v), rest, t);
    }
  }

  lemma FromLive(s: State, t: nat, n: nat, v: nat) returns (steps: seq<Step>)
    requires Inv(s) && AtTop(s, t) && s.threads[t].key in s.index && s.index[s.threads[t].key] == n
    requires NodeOk(s, n) && n in s.tb.heap && s.roles[n] == Bound(v) && s.vnodes[v].life.Live?
    ensures Returns(s, steps, t)
  {
    FindIsIndex(s, s.threads[t].key);
    var s1 := Apply(s, Pass(t));
    assert s1.threads[t].pc == Validating(n, v, s.vnodes[v].vid) && s1.vnodes == s.vnodes;
    var s2 := Apply(s1, GetOk(t));
    FromExiting(s2, t);
    StepFirst(s1, GetOk(t), [Exit(t)], t);
    StepFirst(s, Pass(t), [GetOk(t)] + [Exit(t)], t);
    steps := [Pass(t)] + ([GetOk(t)] + [Exit(t)]);
  }

  /** What the other calls see of a builder that is done with node `n`: those asleep on it are awake. */
  predicate Awakened(s: State, s': State, n: nat, u: nat) {
    forall t :: t in s.threads && t != u ==>
      && t in s'.threads && s'.threads[t].key == s.threads[t].key
      && s'.threads[t].pc == if s.threads[t].pc == Sleeping(n) then Top else s.threads[t].pc
  }

  /** The key has no node, or one that is linked. */
  predicate Settled(s: State, k: Key) {
    k !in s.index || IsBound(s, k)
  }

  lemma AttachSettles(s: State, u: nat)
    requires Inv(s) && u in s.threads && s.threads[u].pc.Attaching?
    ensures var s', n := Apply(s, Attach(u)), s.threads[u].pc.node;
            Inv(s') && Awakened(s, s', n, u) && Settled(s', s.threads[u].key)
  {
    StepInv(s, Attach(u));
    var n := s.threads[u].pc.node;
    assert ThreadOk(s, u) && NodeOk(s, n);
    forall t | t in s.threads && s.threads[t].pc == Sleeping(n)
      ensures s.tb.heap[n].waiting
    {
      assert ThreadOk(s, t);
    }
  }

  lemma UndoSettles(s: State, u: nat)
    requires Inv(s) && u in s.threads && s.threads[u].pc.Undoing?
    ensures var s', n := Apply(s, Undo(u)), s.threads[u].pc.node;
            Inv(s') && Awakened(s, s', n, u) && Settled(s', s.threads[u].key)
  {
    StepInv(s, Undo(u));
    var n := s.threads[u].pc.node;
    assert ThreadOk(s, u) && NodeOk(s, n);
    forall t | t in s.threads && s.threads[t].pc == Sleeping(n)
      ensures s.tb.heap[n].waiting
    {
      assert ThreadOk(s, t);
    }
  }

  /** The builder of a node can always finish with it by itself. */
  lemma BuilderFinishes(s: State, u: nat, n: nat) returns (steps: seq<Step>)
    requires Inv(s) && u in s.threads && Builds(s.threads[u].pc, n)
    ensures Runs(s, steps)
    ensures var s' := Exec(s, steps); Inv(s') && Awakened(s, s', n, u) && Settled(s', s.threads[u].key)
  {
    match s.threads[u].pc
    case Attaching(_, v) =>
      AttachSettles(s, u);
      RunOne(s, Attach(u));
      steps := [Attach(u)];
    case Undoing(_, e) =>
      UndoSettles(s, u);
      RunOne(s, Undo(u));
      steps := [Undo(u)];
    case Creating(_) =>
      var v := Fresh(s.vnodes.Keys);
      var s1 := Apply(s, CreateOk(u, v));
      StepInv(s, CreateOk(u, v));
      AttachSettles(s1, u);
      RunTwo(s, CreateOk(u, v), Attach(u));
      steps := [CreateOk(u, v), Attach(u)];
  }

  lemma RunOne(s: State, step: Step)
    requires Enabled(s, step)
    ensures Runs(s, [step]) && Exec(s, [step]) == Apply(s, step)
  {
    assert [step][1..] == [];
    assert Runs(Apply(s, step), []);
  }

  lemma FromSettled(s: State, t: nat) returns (steps: seq<Step>)
    requires Inv(s) && AtTop(s, t) && Settled(s, s.threads[t].key)
    ensures Returns(s, steps, t)
  {
    if s.threads[t].key in s.index {
      steps := FromBound(s, t);
    } else {
      steps := FromAbsent(s, t);
    }
  }

  lemma FromTop(s: State, t: nat) returns (steps: seq<Step>)
    requires Inv(s) && AtTop(s, t)
    ensures Returns(s, steps, t)
  {
    var k := s.threads[t].key;
    if Settled(s, k) {
      steps := FromSettled(s, t);
    } else {
      var n := s.index[k];
      assert KeyOk(s, k) && NodeOk(s, n);
      var u := s.roles[n].thread;
      assert ThreadOk(s, u);
      steps := BuilderFinishes(s, u, n);
      var rest := FromSettled(Exec(s, steps), t);
      StepsFirst(s, steps, rest, t);
      steps := steps + rest;
    }
  }

  lemma FromAllocating(s: State, t: nat) returns (steps: seq<Step>)
    requires Inv(s) && t in s.threads && s.threads[t].pc.Allocating?
    ensures Returns(s, steps, t)
  {
    var n := Allocates(s, t);
    var alloc := AllocOk(t, n, Node(s.threads[t].key, false, false, None));
    var rest := FromTop(Apply(s, alloc), t);
    StepFirst(s, alloc, rest, t);
    steps := [alloc] + rest;
  }

  lemma FromSleeping(s: State, t: nat) returns (steps: seq<Step>)
    requires Inv(s) && t in s.threads && s.threads[t].pc.Sleeping?
    ensures Returns(s, steps, t)
  {
    var n := s.threads[t].pc.node;
    assert ThreadOk(s, t) && NodeOk(s, n);
    var u := s.roles[n].thread;
    steps := BuilderFinishes(s, u, n);
    var rest := FromTop(Exec(s, steps), t);
    StepsFirst(s, steps, rest, t);
    steps := steps + rest;
  }

  /** The call has failed with this error, or has only to free its node before it does. */
  predicate FailsWith(s: State, t: nat, e: int) {
    && t in s.threads
    && (s.threads[t].pc == Failed(e) || (s.threads[t].pc.Undoing? && s.threads[t].pc.errno == e))
  }

  lemma {:induction false} FailureKept(s: State, steps: seq<Step>, t: nat, e: int)
    requires Runs(s, steps) && FailsWith(s, t, e)
    ensures FailsWith(Exec(s, steps), t, e)
    decreases |steps|
  {
    if steps != [] {
      FailureKept(Apply(s, steps[0]), steps[1..], t, e);
    }
  }

  /** A call whose creation callback fails returns that error, however the run goes on. */
  lemma ErrorReturned(s: State, t: nat, e: int, after: seq<Step>)
    requires Enabled(s, CreateFails(t, e)) && Runs(Apply(s, CreateFails(t, e)), after)
    ensures FailsWith(Exec(Apply(s, CreateFails(t, e)), after), t, e)
  {
    FailureKept(Apply(s, CreateFails(t, e)), after, t, e);
  }

  /** And one whose allocation fails returns ENOMEM. */
  lemma NoMemoryReturned(s: State, t: nat, after: seq<Step>)
    requires Enabled(s, AllocFails(t)) && Runs(Apply(s, AllocFails(t)), after)
    ensures FailsWith(Exec(Apply(s, AllocFails(t)), after), t, ENOMEM)
  {
    FailureKept(Apply(s, AllocFails(t)), after, t, ENOMEM);
  }

  /** Every call that has not failed can still succeed, except after its own creation callback failed:
      then its next step returns that error. */
  lemma NeverStuck(s: State, s0: State, past: seq<Step>, t: nat) returns (steps: seq<Step>)
    requires Reachable(s, s0, past) && t in s.threads && !s.threads[t].pc.Failed?
    ensures !s.threads[t].pc.Undoing? ==> Returns(s, steps, t)
    ensures s.threads[t].pc.Undoing? ==>
              && steps == [Undo(t)] && Runs(s, steps) && t in Exec(s, steps).threads
              && Exec(s, steps).threads[t].pc == Failed(s.threads[t].pc.errno)
  {
    ReachableInv(s, s0, past);
    match s.threads[t].pc
    case Top => steps := FromTop(s, t);
    case Allocating => steps := FromAllocating(s, t);
    case Sleeping(_) => steps := FromSleeping(s, t);
    case Validating(_, _, _) =>
      StepInv(s, GetFails(t));
      var rest := FromTop(Apply(s, GetFails(t)), t);
      StepFirst(s, GetFails(t), rest, t);
      steps := [GetFails(t)] + rest;
    case Creating(_) => steps := FromCreating(s, t);
    case Attaching(_, _) =>
      FromAttaching(s, t);
      steps := [Attach(t)] + [Exit(t)];
    case Undoing(_, _) =>
      RunOne(s, Undo(t));
      steps := [Undo(t)];
    case Exiting(_, _) =>
      FromExiting(s, t);
      steps := [Exit(t)];
    case Returned(_, _) => steps := [];
  }
}
