/** What every run of the node cache guarantees, from any initial state and for any interleaving. */
module NodeCacheRuns {
  import opened Common
  import opened NodeTable
  import opened NodeCache

  ghost predicate Reachable(s: State, s0: State, steps: seq<Step>) {
    Init(s0) && Runs(s0, steps) && s == Exec(s0, steps)
  }

  lemma ReachableInv(s: State, s0: State, steps: seq<Step>)
    requires Reachable(s, s0, steps)
    ensures Inv(s)
  {
    InitInv(s0);
    RunInv(s0, steps);
  }

  /** At most one hashed node per key, in the bucket that its hash selects, so that searching one
      bucket is looking the key up in a map. */
  lemma TableIsMap(s: State, s0: State, steps: seq<Step>)
    requires Reachable(s, s0, steps)
    ensures forall k :: Find(s.tb, k) == if k in s.index then Some(s.index[k]) else None
    ensures forall b, n :: n in Bucket(s.tb.buckets, b) ==> n in s.tb.heap && s.tb.place(s.tb.heap[n].key) == b
    ensures forall b, c, n, m ::
      (n in Bucket(s.tb.buckets, b) && m in Bucket(s.tb.buckets, c) && s.tb.heap[n].key == s.tb.heap[m].key) ==> n == m
    ensures forall b :: NoDuplicates(Bucket(s.tb.buckets, b))
  {
    ReachableInv(s, s0, steps);
    forall k ensures Find(s.tb, k) == if k in s.index then Some(s.index[k]) else None { FindIsIndex(s, k); }
    forall b, n | n in Bucket(s.tb.buckets, b)
      ensures n in s.tb.heap && s.tb.place(s.tb.heap[n].key) == b
      ensures s.tb.heap[n].key in s.index && s.index[s.tb.heap[n].key] == n
    {
      assert BucketOk(s, b) && NodeOk(s, n);
    }
    forall b ensures NoDuplicates(Bucket(s.tb.buckets, b)) { assert BucketOk(s, b); }
  }

  /** Exactly one thread is creating the node's vnode. */
  ghost predicate OneBuilder(s: State, n: nat) {
    exists t :: t in s.threads && Builds(s.threads[t].pc, n)
                && forall u :: u in s.threads && Builds(s.threads[u].pc, n) ==> u == t
  }

  /** Node and vnode point at each other. */
  predicate LinkedBothWays(s: State, n: nat, v: nat) {
    n in s.tb.heap && s.tb.heap[n].vnode == Some(v) && v in s.vnodes && s.vnodes[v].fsnode == Some(n)
  }

  /** Whenever the mutex is free, a hashed node is being attached by exactly one thread, which
      allocated it, or is linked both ways with a vnode that still has it. */
  lemma HashedAttachingOrLinked(s: State, s0: State, steps: seq<Step>, b: nat, n: nat)
    requires Reachable(s, s0, steps) && n in Bucket(s.tb.buckets, b)
    ensures n in s.tb.heap
    ensures s.tb.heap[n].attaching ==> s.tb.heap[n].vnode.None? && OneBuilder(s, n)
    ensures !s.tb.heap[n].attaching ==>
      s.tb.heap[n].vnode.Some? && LinkedBothWays(s, n, s.tb.heap[n].vnode.value) && !s.tb.heap[n].waiting
  {
    ReachableInv(s, s0, steps);
    assert BucketOk(s, b) && NodeOk(s, n);
    if s.tb.heap[n].attaching {
      var t := s.roles[n].thread;
      forall u | u in s.threads && Builds(s.threads[u].pc, n) ensures u == t { assert ThreadOk(s, u); }
    }
  }

  /** A call that succeeded, until its caller drops the iocount: the node carries the requested
      id, is still hashed and linked both ways with the vnode, which cannot be reclaimed. */
  lemma SuccessIsUsable(s: State, s0: State, steps: seq<Step>, t: nat)
    requires Reachable(s, s0, steps) && t in s.threads && s.threads[t].pc.Returned?
    ensures var Returned(n, v) := s.threads[t].pc;
      && LinkedBothWays(s, n, v) && s.tb.heap[n].key == s.threads[t].key
      && Find(s.tb, s.threads[t].key) == Some(n)
      && s.vnodes[v].life.Live? && Finder(t) in s.vnodes[v].io && !Enabled(s, Terminate(v))
  {
    ReachableInv(s, s0, steps);
    assert ThreadOk(s, t) && NodeOk(s, s.threads[t].pc.node);
    FindIsIndex(s, s.threads[t].key);
  }

  /** The iocounts that finders hold on a vnode are exactly those of the calls that are between
      getting their reference and giving it back. */
  lemma IocountsBalance(s: State, s0: State, steps: seq<Step>, v: nat, t: nat)
    requires Reachable(s, s0, steps) && v in s.vnodes
    ensures Finder(t) in s.vnodes[v].io <==> t in s.threads && Refers(s.threads[t].pc, v)
  {
    ReachableInv(s, s0, steps);
    assert VnodeOk(s, v);
    if t in s.threads { assert ThreadOk(s, t); }
  }

  // ----- two successes return the same pair -----

  ghost predicate BoundTo(s: State, k: Key, n: nat, v: nat) {
    n in s.tb.heap && n in s.roles && s.roles[n] == Bound(v) && s.tb.heap[n].key == k
  }

  lemma BoundPass(s: State, t: nat, k: Key, n: nat, v: nat)
    requires Inv(s) && Enabled(s, Pass(t)) && BoundTo(s, k, n, v)
    ensures BoundTo(ApplyPass(s, t), k, n, v)
  {
    assert NodeOk(s, n) && ThreadOk(s, t) && KeyOk(s, s.threads[t].key);
    FindIsIndex(s, s.threads[t].key);
  }

  lemma BoundStep(s: State, step: Step, k: Key, n: nat, v: nat)
    requires Inv(s) && Enabled(s, step) && BoundTo(s, k, n, v) && step != Reclaim(v)
    ensures BoundTo(Apply(s, step), k, n, v)
  {
    assert NodeOk(s, n);
    if step.Pass? {
      BoundPass(s, step.thread, k, n, v);
    } else if step.Reclaim? {
      assert VnodeOk(s, step.vn);
    } else if step.GetFails? || step.Attach? || step.Undo? || step.Exit? {
      assert ThreadOk(s, step.thread);
    }
  }

  lemma {:induction false} BoundRun(s: State, steps: seq<Step>, k: Key, n: nat, v: nat)
    requires Inv(s) && Runs(s, steps) && BoundTo(s, k, n, v) && Reclaim(v) !in steps
    ensures BoundTo(Exec(s, steps), k, n, v)
    decreases |steps|
  {
    if steps != [] {
      BoundStep(s, steps[0], k, n, v);
      StepInv(s, steps[0]);
      BoundRun(Apply(s, steps[0]), steps[1..], k, n, v);
    }
  }

  /** Two successes for one id return the same node and vnode unless that vnode was reclaimed
      in between. */
  lemma SamePair(s: State, s0: State, before: seq<Step>, after: seq<Step>, t: nat, u: nat)
    requires Reachable(s, s0, before) && Runs(s, after)
    requires t in s.threads && s.threads[t].pc.Returned?
    requires var s' := Exec(s, after);
      u in s'.threads && s'.threads[u].pc.Returned? && s'.threads[u].key == s.threads[t].key
    requires Reclaim(s.threads[t].pc.vn) !in after
    ensures Exec(s, after).threads[u].pc == s.threads[t].pc
  {
    ReachableInv(s, s0, before);
    var Returned(n, v) := s.threads[t].pc;
    assert ThreadOk(s, t);
    BoundRun(s, after, s.threads[t].key, n, v);
    RunInv(s, after);
    var s' := Exec(s, after);
    assert ThreadOk(s', u) && NodeOk(s', n) && NodeOk(s', s'.threads[u].pc.node);
  }

  // ----- memory safety -----

  /** The nodes that a step reads, writes or frees. */
  function Touched(s: State, step: Step): set<nat>
    requires Enabled(s, step)
  {
    match step
    case Pass(t) => Walked(s.tb, s.threads[t].key, s.threads[t].spare)
    case CreateOk(t, v) => {s.threads[t].pc.node}
    case CreateFails(t, e) => {s.threads[t].pc.node}
    case Attach(t) => {s.threads[t].pc.node}
    case Undo(t) => {s.threads[t].pc.node}
    case Exit(t) => Released(s, step)
    case Reclaim(v) => Released(s, step)
    case _ => {}
  }

  /** The nodes that a step hands back to the allocator. */
  function Released(s: State, step: Step): set<nat>
    requires Enabled(s, step)
  {
    match step
    case Undo(t) => {s.threads[t].pc.node}
    case Exit(t) =>
      var th := s.threads[t];
      if th.spare.Some? && th.spare.value != th.pc.node then {th.spare.value} else {}
    case Reclaim(v) => if s.vnodes[v].fsnode.Some? then {s.vnodes[v].fsnode.value} else {}
    case _ => {}
  }

  lemma PassTouches(s: State, t: nat)
    requires Inv(s) && Enabled(s, Pass(t))
    ensures Walked(s.tb, s.threads[t].key, s.threads[t].spare) <= s.tb.heap.Keys
    ensures ApplyPass(s, t).tb.heap.Keys == s.tb.heap.Keys
  {
    var k := s.threads[t].key;
    assert ThreadOk(s, t) && BucketOk(s, s.tb.place(k)) && KeyOk(s, k);
    if s.threads[t].spare.Some? { assert NodeOk(s, s.threads[t].spare.value); }
    FindIsIndex(s, k);
  }

  /** No step reads, writes or frees a node that is not allocated: in particular a thread that was
      asleep does not use the node it slept on, and nothing is freed twice. */
  lemma NoUseAfterFree(s: State, s0: State, steps: seq<Step>, step: Step)
    requires Reachable(s, s0, steps) && Enabled(s, step)
    ensures Touched(s, step) <= s.tb.heap.Keys
    ensures Apply(s, step).tb.heap.Keys ==
      s.tb.heap.Keys - Released(s, step) + (if step.AllocOk? then {step.node} else {})
  {
    ReachableInv(s, s0, steps);
    match step
    case Pass(t) => PassTouches(s, t);
    case CreateOk(t, v) => assert ThreadOk(s, t);
    case CreateFails(t, e) => assert ThreadOk(s, t);
    case Attach(t) => assert ThreadOk(s, t);
    case Undo(t) => assert ThreadOk(s, t);
    case Exit(t) =>
      assert ThreadOk(s, t);
      if s.threads[t].spare.Some? { assert NodeOk(s, s.threads[t].spare.value); }
    case Reclaim(v) =>
      assert VnodeOk(s, v);
      assert NodeOk(s, s.vnodes[v].fsnode.value);
    case _ =>
  }

  /** A freed node is on no list any more, and no other thread's locals will be used to reach it:
      a creator whose callback failed frees the node it allocated itself, a successful call frees
      only its own unused node, a reclaim only the node of its own vnode. */
  lemma FreesOwnNode(s: State, s0: State, steps: seq<Step>, step: Step, n: nat)
    requires Reachable(s, s0, steps) && Enabled(s, step) && n in Released(s, step)
    ensures n in s.tb.heap && n in s.roles && forall b :: n !in Bucket(Apply(s, step).tb.buckets, b)
    ensures step.Undo? ==> s.threads[step.thread].spare == Some(n) && s.roles[n] == Pending(step.thread)
    ensures step.Exit? ==> s.threads[step.thread].spare == Some(n) && s.roles[n] == Private(step.thread)
    ensures step.Reclaim? ==> s.roles[n] == Bound(step.vn)
    ensures forall t :: t in s.threads && !Acts(step, t) && s.threads[t].pc.Sleeping? && s.threads[t].pc.node == n ==>
      Apply(s, step).threads[t].pc.Top?
  {
    ReachableInv(s, s0, steps);
    if step.Undo? || step.Exit? { assert ThreadOk(s, step.thread); } else { assert VnodeOk(s, step.vn); }
    assert NodeOk(s, n);
    forall b ensures n !in Bucket(Apply(s, step).tb.buckets, b) {
      assert BucketOk(s, b);
    }
    forall t | t in s.threads && s.threads[t].pc == Sleeping(n)
      ensures step.Undo? && s.tb.heap[n].waiting
    {
      assert ThreadOk(s, t);
    }
  }

  predicate Acts(step: Step, t: nat) {
    !(step.VfsGet? || step.VfsPut? || step.Terminate? || step.Reclaim? || step.Clear?) && step.thread == t
  }

  /** A sleeper always has someone to wake it: its node is still attaching, marked as waited for,
      and being built by a thread. */
  lemma SleepersAreWatched(s: State, s0: State, steps: seq<Step>, t: nat)
    requires Reachable(s, s0, steps) && t in s.threads && s.threads[t].pc.Sleeping?
    ensures var n := s.threads[t].pc.node;
      && n in s.tb.heap && s.tb.heap[n].attaching && s.tb.heap[n].waiting
      && exists u :: u != t && u in s.threads && Builds(s.threads[u].pc, n)
  {
    ReachableInv(s, s0, steps);
    var n := s.threads[t].pc.node;
    assert ThreadOk(s, t) && NodeOk(s, n);
    var u := s.roles[n].thread;
    assert u != t && u in s.threads && Builds(s.threads[u].pc, n);
  }

  // ----- the node that gets lost -----

  /** A thread's locals lead to the node. A thread about to validate may also hold the address, but of
      a node that it found on a list. */
  predicate HeldBy(th: Thread, n: nat) {
    || th.spare == Some(n)
    || (th.pc.Sleeping? && th.pc.node == n)
    || Builds(th.pc, n)
    || ((th.pc.Exiting? || th.pc.Returned?) && th.pc.node == n)
  }

  /** The node is allocated but nothing leads to it: no list, no thread and no vnode in use. */
  ghost predicate Unreachable(s: State, n: nat) {
    && n in s.tb.heap
    && (forall b :: n !in Bucket(s.tb.buckets, b))
    && (forall t :: t in s.threads ==> !HeldBy(s.threads[t], n))
    && (forall v :: v in s.vnodes && (s.vnodes[v].life.Live? || s.vnodes[v].life.Dying?) ==>
          s.vnodes[v].fsnode != Some(n))
  }

  predicate IsLost(s: State, n: nat) {
    n in s.roles && s.roles[n].Lost?
  }

  /** The history agrees with the state. */
  lemma LostIsUnreachable(s: State, n: nat)
    requires Inv(s)
    ensures IsLost(s, n) <==> Unreachable(s, n)
  {
    assert NodeOk(s, n);
    if IsLost(s, n) {
      forall b ensures n !in Bucket(s.tb.buckets, b) { assert BucketOk(s, b); }
      forall t | t in s.threads ensures !HeldBy(s.threads[t], n) { assert ThreadOk(s, t); }
      forall v | v in s.vnodes && (s.vnodes[v].life.Live? || s.vnodes[v].life.Dying?)
        ensures s.vnodes[v].fsnode != Some(n)
      {
        assert VnodeOk(s, v);
      }
    }
  }

  /** An allocated node is unreachable exactly when it is neither hashed nor some thread's spare. */
  lemma NodesAccountedFor(s: State, s0: State, steps: seq<Step>, n: nat)
    requires Reachable(s, s0, steps) && n in s.tb.heap
    ensures Unreachable(s, n) <==> !Hashed(s, n) && forall t :: t in s.threads ==> s.threads[t].spare != Some(n)
  {
    ReachableInv(s, s0, steps);
    LostIsUnreachable(s, n);
    assert NodeOk(s, n);
  }

  /** A step makes a node unreachable exactly when it is the retry after a vnode-id mismatch and the
      node is the spare that the thread still has from an earlier pass. */
  lemma LosesExactlyOnRetry(s: State, s0: State, steps: seq<Step>, step: Step, n: nat)
    requires Reachable(s, s0, steps) && Enabled(s, step)
    ensures !Unreachable(s, n) && Unreachable(Apply(s, step), n) <==>
            step.GetFails? && s.threads[step.thread].spare == Some(n)
  {
    ReachableInv(s, s0, steps);
    StepInv(s, step);
    LostIsUnreachable(s, n);
    LostIsUnreachable(Apply(s, step), n);
    if step.GetFails? { assert ThreadOk(s, step.thread); }
  }

  lemma UnreachableStep(s: State, step: Step, n: nat)
    requires Inv(s) && Enabled(s, step) && Unreachable(s, n)
    ensures Unreachable(Apply(s, step), n)
  {
    StepInv(s, step);
    LostIsUnreachable(s, n);
    LostKept(s, step, n);
    LostIsUnreachable(Apply(s, step), n);
  }

  /** Every step that gives a node a new role or frees it does so to a node in another role. */
  lemma LostKept(s: State, step: Step, n: nat)
    requires Inv(s) && Enabled(s, step) && IsLost(s, n)
    ensures IsLost(Apply(s, step), n)
  {
    assert NodeOk(s, n);
    match step
    case Pass(t) =>
      assert ThreadOk(s, t);
      FindIsIndex(s, s.threads[t].key);
      assert KeyOk(s, s.threads[t].key);
    case GetFails(t) =>
    case Attach(t) => assert ThreadOk(s, t);
    case Undo(t) => assert ThreadOk(s, t);
    case Exit(t) => assert ThreadOk(s, t);
    case Reclaim(v) => assert VnodeOk(s, v);
    case _ =>
  }

  /** Nothing ever leads to a lost node again, and it is never freed. */
  lemma {:induction false} LostForever(s: State, steps: seq<Step>, n: nat)
    requires Inv(s) && Runs(s, steps) && Unreachable(s, n)
    ensures Unreachable(Exec(s, steps), n)
    decreases |steps|
  {
    if steps != [] {
      UnreachableStep(s, steps[0], n);
      StepInv(s, steps[0]);
      LostForever(Apply(s, steps[0]), steps[1..], n);
    }
  }

  lemma {:induction false} RunAppend(s: State, a: seq<Step>, b: seq<Step>)
    requires Runs(s, a) && Runs(Exec(s, a), b)
    ensures Runs(s, a + b) && Exec(s, a + b) == Exec(Exec(s, a), b)
    decreases |a|
  {
    if a == [] {
      assert a + b == b;
    } else {
      RunAppend(Apply(s, a[0]), a[1..], b);
      assert (a + b)[1..] == a[1..] + b;
    }
  }

  lemma RunTwo(s: State, a: Step, b: Step)
    requires Enabled(s, a) && Enabled(Apply(s, a), b)
    ensures Runs(s, [a, b]) && Exec(s, [a, b]) == Apply(Apply(s, a), b)
  {
    assert [a, b][1..] == [b] && [b][1..] == [];
    assert Runs(Apply(Apply(s, a), b), []);
    assert Runs(Apply(s, a), [b]) && Exec(Apply(s, a), [b]) == Apply(Apply(s, a), b);
  }

  /** Both threads want `k`; neither found it and each has allocated a node. */
  predicate BothAllocated(s: State, k: Key) {
    && s.tb.buckets == map[] && s.vnodes == map[] && 10 in s.tb.heap && 10 in s.roles
    && 0 in s.threads && s.threads[0] == Thread(k, Some(10), Top)
    && 1 in s.threads && s.threads[1] == Thread(k, Some(11), Top)
  }

  lemma BothAllocate(s0: State, k: Key, g: Node) returns (steps: seq<Step>)
    requires Init(s0)
    ensures Runs(s0, steps) && BothAllocated(Exec(s0, steps), k)
  {
    var s1 := Apply(Apply(s0, Start(0, k)), Start(1, k));
    RunTwo(s0, Start(0, k), Start(1, k));
    var s2 := Apply(Apply(s1, Pass(0)), Pass(1));
    RunTwo(s1, Pass(0), Pass(1));
    RunTwo(s2, AllocOk(0, 10, g), AllocOk(1, 11, g));
    RunAppend(s1, [Pass(0), Pass(1)], [AllocOk(0, 10, g), AllocOk(1, 11, g)]);
    steps := [Pass(0), Pass(1)] + [AllocOk(0, 10, g), AllocOk(1, 11, g)];
    RunAppend(s0, [Start(0, k), Start(1, k)], steps);
    steps := [Start(0, k), Start(1, k)] + steps;
  }

  /** Thread 1 got there first: its node is linked to vnode 20. */
  predicate OtherWon(s: State, k: Key, pc: Pc) {
    && s.tb.buckets == map[s.tb.place(k) := [11]]
    && 11 in s.tb.heap && s.tb.heap[11] == Node(k, false, false, Some(20))
    && 20 in s.vnodes && s.vnodes[20] == Vnode(0, Live, {Finder(1)}, Some(11))
    && 10 in s.roles && 0 in s.threads && s.threads[0] == Thread(k, Some(10), pc)
    && 1 in s.threads && s.threads[1].pc == Exiting(11, 20) && s.threads[1].spare == Some(11)
  }

  lemma OtherWins(s: State, k: Key) returns (steps: seq<Step>)
    requires BothAllocated(s, k)
    ensures Runs(s, steps) && OtherWon(Exec(s, steps), k, Validating(11, 20, 0))
  {
    var p := s.tb.place(k);
    assert [11] + Bucket(s.tb.buckets, p) == [11];
    var s1 := Apply(s, Pass(1));
    assert s1.tb.buckets == map[p := [11]] && s1.threads[1] == Thread(k, Some(11), Creating(11));
    RunTwo(s, Pass(1), CreateOk(1, 20));
    var s2 := Apply(s1, CreateOk(1, 20));
    var s3 := Apply(s2, Attach(1));
    assert OtherWon(s3, k, Top);
    assert Search([11], s3.tb.heap, k) == Some(11);
    RunTwo(s2, Attach(1), Pass(0));
    RunAppend(s, [Pass(1), CreateOk(1, 20)], [Attach(1), Pass(0)]);
    steps := [Pass(1), CreateOk(1, 20)] + [Attach(1), Pass(0)];
  }

  /** The winner has returned and dropped its reference. */
  predicate Unreferenced(s: State, k: Key) {
    && 20 in s.vnodes && s.vnodes[20] == Vnode(0, Live, {}, Some(11))
    && 10 in s.roles && 0 in s.threads && s.threads[0] == Thread(k, Some(10), Validating(11, 20, 0))
  }

  lemma WinnerLeaves(s: State, k: Key)
    requires OtherWon(s, k, Validating(11, 20, 0))
    ensures Runs(s, [Exit(1), Put(1)]) && Unreferenced(Exec(s, [Exit(1), Put(1)]), k)
  {
    RunTwo(s, Exit(1), Put(1));
  }

  /** The vnode's node is gone while thread 0 is about to validate it. */
  predicate SweptUnderIt(s: State, k: Key) {
    && 20 in s.vnodes && s.vnodes[20].life == Swept
    && 10 in s.roles && 0 in s.threads && s.threads[0] == Thread(k, Some(10), Validating(11, 20, 0))
  }

  lemma Reclaimed(s: State, k: Key)
    requires Unreferenced(s, k)
    ensures Runs(s, [Terminate(20), Reclaim(20)]) && SweptUnderIt(Exec(s, [Terminate(20), Reclaim(20)]), k)
  {
    RunTwo(s, Terminate(20), Reclaim(20));
  }

  lemma ValidationFails(s: State, k: Key)
    requires SweptUnderIt(s, k)
    ensures Runs(s, [Clear(20), GetFails(0)]) && IsLost(Exec(s, [Clear(20), GetFails(0)]), 10)
    ensures !Enabled(Apply(s, Clear(20)), GetOk(0))
  {
    RunTwo(s, Clear(20), GetFails(0));
  }

  /** And it does happen: thread 0 allocates while thread 1 creates the node, finds that node on its
      next pass, and loses its own when the vnode is reclaimed before it could be validated. */
  lemma ANodeCanBeLost(s0: State, k: Key, g: Node) returns (steps: seq<Step>)
    requires Init(s0)
    ensures Runs(s0, steps) && Unreachable(Exec(s0, steps), 10)
  {
    steps := BothAllocate(s0, k, g);
    var s1 := Exec(s0, steps);
    var more := OtherWins(s1, k);
    RunAppend(s0, steps, more);
    steps := steps + more;
    WinnerLeaves(Exec(s0, steps), k);
    RunAppend(s0, steps, [Exit(1), Put(1)]);
    steps := steps + [Exit(1), Put(1)];
    Reclaimed(Exec(s0, steps), k);
    RunAppend(s0, steps, [Terminate(20), Reclaim(20)]);
    steps := steps + [Terminate(20), Reclaim(20)];
    ValidationFails(Exec(s0, steps), k);
    RunAppend(s0, steps, [Clear(20), GetFails(0)]);
    steps := steps + [Clear(20), GetFails(0)];
    InitInv(s0);
    RunInv(s0, steps);
    LostIsUnreachable(Exec(s0, steps), 10);
  }
}
