/**
 Looking up names (kext/procfs_vnops.c, procfs_vnop_lookup; kext/procfs_node.c,
 procfs_get_parent_node_id; kext/procfs_subr.c, procfs_get_fileid), over a structure tree and a
 snapshot of the processes and sysctl oids.

 A node is a structure node and a node id; getting the node from the cache is the subject of
 NodeCache and is taken to succeed here.
 */
module Lookup {
  import opened Common
  import opened Numbers
  import opened Structure
  import Sysctl

  const NO_PID: int := -1
  const NO_OBJECT: nat := 0

  datatype NodeId = NodeId(pid: int, objectId: nat, base: nat)

  datatype PNode = PNode(snode: nat, id: NodeId)

  /** A running process: its command name, descriptors, thread ids if they can be had, and whether the
      caller's credentials give access to it. */
  datatype Process = Process(comm: string, fds: seq<int>, threads: Option<seq<nat>>, accessible: bool)

  /** What the code asks the kernel: the names a spoofed release hides, whether access is checked, the
      processes, and the oid tree. */
  datatype World = World(hidden: set<string>, check: bool, processes: map<int, Process>,
                         threadErrno: int, oids: Sysctl.Oids)

  datatype Outcome = Found(node: PNode) | Failed(errno: int)

  predicate CanSee(w: World, pid: int) {
    !w.check || (pid in w.processes && w.processes[pid].accessible)
  }

  /** procfs_construct_process_dir_name */
  function ProcessDirName(pid: nat, comm: string): string {
    Decimal(pid) + (" " + comm)
  }

  /** The snapshot is consistent: numbers are those of an int. */
  predicate WorldOk(w: World) {
    && (forall pid :: pid in w.processes ==> 0 <= pid < INT_RANGE)
    && (forall pid :: pid in w.processes ==> NumbersOk(w.processes[pid]))
    && Sysctl.TreeOk(w.oids)
  }

  predicate NumbersOk(p: Process) {
    && (forall k :: 0 <= k < |p.fds| ==> 0 <= p.fds[k] < INT_RANGE)
    && (p.threads.Some? ==> forall k :: 0 <= k < |p.threads.value| ==> p.threads.value[k] < INT_RANGE)
  }

  // ----- the processes that are listed -----

  /** One more than PROCFS_MAX_PID */
  const PID_LIMIT: nat := 100000

  /** PROCFS_MAX_PROCS */
  const MAX_LISTED: nat := 1024

  function AllPids(): (ids: seq<int>)
    ensures |ids| == PID_LIMIT && forall i :: 0 <= i < |ids| ==> ids[i] == i
  {
    seq(PID_LIMIT, i => i)
  }

  /** Those of the processes that the caller may see, in order. */
  function Seen(w: World, ids: seq<int>): (pids: seq<int>)
    ensures |pids| <= |ids| && forall i :: 0 <= i < |pids| ==> pids[i] in w.processes && CanSee(w, pids[i])
  {
    if ids == [] then []
    else
      var front, last := Seen(w, ids[..|ids| - 1]), ids[|ids| - 1];
      if last in w.processes && CanSee(w, last) then front + [last] else front
  }

  function ListedPids(w: World): (pids: seq<int>)
    ensures |pids| <= MAX_LISTED && forall i :: 0 <= i < |pids| ==> pids[i] in w.processes && CanSee(w, pids[i])
  {
    Clip(Seen(w, AllPids()), MAX_LISTED)
  }

  lemma {:induction false} SeenPrefix(w: World, ids: seq<int>, n: nat)
    requires n <= |ids|
    ensures Seen(w, ids[..n]) <= Seen(w, ids)
    decreases |ids| - n
  {
    if n < |ids| {
      SeenPrefix(w, ids, n + 1);
      assert ids[..n + 1][..n] == ids[..n];
    } else {
      assert ids[..n] == ids;
    }
  }

  /** procfs_get_pids */
  method GetPids(w: World) returns (pids: seq<int>)
    ensures pids == ListedPids(w)
  {
    pids := [];
    var pid := 0;
    ghost var all := AllPids();
    while pid < PID_LIMIT && |pids| < MAX_LISTED
      invariant 0 <= pid <= PID_LIMIT && |pids| <= MAX_LISTED && pids == Seen(w, all[..pid])
    {
      assert all[..pid + 1][..pid] == all[..pid];
      if pid in w.processes && (!w.check || w.processes[pid].accessible) {
        pids := pids + [pid];
      }
      pid := pid + 1;
    }
    SeenPrefix(w, all, pid);
    assert all[..PID_LIMIT] == all;
  }

  // ----- ids -----

  function Truncated(n: int): U64 {
    n % TWO64
  }

  /** procfs_get_fileid: `pid << 8` is an int, so its sign reaches the upper half. */
  function FileId(pid: int, objectId: nat, base: nat): nat {
    var withPid := Or(base, if pid != NO_PID then Truncated(Wrapped(pid * 0x100)) else 0);
    Or(withPid, Truncated(objectId * 0x100_0000))
  }

  function NodeFileId(n: PNode): nat {
    FileId(n.id.pid, n.id.objectId, n.id.base)
  }

  /** Low 40 bits: what is left of an object id in a file number. */
  const OBJECT_RANGE: nat := 0x100_0000_0000

  /** Without a pid the number is the base id with the low 40 bits of the object id above bit 24. */
  lemma FileIdWithoutPid(objectId: nat, base: nat)
    requires base < ID_RANGE
    ensures FileId(NO_PID, objectId, base) == base + objectId % OBJECT_RANGE * 0x100_0000
  {
    OrZero(base);
    Pow2At24();
    LowBits(objectId);
    OrDisjoint(base, objectId % OBJECT_RANGE, 24);
  }

  lemma LowBits(n: nat)
    ensures Truncated(n * 0x100_0000) == n % OBJECT_RANGE * 0x100_0000
  {
    var q, r := n / OBJECT_RANGE, n % OBJECT_RANGE;
    assert n == q * OBJECT_RANGE + r;
    Remainder(q, r * 0x100_0000);
  }

  lemma Remainder(q: nat, r: nat)
    requires r < TWO64
    ensures Truncated(q * TWO64 + r) == r
  {
  }

  /** The bits of a file number are those of the base id, of the pid from bit 8 on and of the object id from
      bit 24 on, for every pid below 2^23. */
  lemma FileIdBits(pid: nat, objectId: nat, base: nat, i: nat)
    requires pid < 0x80_0000 && i < 64
    ensures Bit(FileId(pid, objectId, base), i) <==>
            Bit(base, i) || (i >= 8 && Bit(pid, i - 8)) || (i >= 24 && Bit(objectId, i - 24))
  {
    var p, o := pid * 0x100, objectId * 0x100_0000;
    assert Truncated(Wrapped(p)) == p;
    OrBit(base, p, i);
    OrBit(Or(base, p), Truncated(o), i);
    Pow2At8();
    Pow2At24();
    Pow2At64();
    ShiftBit(pid, 8, i);
    LowBit(o, 64, o / TWO64, Truncated(o), i);
    ShiftBit(objectId, 24, i);
  }

  lemma Pow2At8()
    ensures Pow2(8) == 0x100
  {
    Pow2Four(0);
    Pow2Four(4);
  }

  lemma Pow2At64()
    ensures Pow2(64) == TWO64
  {
    Pow2At24();
    Pow2Four(24);
    Pow2Four(28);
    Pow2Four(32);
    Pow2Four(36);
    Pow2Four(40);
    Pow2Four(44);
    Pow2Four(48);
    Pow2Four(52);
    Pow2Four(56);
    Pow2Four(60);
  }

  /** procfs_get_parent_node_id */
  function ParentId(t: Tree, n: PNode): NodeId
    requires TreeOk(t) && n.snode < |t|
  {
    assert NodeOk(t, n.snode);
    var parent := if t[n.snode].parent.None? then t[n.snode] else t[t[n.snode].parent.value];
    NodeId(if parent.process then n.id.pid else NO_PID, if parent.thread then n.id.objectId else NO_OBJECT, parent.base)
  }

  /** The node that ".." names. */
  function Upward(w: World, t: Tree, n: PNode): PNode
    requires TreeOk(t) && n.snode < |t|
  {
    var s := t[n.snode];
    if s.kind.SysctlTree? && n.id.objectId != NO_OBJECT then
      var up := Sysctl.Parent(w.oids, n.id.objectId);
      PNode(n.snode, NodeId(NO_PID, if up.Some? then up.value else 0, s.base))
    else
      PNode(if s.parent.None? then n.snode else s.parent.value, ParentId(t, n))
  }

  /** The vnode type of a node is that of a directory. */
  predicate IsDirectory(w: World, t: Tree, n: PNode)
    requires n.snode < |t|
  {
    var k := t[n.snode].kind;
    || k.Root? || k.Proc? || k.Thread? || k.Dir? || k.This? || k.Above? || k.Fd?
    || (k.SysctlTree? && Sysctl.IsNode(w.oids, n.id.objectId))
  }

  // ----- matching a name -----

  /** What one structure child makes of a name: not this one, this node, or nothing at all. */
  datatype Try = Skip | Hit(node: PNode) | Stop

  predicate ThreadOf(p: Process, id: int) {
    p.threads.Some? && Truncated(id) in p.threads.value
  }

  function TryNumbered(w: World, s: SNode, c: nat, n: PNode, name: string): Try {
    var id := AtoiValue(name);
    if !s.kind.ProcByName? && Leading(name) < |name| then Skip
    else if id == -1 then Skip
    else
      var pid := if s.kind.Thread? then n.id.pid else id;
      if pid !in w.processes then Stop
      else if s.kind.ProcByName? && (pid < 0 || name != ProcessDirName(pid, w.processes[pid].comm)) then Stop
      else if !CanSee(w, pid) then Stop
      else if s.kind.Thread? && !ThreadOf(w.processes[pid], id) then Stop
      else Hit(PNode(c, NodeId(pid, if s.kind.Thread? then Truncated(id) else n.id.objectId, s.base)))
  }

  function TryChild(w: World, s: SNode, c: nat, n: PNode, name: string): Try {
    if s.name in w.hidden then Skip
    else if s.name == name then Hit(PNode(c, NodeId(n.id.pid, n.id.objectId, s.base)))
    else if s.kind.Fd? then
      var id := AtoiValue(name);
      if id != -1 && n.id.pid in w.processes && id in w.processes[n.id.pid].fds
      then Hit(PNode(c, NodeId(n.id.pid, Truncated(id), s.base)))
      else Stop
    else if Expands(s.kind) then TryNumbered(w, s, c, n, name)
    else Skip
  }

  /** The first child from `k` on that does not pass the name over decides. */
  function MatchFrom(w: World, t: Tree, n: PNode, name: string, k: nat): Outcome
    requires TreeOk(t) && n.snode < |t| && k <= |t[n.snode].children|
    decreases |t[n.snode].children| - k
  {
    var cs := t[n.snode].children;
    if k == |cs| then Failed(ENOENT)
    else
      assert ChildrenOk(t, n.snode);
      match TryChild(w, t[cs[k]], cs[k], n, name)
      case Skip => MatchFrom(w, t, n, name, k + 1)
      case Hit(m) => Found(m)
      case Stop => Failed(ENOENT)
  }

  function LookedUp(w: World, t: Tree, n: PNode, name: string): Outcome
    requires TreeOk(t) && n.snode < |t|
  {
    if !IsDirectory(w, t, n) || name == "" then Failed(EINVAL)
    else if name == ".." then Found(Upward(w, t, n))
    else if name == "." then Found(n)
    else if t[n.snode].kind.SysctlTree? then
      match Sysctl.Find(w.oids, n.id.objectId, name)
      case Some(id) => Found(PNode(n.snode, NodeId(NO_PID, id, t[n.snode].base)))
      case None => Failed(ENOENT)
    else MatchFrom(w, t, n, name, 0)
  }

  /** The part of the loop body for numbered entries: whether the search ends, and with what. */
  method MatchNumbered(w: World, s: SNode, c: nat, n: PNode, name: string) returns (step: Try)
    requires s.kind.Proc? || s.kind.ProcByName? || s.kind.Thread?
    ensures step == TryNumbered(w, s, c, n, name)
  {
    var id, end := Atoi(name);
    if !s.kind.ProcByName? && end < |name| {
      return Skip;
    }
    if id == -1 {
      return Skip;
    }
    var pid := if s.kind.Proc? || s.kind.ProcByName? then id else n.id.pid;
    var objectId := if s.kind.Thread? then Truncated(id) else n.id.objectId;
    if pid !in w.processes {
      return Stop;
    }
    var target := w.processes[pid];
    if s.kind.ProcByName? {
      if pid < 0 || name != ProcessDirName(pid, target.comm) {
        return Stop;
      }
    }
    if w.check && !target.accessible {
      return Stop;
    }
    if s.kind.Thread? {
      if target.threads.None? {
        return Stop;
      }
      var found, i := false, 0;
      while i < |target.threads.value| && !found
        invariant 0 <= i <= |target.threads.value| && found == (objectId in target.threads.value[..i])
      {
        found := target.threads.value[i] == objectId;
        i := i + 1;
      }
      assert target.threads.value[..|target.threads.value|] == target.threads.value;
      if !found {
        return Stop;
      }
    }
    step := Hit(PNode(c, NodeId(pid, objectId, s.base)));
  }

  method MatchDescriptor(w: World, s: SNode, c: nat, n: PNode, name: string) returns (step: Try)
    requires s.kind.Fd? && s.name !in w.hidden && s.name != name
    ensures step == TryChild(w, s, c, n, name)
  {
    var id, end := Atoi(name);
    var valid := false;
    if id != -1 && n.id.pid in w.processes {
      var fds := w.processes[n.id.pid].fds;
      var k := 0;
      while k < |fds| && !valid
        invariant 0 <= k <= |fds| && valid == (id in fds[..k])
      {
        valid := fds[k] == id;
        k := k + 1;
      }
      assert fds[..|fds|] == fds;
    }
    step := if valid then Hit(PNode(c, NodeId(n.id.pid, Truncated(id), s.base))) else Stop;
  }

  /** procfs_vnop_lookup */
  method LookUp(w: World, t: Tree, n: PNode, name: string) returns (r: Outcome)
    requires TreeOk(t) && n.snode < |t|
    ensures r == LookedUp(w, t, n, name)
    ensures r == Failed(EINVAL) <==> !IsDirectory(w, t, n) || name == ""
  {
    if !IsDirectory(w, t, n) || |name| < 1 {
      return Failed(EINVAL);
    }
    if name == ".." {
      return Found(Upward(w, t, n));
    }
    if |name| == 1 && name[0] == '.' {
      assert name == ".";
      return Found(n);
    }
    if t[n.snode].kind.SysctlTree? {
      var child := Sysctl.Find(w.oids, n.id.objectId, name);
      if child.None? {
        return Failed(ENOENT);
      }
      return Found(PNode(n.snode, NodeId(NO_PID, child.value, t[n.snode].base)));
    }
    var cs, k := t[n.snode].children, 0;
    var step := Skip;
    assert ChildrenOk(t, n.snode);
    while k < |cs| && step.Skip?
      invariant 0 <= k <= |cs|
      invariant step.Skip? ==> MatchFrom(w, t, n, name, 0) == MatchFrom(w, t, n, name, k)
      invariant step.Hit? ==> MatchFrom(w, t, n, name, 0) == Found(step.node)
      invariant step.Stop? ==> MatchFrom(w, t, n, name, 0) == Failed(ENOENT)
    {
      var c := cs[k];
      var s := t[c];
      if s.name in w.hidden {
        step := Skip;
      } else if s.name == name {
        step := Hit(PNode(c, NodeId(n.id.pid, n.id.objectId, s.base)));
      } else if s.kind.Fd? {
        step := MatchDescriptor(w, s, c, n, name);
      } else if s.kind.Proc? || s.kind.ProcByName? || s.kind.Thread? {
        step := MatchNumbered(w, s, c, n, name);
      }
      k := k + 1;
    }
    r := if step.Hit? then Found(step.node) else Failed(ENOENT);
  }
}
