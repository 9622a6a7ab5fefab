/**
 procfsnode_find and procfs_vnop_reclaim as concurrent processes over the hash table: any number
 of threads look up, allocate, create vnodes, sleep and validate, while the VFS takes and drops
 references and reclaims vnodes that nobody references. Each stretch under the hash mutex is one
 step, and so is each call made outside it.

 An iocount is modelled by the set of its holders. Addresses of freed nodes and of dead vnodes
 may be handed out again. `roles` and `index` are history.
 */
module NodeCache {
  import opened Common
  import opened NodeTable

  datatype Holder = Finder(thread: nat) | Vfs(ref: nat)

  datatype Life =
    | Live
    | Dying   // picked for reclaim: no references, none can be taken
    | Swept   // its pfsnode is gone, the link not yet cleared
    | Dead    // link cleared; the structure may be used for a new vnode

  datatype Vnode = Vnode(vid: nat, life: Life, io: set<Holder>, fsnode: Option<nat>)

  /** Where a call of procfsnode_find is. */
  datatype Pc =
    | Top                                       // about to take the mutex for another pass
    | Allocating
    | Sleeping(node: nat)
    | Validating(node: nat, vn: nat, vid: nat)  // before vnode_getwithvid
    | Creating(node: nat)                       // in the creation callback
    | Attaching(node: nat, vn: nat)             // callback succeeded
    | Undoing(node: nat, errno: int)            // callback failed
    | Exiting(node: nat, vn: nat)               // out of the loop, spare node not yet freed
    | Returned(node: nat, vn: nat)              // success; the caller holds the iocount
    | Failed(errno: int)

  /** `spare` is the local new_pfsnode. */
  datatype Thread = Thread(key: Key, spare: Option<nat>, pc: Pc)

  /** History: what an allocated node is for. */
  datatype Role =
    | Private(thread: nat)   // allocated by the thread, not hashed
    | Pending(thread: nat)   // hashed, its vnode being created by the thread
    | Bound(vn: nat)         // hashed and linked to the vnode
    | Lost                   // nobody refers to it any more

  datatype State = State(
    tb: Table,
    vnodes: map<nat, Vnode>,
    threads: map<nat, Thread>,
    roles: map<nat, Role>,
    index: map<Key, nat>)

  ghost predicate Init(s: State) {
    && s.tb.buckets == map[] && s.tb.heap == map[] && s.vnodes == map[] && s.threads == map[]
    && s.roles == map[] && s.index == map[]
  }

  datatype Step =
    | Start(thread: nat, key: Key)
    | Pass(thread: nat)
    | AllocOk(thread: nat, node: nat, garbage: Node)
    | AllocFails(thread: nat)
    | GetOk(thread: nat)
    | GetFails(thread: nat)
    | CreateOk(thread: nat, vn: nat)
    | CreateFails(thread: nat, errno: int)
    | Attach(thread: nat)
    | Undo(thread: nat)
    | Exit(thread: nat)
    | Put(thread: nat)
    | VfsGet(vn: nat, ref: nat)
    | VfsPut(vn: nat, ref: nat)
    | Terminate(vn: nat)
    | Reclaim(vn: nat)
    | Clear(vn: nat)

  predicate Enabled(s: State, step: Step) {
    match step
    case Start(t, k) => t !in s.threads
    case Pass(t) => t in s.threads && s.threads[t].pc.Top?
    case AllocOk(t, n, g) => t in s.threads && s.threads[t].pc.Allocating? && n !in s.tb.heap
    case AllocFails(t) => t in s.threads && s.threads[t].pc.Allocating?
    case GetOk(t) =>
      && t in s.threads && s.threads[t].pc.Validating?
      && var pc := s.threads[t].pc;
         pc.vn in s.vnodes && s.vnodes[pc.vn].vid == pc.vid && s.vnodes[pc.vn].life.Live?
    case GetFails(t) => t in s.threads && s.threads[t].pc.Validating?
    case CreateOk(t, v) =>
      t in s.threads && s.threads[t].pc.Creating? && (v in s.vnodes ==> s.vnodes[v].life.Dead?)
    case CreateFails(t, e) => t in s.threads && s.threads[t].pc.Creating? && e != 0
    case Attach(t) => t in s.threads && s.threads[t].pc.Attaching?
    case Undo(t) => t in s.threads && s.threads[t].pc.Undoing?
    case Exit(t) => t in s.threads && s.threads[t].pc.Exiting?
    case Put(t) => t in s.threads && s.threads[t].pc.Returned? && s.threads[t].pc.vn in s.vnodes
    case VfsGet(v, r) => v in s.vnodes && s.vnodes[v].life.Live?
    case VfsPut(v, r) => v in s.vnodes && Vfs(r) in s.vnodes[v].io
    case Terminate(v) => v in s.vnodes && s.vnodes[v].life.Live? && s.vnodes[v].io == {}
    case Reclaim(v) => v in s.vnodes && s.vnodes[v].life.Dying?
    case Clear(v) => v in s.vnodes && s.vnodes[v].life.Swept?
  }

  function SetPc(s: State, t: nat, pc: Pc): map<nat, Thread>
    requires t in s.threads
  {
    s.threads[t := s.threads[t].(pc := pc)]
  }

  /** wakeup(node): every thread that sleeps on the address goes round its loop again. */
  function Woken(threads: map<nat, Thread>, n: nat): map<nat, Thread> {
    map t | t in threads :: if threads[t].pc == Sleeping(n) then threads[t].(pc := Top) else threads[t]
  }

  function WokenIf(threads: map<nat, Thread>, wake: bool, n: nat): map<nat, Thread> {
    if wake then Woken(threads, n) else threads
  }

  /** Where the thread goes after a locked pass. */
  function After(s: State, act: Action): Pc {
    match act
    case Allocate => Allocating
    case Create(n) => Creating(n)
    case Sleep(n) => Sleeping(n)
    case Validate(n, v) => Validating(n, v, if v in s.vnodes then s.vnodes[v].vid else 0)
  }

  function ApplyPass(s: State, t: nat): State
    requires t in s.threads
  {
    var th := s.threads[t];
    var (tb, act) := Section(s.tb, th.key, th.spare);
    var s1 := s.(tb := tb, threads := SetPc(s, t, After(s, act)));
    if act.Create? then s1.(roles := s.roles[act.node := Pending(t)], index := s.index[th.key := act.node]) else s1
  }

  function ApplyAttach(s: State, t: nat): State
    requires t in s.threads && s.threads[t].pc.Attaching?
  {
    var Attaching(n, v) := s.threads[t].pc;
    s.(tb := Linked(s.tb, n, v),
       threads := WokenIf(SetPc(s, t, Exiting(n, v)), Deref(s.tb.heap, n).waiting, n),
       roles := s.roles[n := Bound(v)])
  }

  function ApplyUndo(s: State, t: nat): State
    requires t in s.threads && s.threads[t].pc.Undoing?
  {
    var Undoing(n, e) := s.threads[t].pc;
    s.(tb := Freed(s.tb, n),
       threads := WokenIf(s.threads[t := s.threads[t].(pc := Failed(e), spare := None)],
                          Deref(s.tb.heap, n).waiting, n),
       roles := s.roles - {n},
       index := s.index - {Deref(s.tb.heap, n).key})
  }

  function ApplyExit(s: State, t: nat): State
    requires t in s.threads && s.threads[t].pc.Exiting?
  {
    var th := s.threads[t];
    var s1 := s.(threads := s.threads[t := th.(spare := None, pc := Returned(th.pc.node, th.pc.vn))]);
    if th.spare.Some? && th.spare.value != th.pc.node
    then s1.(tb := s.tb.(heap := s.tb.heap - {th.spare.value}), roles := s.roles - {th.spare.value})
    else s1
  }

  function ApplyReclaim(s: State, v: nat): State
    requires v in s.vnodes
  {
    var vn := s.vnodes[v];
    var s1 := s.(vnodes := s.vnodes[v := vn.(life := Swept)]);
    match vn.fsnode
    case None => s1
    case Some(n) =>
      s1.(tb := Freed(s.tb, n), roles := s.roles - {n}, index := s.index - {Deref(s.tb.heap, n).key})
  }

  function Apply(s: State, step: Step): State
    requires Enabled(s, step)
  {
    match step
    case Start(t, k) => s.(threads := s.threads[t := Thread(k, None, Top)])
    case Pass(t) => ApplyPass(s, t)
    case AllocOk(t, n, g) =>
      s.(tb := WithNode(s.tb, n, g), roles := s.roles[n := Private(t)],
         threads := s.threads[t := s.threads[t].(spare := Some(n), pc := Top)])
    case AllocFails(t) => s.(threads := SetPc(s, t, Failed(ENOMEM)))
    case GetOk(t) =>
      var pc := s.threads[t].pc;
      var vn := s.vnodes[pc.vn];
      s.(threads := SetPc(s, t, Exiting(pc.node, pc.vn)),
         vnodes := s.vnodes[pc.vn := vn.(io := vn.io + {Finder(t)})])
    case GetFails(t) =>
      var th := s.threads[t];
      s.(threads := s.threads[t := th.(spare := None, pc := Top)],
         roles := if th.spare.Some? then s.roles[th.spare.value := Lost] else s.roles)
    case CreateOk(t, v) =>
      var n := s.threads[t].pc.node;
      var vid := if v in s.vnodes then s.vnodes[v].vid else 0;
      s.(threads := SetPc(s, t, Attaching(n, v)),
         vnodes := s.vnodes[v := Vnode(vid, Live, {Finder(t)}, Some(n))])
    case CreateFails(t, e) => s.(threads := SetPc(s, t, Undoing(s.threads[t].pc.node, e)))
    case Attach(t) => ApplyAttach(s, t)
    case Undo(t) => ApplyUndo(s, t)
    case Exit(t) => ApplyExit(s, t)
    case Put(t) =>
      var vn := s.vnodes[s.threads[t].pc.vn];
      s.(threads := s.threads - {t}, vnodes := s.vnodes[s.threads[t].pc.vn := vn.(io := vn.io - {Finder(t)})])
    case VfsGet(v, r) => s.(vnodes := s.vnodes[v := s.vnodes[v].(io := s.vnodes[v].io + {Vfs(r)})])
    case VfsPut(v, r) => s.(vnodes := s.vnodes[v := s.vnodes[v].(io := s.vnodes[v].io - {Vfs(r)})])
    case Terminate(v) => s.(vnodes := s.vnodes[v := s.vnodes[v].(life := Dying)])
    case Reclaim(v) => ApplyReclaim(s, v)
    case Clear(v) =>
      s.(vnodes := s.vnodes[v := s.vnodes[v].(life := Dead, fsnode := None, vid := s.vnodes[v].vid + 1)])
  }

  ghost predicate Runs(s: State, steps: seq<Step>)
    decreases |steps|
  {
    steps == [] || (Enabled(s, steps[0]) && Runs(Apply(s, steps[0]), steps[1..]))
  }

  ghost function Exec(s: State, steps: seq<Step>): State
    requires Runs(s, steps)
    decreases |steps|
  {
    if steps == [] then s else Exec(Apply(s, steps[0]), steps[1..])
  }

  // ----- the invariant -----

  /** The node is hashed: the plain map and the bucket of its own hash agree on it. */
  predicate Hashed(s: State, n: nat) {
    && n in s.tb.heap
    && var k := s.tb.heap[n].key;
       k in s.index && s.index[k] == n && n in Bucket(s.tb.buckets, s.tb.place(k))
  }

  predicate Builds(pc: Pc, n: nat) {
    (pc.Creating? || pc.Attaching? || pc.Undoing?) && pc.node == n
  }

  predicate NodeOk(s: State, n: nat) {
    && (n in s.tb.heap <==> n in s.roles)
    && (n in s.tb.heap ==> match s.roles[n]
          case Private(t) => t in s.threads && s.threads[t].spare == Some(n)
          case Pending(t) =>
            && Hashed(s, n) && s.tb.heap[n].attaching && s.tb.heap[n].vnode.None?
            && t in s.threads && Builds(s.threads[t].pc, n)
          case Bound(v) =>
            && Hashed(s, n) && !s.tb.heap[n].attaching && !s.tb.heap[n].waiting && s.tb.heap[n].vnode == Some(v)
            && v in s.vnodes && s.vnodes[v].fsnode == Some(n) && (s.vnodes[v].life.Live? || s.vnodes[v].life.Dying?)
          case Lost => true)
  }

  predicate IsHashedRole(r: Role) {
    r.Pending? || r.Bound?
  }

  predicate BucketOk(s: State, b: nat) {
    && NoDuplicates(Bucket(s.tb.buckets, b))
    && forall n :: n in Bucket(s.tb.buckets, b) ==>
         n in s.tb.heap && n in s.roles && s.tb.place(s.tb.heap[n].key) == b && IsHashedRole(s.roles[n])
  }

  predicate KeyOk(s: State, k: Key) {
    k in s.index ==>
      s.index[k] in s.tb.heap && s.tb.heap[s.index[k]].key == k && s.index[k] in s.roles
      && IsHashedRole(s.roles[s.index[k]])
  }

  /** Thread `t` holds an iocount on the vnode that its node is linked to. */
  predicate Referenced(s: State, t: nat, n: nat, v: nat)
    requires t in s.threads
  {
    && n in s.tb.heap && n in s.roles && s.roles[n] == Bound(v) && s.tb.heap[n].key == s.threads[t].key
    && v in s.vnodes && s.vnodes[v].life.Live? && Finder(t) in s.vnodes[v].io
  }

  predicate ThreadOk(s: State, t: nat)
    requires t in s.threads
  {
    var th := s.threads[t];
    && (th.spare.Some? && !(th.pc.Creating? || th.pc.Attaching? || th.pc.Undoing?)
        && !(th.pc.Exiting? && th.pc.node == th.spare.value) ==>
          th.spare.value in s.roles && s.roles[th.spare.value] == Private(t))
    && match th.pc
       case Top => true
       case Allocating => th.spare.None?
       case Sleeping(n) =>
         n in s.tb.heap && n in s.roles && s.roles[n].Pending? && s.tb.heap[n].waiting
       case Validating(n, v, vid) =>
         && v in s.vnodes && vid <= s.vnodes[v].vid
         && (vid == s.vnodes[v].vid ==> !s.vnodes[v].life.Dead?)
         && (vid == s.vnodes[v].vid && s.vnodes[v].life.Live? ==>
               n in s.tb.heap && n in s.roles && s.roles[n] == Bound(v) && s.tb.heap[n].key == th.key)
       case Creating(n) => Building(s, t, n)
       case Attaching(n, v) =>
         && Building(s, t, n)
         && v in s.vnodes && s.vnodes[v].life.Live? && s.vnodes[v].fsnode == Some(n) && Finder(t) in s.vnodes[v].io
       case Undoing(n, e) => Building(s, t, n) && e != 0
       case Exiting(n, v) => Referenced(s, t, n, v)
       case Returned(n, v) => Referenced(s, t, n, v) && th.spare.None?
       case Failed(e) => e != 0 && th.spare.None?
  }

  /** Thread `t` is creating the vnode of a node that it allocated itself. */
  predicate Building(s: State, t: nat, n: nat)
    requires t in s.threads
  {
    && s.threads[t].spare == Some(n)
    && n in s.tb.heap && n in s.roles && s.roles[n] == Pending(t) && s.tb.heap[n].key == s.threads[t].key
  }

  ghost predicate VnodeOk(s: State, v: nat)
    requires v in s.vnodes
  {
    var vn := s.vnodes[v];
    && (vn.life.Live? ==> vn.fsnode.Some? && vn.fsnode.value in s.roles && Uses(s, vn.fsnode.value, v))
    && (vn.life.Dying? ==> vn.fsnode.Some? && vn.fsnode.value in s.roles && s.roles[vn.fsnode.value] == Bound(v))
    && (!vn.life.Live? ==> vn.io == {})
    && forall t :: Finder(t) in vn.io ==> t in s.threads && Refers(s.threads[t].pc, v)
  }

  /** The node is linked to the vnode, or its creator is about to link it. */
  predicate Uses(s: State, n: nat, v: nat)
    requires n in s.roles
  {
    || s.roles[n] == Bound(v)
    || (s.roles[n].Pending? && s.roles[n].thread in s.threads && s.threads[s.roles[n].thread].pc == Attaching(n, v))
  }

  predicate Refers(pc: Pc, v: nat) {
    (pc.Attaching? || pc.Exiting? || pc.Returned?) && pc.vn == v
  }

  ghost predicate Inv(s: State) {
    && (forall n: nat {:trigger NodeOk(s, n)} :: NodeOk(s, n))
    && (forall b: nat {:trigger BucketOk(s, b)} :: BucketOk(s, b))
    && (forall k: Key {:trigger KeyOk(s, k)} :: KeyOk(s, k))
    && (forall t {:trigger ThreadOk(s, t)} :: t in s.threads ==> ThreadOk(s, t))
    && (forall v {:trigger VnodeOk(s, v)} :: v in s.vnodes ==> VnodeOk(s, v))
  }

  lemma InitInv(s: State)
    requires Init(s)
    ensures Inv(s)
  {
  }

  /** One-bucket search agrees with the plain map. */
  lemma FindIsIndex(s: State, k: Key)
    requires Inv(s)
    ensures Find(s.tb, k) == if k in s.index then Some(s.index[k]) else None
  {
    var r := Find(s.tb, k);
    assert BucketOk(s, s.tb.place(k)) && KeyOk(s, k);
    assert NodeOk(s, if r.Some? then r.value else if k in s.index then s.index[k] else 0);
  }

  // ----- what carries over from one state to the next -----

  /** The node's storage, role and hashing are the same in both states. */
  predicate SameNode(s: State, s': State, n: nat) {
    && (n in s'.tb.heap <==> n in s.tb.heap) && (n in s'.roles <==> n in s.roles)
    && (n in s.tb.heap ==> s'.tb.heap[n] == s.tb.heap[n])
    && (n in s.roles ==> s'.roles[n] == s.roles[n])
  }

  /** The thread still builds the node, the vnode still links it: what the role of `n` rests on. */
  predicate RoleKept(s: State, s': State, r: Role, n: nat) {
    match r
    case Private(t) =>
      t in s.threads ==> t in s'.threads && s'.threads[t].spare == s.threads[t].spare
    case Pending(t) =>
      t in s.threads && Builds(s.threads[t].pc, n) ==> t in s'.threads && Builds(s'.threads[t].pc, n)
    case Bound(v) =>
      v in s.vnodes ==> v in s'.vnodes && s'.vnodes[v].fsnode == s.vnodes[v].fsnode
                        && (s'.vnodes[v].life.Live? || s'.vnodes[v].life.Dying?)
    case Lost => true
  }

  lemma NodeKept(s: State, s': State, n: nat)
    requires NodeOk(s, n) && SameNode(s, s', n)
    requires Hashed(s, n) ==> Hashed(s', n)
    requires n in s.roles ==> RoleKept(s, s', s.roles[n], n)
    ensures NodeOk(s', n)
  {
  }

  predicate HasNode(pc: Pc) {
    !pc.Top? && !pc.Allocating? && !pc.Failed?
  }

  predicate HasVnode(pc: Pc) {
    pc.Validating? || pc.Attaching? || pc.Exiting? || pc.Returned?
  }

  /** For thread `t` the vnode is the same one in the same state, with the thread's reference. */
  predicate SameVnode(s: State, s': State, v: nat, t: nat) {
    v in s.vnodes ==>
      && v in s'.vnodes && s'.vnodes[v].vid == s.vnodes[v].vid && s'.vnodes[v].fsnode == s.vnodes[v].fsnode
      && s'.vnodes[v].life == s.vnodes[v].life && (Finder(t) in s.vnodes[v].io ==> Finder(t) in s'.vnodes[v].io)
  }

  /** For a thread that points at it the node is the same. */
  predicate SimilarNode(s: State, s': State, n: nat) {
    n in s.tb.heap && n in s.roles ==>
      && n in s'.tb.heap && n in s'.roles && s'.roles[n] == s.roles[n]
      && s'.tb.heap[n].key == s.tb.heap[n].key && (s.tb.heap[n].waiting ==> s'.tb.heap[n].waiting)
  }

  lemma ThreadKept(s: State, s': State, t: nat)
    requires t in s.threads && ThreadOk(s, t) && t in s'.threads && s'.threads[t] == s.threads[t]
    requires var th := s.threads[t]; th.spare.Some? ==>
      (th.spare.value in s.roles && s.roles[th.spare.value] == Private(t) ==>
         th.spare.value in s'.roles && s'.roles[th.spare.value] == Private(t))
    requires var pc := s.threads[t].pc; HasNode(pc) && !pc.Validating? ==> SimilarNode(s, s', pc.node)
    requires var pc := s.threads[t].pc; HasVnode(pc) && !pc.Validating? ==> SameVnode(s, s', pc.vn, t)
    requires var pc := s.threads[t].pc; pc.Validating? ==> StillChecks(s, s', pc)
    ensures ThreadOk(s', t)
  {
  }

  /** A captured vnode id matches a live vnode only if it did before, with the same node behind it. */
  predicate StillChecks(s: State, s': State, pc: Pc)
    requires pc.Validating?
  {
    pc.vn in s.vnodes && (pc.vid == s.vnodes[pc.vn].vid ==> !s.vnodes[pc.vn].life.Dead?) ==>
      && pc.vn in s'.vnodes && s.vnodes[pc.vn].vid <= s'.vnodes[pc.vn].vid
      && (pc.vid == s'.vnodes[pc.vn].vid ==> !s'.vnodes[pc.vn].life.Dead?)
      && (pc.vid == s'.vnodes[pc.vn].vid && s'.vnodes[pc.vn].life.Live? ==>
            && pc.vid == s.vnodes[pc.vn].vid && s.vnodes[pc.vn].life.Live?
            && (Allocated(s, pc.node) && s.roles[pc.node] == Bound(pc.vn) ==> SimilarNode(s, s', pc.node)))
  }

  predicate Allocated(s: State, n: nat) {
    n in s.tb.heap && n in s.roles
  }

  lemma VnodeKept(s: State, s': State, v: nat)
    requires v in s.vnodes && VnodeOk(s, v) && v in s'.vnodes && s'.vnodes[v] == s.vnodes[v]
    requires var vn := s.vnodes[v];
      (vn.life.Live? || vn.life.Dying?) && vn.fsnode.Some? && vn.fsnode.value in s.roles ==>
      vn.fsnode.value in s'.roles && s'.roles[vn.fsnode.value] == s.roles[vn.fsnode.value]
    requires forall t :: t in s.threads && Refers(s.threads[t].pc, v) ==>
      t in s'.threads && Refers(s'.threads[t].pc, v)
      && (s.threads[t].pc.Attaching? ==> s'.threads[t].pc == s.threads[t].pc)
    ensures VnodeOk(s', v)
  {
  }

  /** Everything but vnodes and threads is as it was. */
  ghost predicate SameTables(s: State, s': State) {
    s'.tb == s.tb && s'.roles == s.roles && s'.index == s.index
  }

  lemma TablesKept(s: State, s': State)
    requires Inv(s) && SameTables(s, s')
    ensures forall b: nat :: BucketOk(s', b)
    ensures forall k: Key :: KeyOk(s', k)
    ensures forall n: nat :: SameNode(s, s', n) && (Hashed(s, n) ==> Hashed(s', n))
  {
    forall b: nat ensures BucketOk(s', b) { assert BucketOk(s, b); }
    forall k: Key ensures KeyOk(s', k) { assert KeyOk(s, k); }
  }

  // ----- each step keeps the invariant -----

  /** Steps that move one thread along its own path without touching tables or vnodes. */
  lemma MoveInv(s: State, t: nat, th: Thread)
    requires Inv(s)
    requires t in s.threads ==> th.key == s.threads[t].key && th.spare == s.threads[t].spare
    requires t !in s.threads ==> th.spare == None
    requires t in s.threads && s.threads[t].pc.Creating? ==> Builds(th.pc, s.threads[t].pc.node)
    requires t in s.threads ==>
      var pc := s.threads[t].pc; pc.Top? || pc.Allocating? || pc.Creating?
    requires ThreadOk(s.(threads := s.threads[t := th]), t)
    ensures Inv(s.(threads := s.threads[t := th]))
  {
    var s' := s.(threads := s.threads[t := th]);
    TablesKept(s, s');
    forall n: nat ensures NodeOk(s', n) { NodeKept(s, s', n); }
    forall u | u in s'.threads ensures ThreadOk(s', u) { if u != t { ThreadKept(s, s', u); } }
    forall v | v in s'.vnodes ensures VnodeOk(s', v) { VnodeKept(s, s', v); }
  }

  lemma SleepInv(s: State, t: nat, n: nat)
    requires Inv(s) && Enabled(s, Pass(t)) && Section(s.tb, s.threads[t].key, s.threads[t].spare).1 == Sleep(n)
    ensures Inv(ApplyPass(s, t))
  {
    var k := s.threads[t].key;
    FindIsIndex(s, k);
    assert KeyOk(s, k) && NodeOk(s, n) && ThreadOk(s, t);
    var s' := ApplyPass(s, t);
    forall m: nat ensures NodeOk(s', m) {
      assert NodeOk(s, m);
      if m != n { NodeKept(s, s', m); }
    }
    forall b: nat ensures BucketOk(s', b) { assert BucketOk(s, b); }
    forall j: Key ensures KeyOk(s', j) { assert KeyOk(s, j); }
    forall u | u in s'.threads ensures ThreadOk(s', u) { if u != t { ThreadKept(s, s', u); } }
    forall v | v in s'.vnodes ensures VnodeOk(s', v) { assert VnodeOk(s, v); }
  }

  /** Hashing a thread's own spare node under a key that is not in the table. */
  lemma InsertTables(s: State, s': State, k: Key, n: nat)
    requires Inv(s) && k !in s.index && n in s.roles && s.roles[n].Private?
    requires s'.tb == Inserted(s.tb, k, n) && s'.index == s.index[k := n]
    requires s'.roles.Keys == s.roles.Keys && IsHashedRole(s'.roles[n])
    requires forall m :: m in s.roles && m != n ==> s'.roles[m] == s.roles[m]
    ensures forall b: nat :: BucketOk(s', b)
    ensures forall j: Key :: KeyOk(s', j)
    ensures Hashed(s', n)
    ensures forall m: nat :: m != n && Hashed(s, m) ==> Hashed(s', m)
  {
    forall b: nat ensures BucketOk(s', b) { assert BucketOk(s, b); }
    forall j: Key ensures KeyOk(s', j) { assert KeyOk(s, j); }
  }

  lemma InsertThread(s: State, t: nat, n: nat, u: nat)
    requires Inv(s) && Enabled(s, Pass(t)) && s.threads[t].spare == Some(n) && u in s.threads
    requires n in s.tb.heap && n in s.roles && s.roles[n] == Private(t)
    requires ApplyPass(s, t) == s.(tb := Inserted(s.tb, s.threads[t].key, n), threads := SetPc(s, t, Creating(n)),
                                   roles := s.roles[n := Pending(t)], index := s.index[s.threads[t].key := n])
    ensures ThreadOk(ApplyPass(s, t), u)
  {
    assert ThreadOk(s, u);
    if u != t { ThreadKept(s, ApplyPass(s, t), u); }
  }

  lemma InsertInv(s: State, t: nat, n: nat)
    requires Inv(s) && Enabled(s, Pass(t)) && Section(s.tb, s.threads[t].key, s.threads[t].spare).1 == Create(n)
    ensures Inv(ApplyPass(s, t))
  {
    var k := s.threads[t].key;
    FindIsIndex(s, k);
    assert KeyOk(s, k) && NodeOk(s, n) && ThreadOk(s, t);
    assert k !in s.index && s.threads[t].spare == Some(n);
    var s' := ApplyPass(s, t);
    InsertTables(s, s', k, n);
    forall m: nat ensures NodeOk(s', m) {
      assert NodeOk(s, m);
      if m != n { NodeKept(s, s', m); }
    }
    forall u | u in s'.threads ensures ThreadOk(s', u) { InsertThread(s, t, n, u); }
    forall v | v in s'.vnodes ensures VnodeOk(s', v) {
      assert VnodeOk(s, v);
      VnodeKept(s, s', v);
    }
  }

  lemma PassInv(s: State, t: nat)
    requires Inv(s) && Enabled(s, Pass(t))
    ensures Inv(ApplyPass(s, t))
  {
    var th := s.threads[t];
    FindIsIndex(s, th.key);
    assert ThreadOk(s, t) && KeyOk(s, th.key);
    var (tb, act) := Section(s.tb, th.key, th.spare);
    match act
    case Allocate => MoveInv(s, t, th.(pc := Allocating));
    case Validate(n, v) =>
      assert NodeOk(s, n);
      MoveInv(s, t, th.(pc := After(s, act)));
    case Sleep(n) => SleepInv(s, t, n);
    case Create(n) => InsertInv(s, t, n);
  }

  lemma AllocInv(s: State, t: nat, n: nat, g: Node)
    requires Inv(s) && Enabled(s, AllocOk(t, n, g))
    ensures Inv(Apply(s, AllocOk(t, n, g)))
  {
    var s' := Apply(s, AllocOk(t, n, g));
    assert NodeOk(s, n) && ThreadOk(s, t);
    forall m: nat ensures NodeOk(s', m) {
      assert NodeOk(s, m);
      if m != n { NodeKept(s, s', m); }
    }
    forall b: nat ensures BucketOk(s', b) { assert BucketOk(s, b); }
    forall j: Key ensures KeyOk(s', j) { assert KeyOk(s, j); }
    forall u | u in s'.threads ensures ThreadOk(s', u) {
      assert ThreadOk(s, u);
      if u != t { ThreadKept(s, s', u); }
    }
    forall v | v in s'.vnodes ensures VnodeOk(s', v) {
      assert VnodeOk(s, v);
      if s.vnodes[v].fsnode.Some? { assert NodeOk(s, s.vnodes[v].fsnode.value); }
      VnodeKept(s, s', v);
    }
  }

  lemma GetOkInv(s: State, t: nat)
    requires Inv(s) && Enabled(s, GetOk(t))
    ensures Inv(Apply(s, GetOk(t)))
  {
    var s' := Apply(s, GetOk(t));
    TablesKept(s, s');
    assert ThreadOk(s, t);
    forall m: nat ensures NodeOk(s', m) {
      assert NodeOk(s, m);
      NodeKept(s, s', m);
    }
    forall u | u in s'.threads ensures ThreadOk(s', u) {
      assert ThreadOk(s, u);
      if u != t { ThreadKept(s, s', u); }
    }
    forall v | v in s'.vnodes ensures VnodeOk(s', v) {
      assert VnodeOk(s, v);
      if v != s.threads[t].pc.vn { VnodeKept(s, s', v); }
    }
  }

  lemma GetFailsInv(s: State, t: nat)
    requires Inv(s) && Enabled(s, GetFails(t))
    ensures Inv(Apply(s, GetFails(t)))
  {
    var s' := Apply(s, GetFails(t));
    var th := s.threads[t];
    assert ThreadOk(s, t);
    if th.spare.Some? { assert NodeOk(s, th.spare.value); }
    forall m: nat ensures NodeOk(s', m) {
      assert NodeOk(s, m);
      if th.spare != Some(m) { NodeKept(s, s', m); }
    }
    forall b: nat ensures BucketOk(s', b) { assert BucketOk(s, b); }
    forall j: Key ensures KeyOk(s', j) { assert KeyOk(s, j); }
    forall u | u in s'.threads ensures ThreadOk(s', u) {
      assert ThreadOk(s, u);
      if u != t { ThreadKept(s, s', u); }
    }
    forall v | v in s'.vnodes ensures VnodeOk(s', v) {
      assert VnodeOk(s, v);
    }
  }

  lemma CreateOkInv(s: State, t: nat, v: nat)
    requires Inv(s) && Enabled(s, CreateOk(t, v))
    ensures Inv(Apply(s, CreateOk(t, v)))
  {
    var s' := Apply(s, CreateOk(t, v));
    TablesKept(s, s');
    assert ThreadOk(s, t);
    if v in s.vnodes { assert VnodeOk(s, v); }
    forall m: nat ensures NodeOk(s', m) {
      assert NodeOk(s, m);
      NodeKept(s, s', m);
    }
    forall u | u in s'.threads ensures ThreadOk(s', u) {
      assert ThreadOk(s, u);
      if u != t { ThreadKept(s, s', u); }
    }
    forall w | w in s'.vnodes ensures VnodeOk(s', w) {
      if w != v {
        assert VnodeOk(s, w);
        VnodeKept(s, s', w);
      }
    }
  }

  lemma AttachInv(s: State, t: nat)
    requires Inv(s) && Enabled(s, Attach(t))
    ensures Inv(ApplyAttach(s, t))
  {
    var Attaching(n, v) := s.threads[t].pc;
    var s' := ApplyAttach(s, t);
    assert ThreadOk(s, t) && NodeOk(s, n) && VnodeOk(s, v);
    forall m: nat ensures NodeOk(s', m) {
      assert NodeOk(s, m);
      if m != n { NodeKept(s, s', m); }
    }
    forall b: nat ensures BucketOk(s', b) { assert BucketOk(s, b); }
    forall j: Key ensures KeyOk(s', j) { assert KeyOk(s, j); }
    forall u | u in s'.threads ensures ThreadOk(s', u) { AttachThread(s, t, u); }
    forall w | w in s'.vnodes ensures VnodeOk(s', w) {
      assert VnodeOk(s, w);
      if w != v { VnodeKept(s, s', w); }
    }
  }

  /** Sleepers on the node are woken; the others do not point at it. */
  lemma AttachThread(s: State, t: nat, u: nat)
    requires Inv(s) && Enabled(s, Attach(t)) && u in s.threads
    ensures ThreadOk(ApplyAttach(s, t), u)
  {
    var n := s.threads[t].pc.node;
    assert ThreadOk(s, t) && ThreadOk(s, u) && NodeOk(s, n);
    if u != t && s.threads[u].pc != Sleeping(n) { ThreadKept(s, ApplyAttach(s, t), u); }
  }

  /** Unhashing and freeing a node leaves the rest of the table in order. */
  lemma FreeTables(s: State, s': State, n: nat)
    requires Inv(s) && n in s.tb.heap && n in s.roles && IsHashedRole(s.roles[n])
    requires s'.tb == Freed(s.tb, n) && s'.roles == s.roles - {n} && s'.index == s.index - {s.tb.heap[n].key}
    ensures forall b: nat :: BucketOk(s', b)
    ensures forall j: Key :: KeyOk(s', j)
    ensures forall m: nat :: m != n ==> SameNode(s, s', m) && (Hashed(s, m) ==> Hashed(s', m))
  {
    assert NodeOk(s, n);
    forall b: nat ensures BucketOk(s', b) {
      assert BucketOk(s, b);
      WithoutNoDuplicates(Bucket(s.tb.buckets, b), n);
    }
    forall j: Key ensures KeyOk(s', j) { assert KeyOk(s, j); }
  }

  lemma UndoInv(s: State, t: nat)
    requires Inv(s) && Enabled(s, Undo(t))
    ensures Inv(ApplyUndo(s, t))
  {
    var n := s.threads[t].pc.node;
    var s' := ApplyUndo(s, t);
    assert ThreadOk(s, t) && NodeOk(s, n);
    FreeTables(s, s', n);
    forall m: nat ensures NodeOk(s', m) {
      assert NodeOk(s, m);
      if m != n { NodeKept(s, s', m); }
    }
    forall u | u in s'.threads ensures ThreadOk(s', u) { UndoThread(s, t, u); }
    forall w | w in s'.vnodes ensures VnodeOk(s', w) {
      assert VnodeOk(s, w);
      VnodeKept(s, s', w);
    }
  }

  lemma UndoThread(s: State, t: nat, u: nat)
    requires Inv(s) && Enabled(s, Undo(t)) && u in s.threads
    ensures ThreadOk(ApplyUndo(s, t), u)
  {
    var n := s.threads[t].pc.node;
    assert ThreadOk(s, t) && ThreadOk(s, u) && NodeOk(s, n);
    if u != t && s.threads[u].pc != Sleeping(n) { ThreadKept(s, ApplyUndo(s, t), u); }
  }

  lemma ExitInv(s: State, t: nat)
    requires Inv(s) && Enabled(s, Exit(t))
    ensures Inv(ApplyExit(s, t))
  {
    var th := s.threads[t];
    var s' := ApplyExit(s, t);
    assert ThreadOk(s, t) && NodeOk(s, th.pc.node);
    if th.spare.Some? { assert NodeOk(s, th.spare.value); }
    forall m: nat ensures NodeOk(s', m) {
      assert NodeOk(s, m);
      if th.spare != Some(m) || m == th.pc.node { NodeKept(s, s', m); }
    }
    forall b: nat ensures BucketOk(s', b) { assert BucketOk(s, b); }
    forall j: Key ensures KeyOk(s', j) { assert KeyOk(s, j); }
    forall u | u in s'.threads ensures ThreadOk(s', u) { ExitThread(s, t, u); }
    forall v | v in s'.vnodes ensures VnodeOk(s', v) {
      assert VnodeOk(s, v);
      VnodeKept(s, s', v);
    }
  }

  lemma ExitThread(s: State, t: nat, u: nat)
    requires Inv(s) && Enabled(s, Exit(t)) && u in s.threads
    ensures ThreadOk(ApplyExit(s, t), u)
  {
    assert ThreadOk(s, t) && ThreadOk(s, u);
    if u != t { ThreadKept(s, ApplyExit(s, t), u); }
  }

  lemma PutInv(s: State, t: nat)
    requires Inv(s) && Enabled(s, Put(t))
    ensures Inv(Apply(s, Put(t)))
  {
    var s' := Apply(s, Put(t));
    TablesKept(s, s');
    assert ThreadOk(s, t);
    forall m: nat ensures NodeOk(s', m) {
      assert NodeOk(s, m);
      NodeKept(s, s', m);
    }
    forall u | u in s'.threads ensures ThreadOk(s', u) {
      assert ThreadOk(s, u);
      ThreadKept(s, s', u);
    }
    forall v | v in s'.vnodes ensures VnodeOk(s', v) {
      assert VnodeOk(s, v);
    }
  }

  /** References that the VFS takes and drops. */
  lemma VfsRefInv(s: State, v: nat, io: set<Holder>)
    requires Inv(s) && v in s.vnodes && (s.vnodes[v].io == {} && !s.vnodes[v].life.Live? ==> io == {})
    requires forall t :: Finder(t) in io <==> Finder(t) in s.vnodes[v].io
    ensures Inv(s.(vnodes := s.vnodes[v := s.vnodes[v].(io := io)]))
  {
    var s' := s.(vnodes := s.vnodes[v := s.vnodes[v].(io := io)]);
    TablesKept(s, s');
    assert VnodeOk(s, v);
    forall m: nat ensures NodeOk(s', m) {
      assert NodeOk(s, m);
      NodeKept(s, s', m);
    }
    forall u | u in s'.threads ensures ThreadOk(s', u) {
      assert ThreadOk(s, u);
      ThreadKept(s, s', u);
    }
    forall w | w in s'.vnodes ensures VnodeOk(s', w) {
      assert VnodeOk(s, w);
      if w != v { VnodeKept(s, s', w); }
    }
  }

  /** A vnode that nobody references is picked for reclaim. */
  lemma TerminateInv(s: State, v: nat)
    requires Inv(s) && Enabled(s, Terminate(v))
    ensures Inv(s.(vnodes := s.vnodes[v := s.vnodes[v].(life := Dying)]))
  {
    var s' := s.(vnodes := s.vnodes[v := s.vnodes[v].(life := Dying)]);
    TablesKept(s, s');
    assert VnodeOk(s, v) && NodeOk(s, s.vnodes[v].fsnode.value);
    forall m: nat ensures NodeOk(s', m) {
      assert NodeOk(s, m);
      NodeKept(s, s', m);
    }
    forall u | u in s'.threads ensures ThreadOk(s', u) {
      assert ThreadOk(s, u);
      ThreadKept(s, s', u);
    }
    forall w | w in s'.vnodes ensures VnodeOk(s', w) {
      assert VnodeOk(s, w);
      if w != v { VnodeKept(s, s', w); }
    }
  }

  lemma ClearInv(s: State, v: nat)
    requires Inv(s) && Enabled(s, Clear(v))
    ensures Inv(Apply(s, Clear(v)))
  {
    var s' := Apply(s, Clear(v));
    TablesKept(s, s');
    assert VnodeOk(s, v);
    forall m: nat ensures NodeOk(s', m) {
      assert NodeOk(s, m);
      NodeKept(s, s', m);
    }
    forall u | u in s'.threads ensures ThreadOk(s', u) {
      assert ThreadOk(s, u);
      ThreadKept(s, s', u);
    }
    forall w | w in s'.vnodes ensures VnodeOk(s', w) {
      assert VnodeOk(s, w);
      if w != v { VnodeKept(s, s', w); }
    }
  }

  lemma ReclaimInv(s: State, v: nat)
    requires Inv(s) && Enabled(s, Reclaim(v))
    ensures Inv(ApplyReclaim(s, v))
  {
    var s' := ApplyReclaim(s, v);
    assert VnodeOk(s, v);
    var n := s.vnodes[v].fsnode.value;
    assert NodeOk(s, n);
    FreeTables(s, s', n);
    forall m: nat ensures NodeOk(s', m) {
      assert NodeOk(s, m);
      if m != n { NodeKept(s, s', m); }
    }
    forall u | u in s'.threads ensures ThreadOk(s', u) {
      assert ThreadOk(s, u);
      ThreadKept(s, s', u);
    }
    forall w | w in s'.vnodes ensures VnodeOk(s', w) {
      assert VnodeOk(s, w);
      if w != v { VnodeKept(s, s', w); }
    }
  }

  lemma StepInv(s: State, step: Step)
    requires Inv(s) && Enabled(s, step)
    ensures Inv(Apply(s, step))
  {
    match step
    case Start(t, k) => MoveInv(s, t, Thread(k, None, Top));
    case Pass(t) => PassInv(s, t);
    case AllocOk(t, n, g) => AllocInv(s, t, n, g);
    case AllocFails(t) => assert ThreadOk(s, t); MoveInv(s, t, s.threads[t].(pc := Failed(ENOMEM)));
    case GetOk(t) => GetOkInv(s, t);
    case GetFails(t) => GetFailsInv(s, t);
    case CreateOk(t, v) => CreateOkInv(s, t, v);
    case CreateFails(t, e) =>
      assert ThreadOk(s, t);
      MoveInv(s, t, s.threads[t].(pc := Undoing(s.threads[t].pc.node, e)));
    case Attach(t) => AttachInv(s, t);
    case Undo(t) => UndoInv(s, t);
    case Exit(t) => ExitInv(s, t);
    case Put(t) => PutInv(s, t);
    case VfsGet(v, r) => VfsRefInv(s, v, s.vnodes[v].io + {Vfs(r)});
    case VfsPut(v, r) => VfsRefInv(s, v, s.vnodes[v].io - {Vfs(r)});
    case Terminate(v) => TerminateInv(s, v);
    case Reclaim(v) => ReclaimInv(s, v);
    case Clear(v) => ClearInv(s, v);
  }

  lemma {:induction false} RunInv(s: State, steps: seq<Step>)
    requires Inv(s) && Runs(s, steps)
    ensures Inv(Exec(s, steps))
    decreases |steps|
  {
    if steps != [] {
      StepInv(s, steps[0]);
      RunInv(Apply(s, steps[0]), steps[1..]);
    }
  }
}
