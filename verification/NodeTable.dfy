/**
 The pfsnode hash table of kext/procfs_node.c: buckets of node addresses, the node storage, and
 the critical sections of procfsnode_find and procfs_vnop_reclaim under the hash mutex. As in
 module ControlTable each section is a function on the table's value and a method that works in
 place.
 */
module NodeTable {
  import opened Common

  /** What identifies a node: the mount id and the three parts of a pfsid_t. */
  datatype Key = Key(mount: bv32, pid: bv32, objectId: bv64, base: bv16)

  datatype Node = Node(key: Key, attaching: bool, waiting: bool, vnode: Option<nat>)

  /** HASH_FOR_MOUNT_AND_ID: the cast to int keeps the low 32 bits. */
  function Hash(k: Key): bv32 {
    (k.mount << 16) ^ k.pid ^ ((k.objectId & 0xFFFFFFFF) as bv32) ^ (k.base as bv32)
  }

  /** PROCFS_NODE_HASH_TO_BUCKET_HEADER: which bucket a hash selects. */
  function Masked(mask: bv32): Key -> nat {
    (k: Key) => (Hash(k) & mask) as nat
  }

  /** Bucket lists by bucket number, a bucket that is absent being empty; `place` is the bucket
      that a key's hash selects. */
  datatype Table = Table(place: Key -> nat, buckets: map<nat, seq<nat>>, heap: map<nat, Node>)

  function Bucket(buckets: map<nat, seq<nat>>, b: nat): seq<nat> {
    if b in buckets then buckets[b] else []
  }

  /** Reading through a node address. Reading one that is not allocated is undefined in C; the
      value used here for that case is never needed, see NodeCacheRuns.NoUseAfterFree. */
  function Deref(heap: map<nat, Node>, n: nat): Node {
    if n in heap then heap[n] else Node(Key(0, 0, 0, 0), false, false, None)
  }

  /** LIST_FOREACH with the four comparisons: the first node of the list that carries `k`. */
  function Search(list: seq<nat>, heap: map<nat, Node>, k: Key): (r: Option<nat>)
    ensures r.Some? ==> r.value in list && Deref(heap, r.value).key == k
    ensures r.None? ==> forall n :: n in list ==> Deref(heap, n).key != k
  {
    if list == [] then None
    else if Deref(heap, list[0]).key == k then Some(list[0])
    else Search(list[1..], heap, k)
  }

  function Find(tb: Table, k: Key): Option<nat> {
    Search(Bucket(tb.buckets, tb.place(k)), tb.heap, k)
  }

  /** What procfsnode_find does next after its critical section. */
  datatype Action =
    | Allocate                    // unlock and allocate a node
    | Create(node: nat)           // unlock and call the creation callback
    | Sleep(node: nat)            // msleep on the node
    | Validate(node: nat, vn: nat)

  function Inserted(tb: Table, k: Key, n: nat): Table {
    var b := tb.place(k);
    tb.(buckets := tb.buckets[b := [n] + Bucket(tb.buckets, b)],
        heap := tb.heap[n := Node(k, true, false, None)])
  }

  function WithNode(tb: Table, n: nat, node: Node): Table {
    tb.(heap := tb.heap[n := node])
  }

  /** One pass of the loop body, from the lookup to the point where the mutex is given up. */
  function Section(tb: Table, k: Key, spare: Option<nat>): (Table, Action) {
    match Find(tb, k)
    case None =>
      (match spare
       case None => (tb, Allocate)
       case Some(n) => (Inserted(tb, k, n), Create(n)))
    case Some(n) =>
      var node := Deref(tb.heap, n);
      if node.attaching then (WithNode(tb, n, node.(waiting := true)), Sleep(n))
      else match node.vnode
        case Some(v) => (tb, Validate(n, v))
        case None => (WithNode(tb, n, node.(attaching := true)), Create(n))
  }

  /** The nodes that such a pass reads or writes. */
  function Walked(tb: Table, k: Key, spare: Option<nat>): set<nat> {
    (set n | n in Bucket(tb.buckets, tb.place(k))) + (if spare.Some? then {spare.value} else {})
  }

  /** After a successful callback: clear the flags, link the vnode. */
  function Linked(tb: Table, n: nat, v: nat): Table {
    WithNode(tb, n, Deref(tb.heap, n).(attaching := false, waiting := false, vnode := Some(v)))
  }

  function Without(list: seq<nat>, n: nat): (r: seq<nat>)
    ensures forall m :: m in r <==> m in list && m != n
  {
    if list == [] then []
    else if list[0] == n then Without(list[1..], n)
    else [list[0]] + Without(list[1..], n)
  }

  /** procfsnode_free_node: unlink from whatever list it is on, then free. */
  function Freed(tb: Table, n: nat): Table {
    tb.(buckets := map b | b in tb.buckets :: Without(tb.buckets[b], n), heap := tb.heap - {n})
  }

  predicate NoDuplicates(list: seq<nat>) {
    forall i, j :: 0 <= i < j < |list| ==> list[i] != list[j]
  }

  lemma {:induction false} WithoutNoDuplicates(list: seq<nat>, n: nat)
    requires NoDuplicates(list)
    ensures NoDuplicates(Without(list, n))
  {
    if list != [] {
      WithoutNoDuplicates(list[1..], n);
      var r := Without(list[1..], n);
      if list[0] != n {
        assert list[0] !in list[1..];
        var w := [list[0]] + r;
        forall i, j | 0 <= i < j < |w| ensures w[i] != w[j] {
          assert w[j] == r[j - 1];
          assert w[j] in list[1..];
        }
      }
    }
  }

  /** The hash table updated in place. */
  class Cache {
    var mask: bv32
    var buckets: map<nat, seq<nat>>
    var heap: map<nat, Node>

    ghost function Value(): Table
      reads this
    {
      Table(Masked(mask), buckets, heap)
    }

    method Lookup(k: Key) returns (r: Option<nat>)
      ensures r == Find(Value(), k)
    {
      var list := Bucket(buckets, Masked(mask)(k));
      var i := 0;
      while i < |list|
        invariant 0 <= i <= |list|
        invariant Search(list, heap, k) == Search(list[i..], heap, k)
      {
        if Deref(heap, list[i]).key == k {
          return Some(list[i]);
        }
        i := i + 1;
      }
      return None;
    }

    /** procfsnode_find, the locked part of one pass of its loop. */
    method LockedPass(k: Key, spare: Option<nat>) returns (act: Action)
      modifies this
      ensures (Value(), act) == Section(old(Value()), k, spare)
    {
      var target := Lookup(k);
      if target.None? {
        if spare.None? {
          return Allocate;
        }
        target := spare;
        heap := heap[target.value := Node(k, false, false, None)];
        var b := Masked(mask)(k);
        buckets := buckets[b := [target.value] + Bucket(buckets, b)];
      }
      var n := target.value;
      if Deref(heap, n).attaching {
        heap := heap[n := Deref(heap, n).(waiting := true)];
        return Sleep(n);
      }
      var vn := Deref(heap, n).vnode;
      if vn.Some? {
        return Validate(n, vn.value);
      }
      heap := heap[n := Deref(heap, n).(attaching := true)];
      assert heap == old(heap)[n := heap[n]];
      return Create(n);
    }

    /** procfsnode_find, after the callback returned a vnode; reports whether to wake sleepers. */
    method FinishAttach(n: nat, v: nat) returns (wake: bool)
      modifies this
      ensures Value() == Linked(old(Value()), n, v)
      ensures wake == old(Deref(heap, n).waiting)
    {
      heap := heap[n := Deref(heap, n).(attaching := false)];
      wake := heap[n].waiting;
      if wake {
        heap := heap[n := heap[n].(waiting := false)];
      }
      heap := heap[n := heap[n].(vnode := Some(v))];
    }

    /** procfsnode_free_node */
    method FreeNode(n: nat)
      modifies this
      ensures Value() == Freed(old(Value()), n)
    {
      buckets := map b | b in buckets :: Without(buckets[b], n);
      heap := heap - {n};
    }
  }
}
