/**
 What readdir makes of a directory's structure children (kext/procfs_vnops.c, procfs_vnop_readdir and
 procfs_sysctl_readdir), and that each name so listed can be looked up.
 */
module Listing {
  import opened Common
  import opened Numbers
  import opened Structure
  import StructureNames
  import opened Lookup
  import opened LookupTheorems
  import opened Readdir
  import Sysctl

  const DT_DIR: int := 4
  const DT_REG: int := 8
  const DT_LNK: int := 10

  /** The vnode type VDIR, which expanded entries carry in place of a directory-entry type. */
  const VDIR: int := 2

  /** The directory-entry type that the vnode of a node calls for. */
  function NodeType(w: World, t: Tree, n: PNode): int
    requires n.snode < |t|
  {
    if IsDirectory(w, t, n) then DT_DIR
    else if t[n.snode].kind.Link? || t[n.snode].kind.ProcByName? then DT_LNK
    else DT_REG
  }

  function ProcessEntry(w: World, s: SNode, pid: int): Entry
    requires WorldOk(w) && pid in w.processes
  {
    Entry(VDIR, FileId(pid, NO_OBJECT, s.base),
          if s.kind.Proc? then Decimal(pid) else ProcessDirName(pid, w.processes[pid].comm))
  }

  function NumberedEntry(s: SNode, pid: int, id: nat): Entry {
    Entry(VDIR, FileId(pid, id, s.base), Decimal(id))
  }

  /** One structure child as readdir meets it in directory `n`. */
  function Shown(w: World, t: Tree, n: PNode, s: SNode): Child
    requires WorldOk(w) && TreeOk(t) && n.snode < |t|
  {
    var pid, objectId := n.id.pid, n.id.objectId;
    if s.name in w.hidden then Skipped
    else if pid != NO_PID && !CanSee(w, pid) then Skipped
    else match s.kind
      case Root => Skipped
      case Dir => Plain(Entry(DT_DIR, FileId(pid, objectId, s.base), s.name))
      case SysctlTree => Plain(Entry(DT_DIR, FileId(pid, objectId, s.base), s.name))
      case File => Plain(Entry(DT_REG, FileId(pid, objectId, s.base), s.name))
      case Link => Plain(Entry(DT_LNK, FileId(pid, objectId, s.base), s.name))
      case This => Plain(Entry(DT_DIR, NodeFileId(n), s.name))
      case Above =>
        var up := ParentId(t, n);
        Plain(Entry(DT_DIR, FileId(up.pid, up.objectId, up.base), s.name))
      case Thread =>
        if pid !in w.processes then Broken(ENOENT)
        else if w.processes[pid].threads.None? then Broken(w.threadErrno)
        else
          var ids := w.processes[pid].threads.value;
          PerProcess(seq(|ids|, i requires 0 <= i < |ids| => NumberedEntry(s, pid, ids[i])))
      case Fd =>
        if pid !in w.processes then Broken(ENOENT)
        else
          var fds := w.processes[pid].fds;
          assert NumbersOk(w.processes[pid]);
          PerProcess(seq(|fds|, i requires 0 <= i < |fds| => NumberedEntry(s, pid, fds[i])))
      case _ =>
        var pids := ListedPids(w);
        Processes(seq(|pids|, i requires 0 <= i < |pids| => ProcessEntry(w, s, pids[i])))
  }

  function Children(w: World, t: Tree, n: PNode): seq<Child>
    requires WorldOk(w) && TreeOk(t) && n.snode < |t|
  {
    assert ChildrenOk(t, n.snode);
    var cs := t[n.snode].children;
    seq(|cs|, k requires 0 <= k < |cs| => Shown(w, t, n, t[cs[k]]))
  }

  /** Only the last child of a directory expands, which is what the resumable walk rests on. */
  lemma ExpandingLast(w: World, t: Tree, n: PNode)
    requires WorldOk(w) && TreeOk(t) && n.snode < |t|
    ensures DynamicLast(Children(w, t, n))
  {
    assert ChildrenOk(t, n.snode);
  }

  // ----- listed names resolve -----

  /** Siblings have different names, and none can be taken for a number. */
  lemma SiblingNames(t: Tree, i: nat, k: nat)
    requires Built(t) && i < |t| && k < |t[i].children|
    ensures var cs := t[i].children;
            && cs[k] < |t| && t[cs[k]].name != "" && !IsDigit(t[cs[k]].name[0])
            && forall j :: 0 <= j < |cs| && j != k ==> cs[j] < |t| && t[cs[j]].name != t[cs[k]].name
  {
    assert ChildrenOk(t, i);
    var ns := Names(t, i);
    assert StructureNames.Usable(ns[k]);
    forall j | 0 <= j < |t[i].children| && j != k
      ensures t[t[i].children[j]].name != t[t[i].children[k]].name
    {
      assert ns[j] != ns[k];
    }
  }

  /** The search passes over the children before the first that does not skip the name. */
  lemma {:induction false} MatchSkips(w: World, t: Tree, n: PNode, name: string, j: nat, k: nat)
    requires TreeOk(t) && n.snode < |t| && j <= k <= |t[n.snode].children|
    requires forall i :: j <= i < k ==>
               var c := t[n.snode].children[i]; c < |t| && TryChild(w, t[c], c, n, name).Skip?
    ensures MatchFrom(w, t, n, name, j) == MatchFrom(w, t, n, name, k)
    decreases k - j
  {
    if j < k {
      MatchSkips(w, t, n, name, j + 1, k);
    }
  }

  /** A name other than those of the children before the last is for child `k` to decide. */
  lemma MatchReaches(w: World, t: Tree, n: PNode, name: string, k: nat)
    requires TreeOk(t) && n.snode < |t| && k < |t[n.snode].children|
    requires forall j :: 0 <= j < k ==> t[n.snode].children[j] < |t| && t[t[n.snode].children[j]].name != name
    ensures MatchFrom(w, t, n, name, 0) == MatchFrom(w, t, n, name, k)
  {
    assert ChildrenOk(t, n.snode);
    MatchSkips(w, t, n, name, 0, k);
  }

  predicate Resolves(w: World, t: Tree, n: PNode, e: Entry)
    requires TreeOk(t) && n.snode < |t|
  {
    var r := LookedUp(w, t, n, e.name);
    r.Found? && NodeFileId(r.node) == e.fileId
  }

  lemma {:induction false} FirstNamed(t: Tree, i: nat, name: string, k: nat) returns (j: nat)
    requires TreeOk(t) && i < |t| && k < |t[i].children| && t[i].children[k] < |t| && t[t[i].children[k]].name == name
    ensures j <= k && t[i].children[j] < |t| && t[t[i].children[j]].name == name
    ensures forall m :: 0 <= m < j ==> t[i].children[m] < |t| && t[t[i].children[m]].name != name
    decreases k
  {
    assert ChildrenOk(t, i);
    if m :| 0 <= m < k && t[t[i].children[m]].name == name {
      j := FirstNamed(t, i, name, m);
    } else {
      j := k;
    }
  }

  /** The name of a child leads to that child exactly when no child before it has the same name: of
      two names cut to the same one, the first is found. */
  lemma NamedChildExact(w: World, t: Tree, n: PNode, k: nat)
    requires TreeOk(t) && n.snode < |t| && IsDirectory(w, t, n) && !t[n.snode].kind.SysctlTree?
    requires k < |t[n.snode].children| && t[n.snode].children[k] < |t|
    requires var s := t[t[n.snode].children[k]]; s.name !in w.hidden && !Dots(s.name) && s.name != ""
    ensures var c := t[n.snode].children[k];
            LookedUp(w, t, n, t[c].name) == Found(PNode(c, NodeId(n.id.pid, n.id.objectId, t[c].base)))
            <==> forall j :: 0 <= j < k ==> t[n.snode].children[j] < |t| && t[t[n.snode].children[j]].name != t[c].name
  {
    var cs := t[n.snode].children;
    assert ChildrenOk(t, n.snode);
    var j := FirstNamed(t, n.snode, t[cs[k]].name, k);
    MatchReaches(w, t, n, t[cs[k]].name, j);
    assert j < k ==> cs[j] < cs[k];
  }

  /** Only the dot entries have the names of dot entries. */
  lemma NotDots(t: Tree, i: nat, k: nat)
    requires Built(t) && i < |t| && Directory(t[i].kind)
    requires k < |t[i].children| && t[i].children[k] < |t|
    requires !t[t[i].children[k]].kind.This? && !t[t[i].children[k]].kind.Above?
    ensures !Dots(t[t[i].children[k]].name)
  {
    assert HasDots(t, i);
    SiblingNames(t, i, k);
    var cs := t[i].children;
    ChildPlaced(t, i, cs[0]);
    ChildPlaced(t, i, cs[1]);
    assert k != 0 && k != 1;
  }

  /** A directory that readdir lists by its structure children. */
  predicate Listable(w: World, t: Tree, n: PNode) {
    && WorldOk(w) && Built(t) && Good(t, n)
    && IsDirectory(w, t, n) && !t[n.snode].kind.SysctlTree?
  }

  lemma PlainFound(w: World, t: Tree, n: PNode, k: nat)
    requires Listable(w, t, n) && k < |t[n.snode].children| && t[n.snode].children[k] < |t|
    requires var s := t[t[n.snode].children[k]];
             s.name !in w.hidden && !s.kind.This? && !s.kind.Above?
    ensures var c := t[n.snode].children[k];
            LookedUp(w, t, n, t[c].name) == Found(PNode(c, NodeId(n.id.pid, n.id.objectId, t[c].base)))
  {
    assert ChildrenOk(t, n.snode);
    NotDots(t, n.snode, k);
    SiblingNames(t, n.snode, k);
    NamedChildExact(w, t, n, k);
  }

  lemma PlainResolves(w: World, t: Tree, n: PNode, k: nat)
    requires Listable(w, t, n)
    requires k < |t[n.snode].children| && Children(w, t, n)[k].Plain?
    ensures Resolves(w, t, n, Children(w, t, n)[k].entry)
  {
    assert ChildrenOk(t, n.snode);
    var c := t[n.snode].children[k];
    ChildPlaced(t, n.snode, c);
    if !t[c].kind.This? && !t[c].kind.Above? {
      PlainFound(w, t, n, k);
    }
  }

  /** A name that starts with a digit is for the child that expands to decide. */
  lemma DigitReaches(w: World, t: Tree, n: PNode, name: string, k: nat)
    requires Listable(w, t, n) && name != "" && IsDigit(name[0])
    requires k < |t[n.snode].children| && t[n.snode].children[k] < |t|
    ensures LookedUp(w, t, n, name) == MatchFrom(w, t, n, name, k)
    ensures t[t[n.snode].children[k]].name != name
  {
    assert !Dots(name);
    assert ChildrenOk(t, n.snode);
    forall j | 0 <= j <= k
      ensures t[t[n.snode].children[j]].name != name
    {
      SiblingNames(t, n.snode, j);
    }
    MatchReaches(w, t, n, name, k);
  }

  lemma NumberReaches(w: World, t: Tree, n: PNode, id: nat, rest: string, k: nat)
    requires Listable(w, t, n) && id < INT_RANGE
    requires k < |t[n.snode].children| && t[n.snode].children[k] < |t|
    ensures LookedUp(w, t, n, Decimal(id) + rest) == MatchFrom(w, t, n, Decimal(id) + rest, k)
    ensures t[t[n.snode].children[k]].name != Decimal(id) + rest
  {
    DecimalDigits(id);
    DigitReaches(w, t, n, Decimal(id) + rest, k);
  }

  lemma ProcessFound(w: World, t: Tree, n: PNode, k: nat, pid: int, rest: string)
    requires Listable(w, t, n) && pid in w.processes && CanSee(w, pid)
    requires k < |t[n.snode].children| && t[n.snode].children[k] < |t|
    requires var s := t[t[n.snode].children[k]];
             && s.name !in w.hidden
             && ((s.kind.Proc? && rest == "") || (s.kind.ProcByName? && rest == " " + w.processes[pid].comm))
    ensures var c := t[n.snode].children[k];
            LookedUp(w, t, n, Decimal(pid) + rest) == Found(PNode(c, NodeId(pid, NO_OBJECT, t[c].base)))
  {
    var c := t[n.snode].children[k];
    NumberReaches(w, t, n, pid, rest, k);
    AtoiOfDecimal(pid, rest);
    ChildPlaced(t, n.snode, c);
    DirectoryFits(w, t, n);
    assert TryChild(w, t[c], c, n, Decimal(pid) + rest) == Hit(PNode(c, NodeId(pid, n.id.objectId, t[c].base)));
  }

  lemma ProcessResolves(w: World, t: Tree, n: PNode, k: nat, pid: int)
    requires Listable(w, t, n) && pid in w.processes && CanSee(w, pid)
    requires k < |t[n.snode].children| && t[n.snode].children[k] < |t|
    requires var s := t[t[n.snode].children[k]]; s.name !in w.hidden && (s.kind.Proc? || s.kind.ProcByName?)
    ensures Resolves(w, t, n, ProcessEntry(w, t[t[n.snode].children[k]], pid))
  {
    var s := t[t[n.snode].children[k]];
    assert Decimal(pid) + "" == Decimal(pid);
    ProcessFound(w, t, n, k, pid, if s.kind.Proc? then "" else " " + w.processes[pid].comm);
  }

  /** The structure child makes of its own number the node for that number. */
  lemma TryOwnNumber(w: World, s: SNode, c: nat, n: PNode, id: nat)
    requires n.id.pid in w.processes && id < INT_RANGE && s.name !in w.hidden && s.name != Decimal(id)
    requires OwnNumber(w, s, w.processes[n.id.pid], n.id.pid, id)
    ensures TryChild(w, s, c, n, Decimal(id)) == Hit(PNode(c, NodeId(n.id.pid, id, s.base)))
  {
    AtoiOfDecimal(id, "");
    assert Decimal(id) + "" == Decimal(id);
    assert Truncated(id) == id;
  }

  /** The number is that of a thread the caller may see, or of an open descriptor. */
  predicate OwnNumber(w: World, s: SNode, p: Process, pid: int, id: nat) {
    || (s.kind.Thread? && CanSee(w, pid) && p.threads.Some? && id in p.threads.value)
    || (s.kind.Fd? && id in p.fds)
  }

  lemma NumberedFound(w: World, t: Tree, n: PNode, k: nat, id: nat)
    requires Listable(w, t, n) && n.id.pid in w.processes && id < INT_RANGE
    requires k < |t[n.snode].children| && t[n.snode].children[k] < |t|
    requires var s := t[t[n.snode].children[k]];
             s.name !in w.hidden && OwnNumber(w, s, w.processes[n.id.pid], n.id.pid, id)
    ensures var c := t[n.snode].children[k];
            LookedUp(w, t, n, Decimal(id)) == Found(PNode(c, NodeId(n.id.pid, id, t[c].base)))
  {
    var c := t[n.snode].children[k];
    NumberReaches(w, t, n, id, "", k);
    assert Decimal(id) + "" == Decimal(id);
    TryOwnNumber(w, t[c], c, n, id);
  }

  lemma {:induction false} ListedFrom(cs: seq<Child>, e: Entry) returns (k: nat)
    requires e in Listed(cs)
    ensures k < |cs|
    ensures cs[k] == Plain(e) || ((cs[k].Processes? || cs[k].PerProcess?) && e in cs[k].list)
  {
    if cs[0] == Plain(e) || Dynamic(cs[0]) {
      k := 0;
    } else {
      var j := ListedFrom(cs[1..], e);
      k := j + 1;
    }
  }

  /** Every name that readdir lists resolves, to a node whose file number is the one listed. */
  lemma ListedResolves(w: World, t: Tree, n: PNode, e: Entry)
    requires Listable(w, t, n) && e in Listed(Children(w, t, n))
    ensures Resolves(w, t, n, e)
  {
    var k := ListedFrom(Children(w, t, n), e);
    assert ChildrenOk(t, n.snode);
    var c := t[n.snode].children[k];
    ChildPlaced(t, n.snode, c);
    var child := Children(w, t, n)[k];
    if child.Plain? {
      PlainResolves(w, t, n, k);
    } else {
      var i :| 0 <= i < |child.list| && child.list[i] == e;
      if child.Processes? {
        ProcessResolves(w, t, n, k, ListedPids(w)[i]);
      } else {
        PerProcessResolves(w, t, n, k, i);
      }
    }
  }

  lemma PerProcessResolves(w: World, t: Tree, n: PNode, k: nat, i: nat)
    requires Listable(w, t, n) && k < |t[n.snode].children| && Children(w, t, n)[k].PerProcess?
    requires i < |Children(w, t, n)[k].list|
    ensures Resolves(w, t, n, Children(w, t, n)[k].list[i])
  {
    assert ChildrenOk(t, n.snode);
    var p := w.processes[n.id.pid];
    assert NumbersOk(p);
    NumberedFound(w, t, n, k, if t[t[n.snode].children[k]].kind.Thread? then p.threads.value[i] else p.fds[i]);
  }

  // ----- listed types -----

  /** Child `k` of the directory lists the entry. */
  predicate ListedBy(w: World, t: Tree, n: PNode, k: nat, e: Entry)
    requires Listable(w, t, n)
  {
    && k < |t[n.snode].children|
    && var child := Children(w, t, n)[k];
       child == Plain(e) || ((child.Processes? || child.PerProcess?) && e in child.list)
  }

  /** A child that does not expand is listed with the type of the node that its name resolves to. */
  lemma PlainType(w: World, t: Tree, n: PNode, k: nat)
    requires Listable(w, t, n) && k < |t[n.snode].children| && Children(w, t, n)[k].Plain?
    ensures var e := Children(w, t, n)[k].entry;
            && LookedUp(w, t, n, e.name).Found? && LookedUp(w, t, n, e.name).node.snode < |t|
            && e.kind == NodeType(w, t, LookedUp(w, t, n, e.name).node)
  {
    assert ChildrenOk(t, n.snode);
    var c := t[n.snode].children[k];
    ChildPlaced(t, n.snode, c);
    assert NodeOk(t, n.snode);
    if t[c].kind.Above? {
      if t[n.snode].parent.Some? {
        ChildPlaced(t, t[n.snode].parent.value, n.snode);
      }
    } else if !t[c].kind.This? {
      PlainFound(w, t, n, k);
      if t[c].kind.SysctlTree? {
        DirectoryFits(w, t, n);
      }
    }
  }

  /** A child that expands is listed with a type that is none of theirs: its entries are links in
      `byname` and directories elsewhere. */
  lemma ExpandedType(w: World, t: Tree, n: PNode, k: nat, e: Entry)
    requires Listable(w, t, n) && ListedBy(w, t, n, k, e) && !Children(w, t, n)[k].Plain?
    ensures e.kind == VDIR
    ensures LookedUp(w, t, n, e.name).Found? && LookedUp(w, t, n, e.name).node.snode == t[n.snode].children[k] < |t|
    ensures NodeType(w, t, LookedUp(w, t, n, e.name).node) ==
              if t[t[n.snode].children[k]].kind.ProcByName? then DT_LNK else DT_DIR
  {
    assert ChildrenOk(t, n.snode);
    var s, child := t[t[n.snode].children[k]], Children(w, t, n)[k];
    var i :| 0 <= i < |child.list| && child.list[i] == e;
    if child.Processes? {
      var pid := ListedPids(w)[i];
      assert Decimal(pid) + "" == Decimal(pid);
      ProcessFound(w, t, n, k, pid, if s.kind.Proc? then "" else " " + w.processes[pid].comm);
    } else {
      var p := w.processes[n.id.pid];
      assert NumbersOk(p);
      NumberedFound(w, t, n, k, if s.kind.Thread? then p.threads.value[i] else p.fds[i]);
    }
  }

  /** Every listed entry has a child that lists it, and its type is that of the node that its name resolves
      to exactly when that child does not expand. */
  lemma ListedTypeExact(w: World, t: Tree, n: PNode, e: Entry) returns (k: nat)
    requires Listable(w, t, n) && e in Listed(Children(w, t, n))
    ensures ListedBy(w, t, n, k, e) && t[n.snode].children[k] < |t|
    ensures LookedUp(w, t, n, e.name).Found? && LookedUp(w, t, n, e.name).node.snode < |t|
    ensures e.kind == NodeType(w, t, LookedUp(w, t, n, e.name).node) <==> !Expands(t[t[n.snode].children[k]].kind)
  {
    k := ListedFrom(Children(w, t, n), e);
    assert ChildrenOk(t, n.snode);
    ChildPlaced(t, n.snode, t[n.snode].children[k]);
    if Children(w, t, n)[k].Plain? {
      PlainType(w, t, n, k);
    } else {
      ExpandedType(w, t, n, k, e);
    }
  }

  /** Only process 1 runs, and nothing is hidden. */
  function OnlyLaunchd(oids: Sysctl.Oids): World {
    World({}, false, map[1 := Process("launchd", [], None, true)], 0, oids)
  }

  lemma LaunchdListed(w: World) returns (i: nat)
    requires w.processes.Keys == {1} && CanSee(w, 1)
    ensures i < |ListedPids(w)| && ListedPids(w)[i] == 1
  {
    var all := AllPids();
    assert all[..2] == [0, 1] && all[..2][..1] == [0] && [0][..0] == [];
    assert Seen(w, [0]) == [];
    assert Seen(w, all[..2]) == [1];
    SeenPrefix(w, all, 2);
    i := 0;
  }

  /** In the root, process 1 is listed with type 2 and found as a directory, whose type is 4. */
  lemma LaunchdListedWrong(t: Tree, c: nat, oids: Sysctl.Oids) returns (k: nat, e: Entry)
    requires Built(t) && NamedBelow(t, c, 0, "__Process__", Proc) && Sysctl.TreeOk(oids)
    ensures var w := OnlyLaunchd(oids);
            && Listable(w, t, RootNode) && ListedBy(w, t, RootNode, k, e) && e.name == Decimal(1) && e.kind == 2
            && LookedUp(w, t, RootNode, e.name) == Found(PNode(c, NodeId(1, NO_OBJECT, t[c].base)))
            && NodeType(w, t, LookedUp(w, t, RootNode, e.name).node) == 4
  {
    var w := OnlyLaunchd(oids);
    RootGood(t);
    assert NodeOk(t, 0) && NodeOk(t, c) && ChildrenOk(t, 0);
    k :| k < |t[0].children| && t[0].children[k] == c;
    e := ProcessEntry(w, t[c], 1);
    var i := LaunchdListed(w);
    assert Children(w, t, RootNode)[k].list[i] == e;
    assert Decimal(1) + "" == Decimal(1);
    ProcessFound(w, t, RootNode, k, 1, "");
  }

  /** In an fd directory every name that starts with a digit is read as the int its leading digits make,
      whatever follows them, and is found exactly when that is an open descriptor. */
  lemma DescriptorIgnoresTail(w: World, t: Tree, n: PNode, k: nat, name: string)
    requires Listable(w, t, n) && n.id.pid in w.processes && name != "" && IsDigit(name[0])
    requires k < |t[n.snode].children| && t[n.snode].children[k] < |t|
    requires var s := t[t[n.snode].children[k]]; s.name !in w.hidden && s.kind.Fd?
    ensures var c, id := t[n.snode].children[k], AtoiValue(name);
            LookedUp(w, t, n, name) ==
              if id in w.processes[n.id.pid].fds then Found(PNode(c, NodeId(n.id.pid, id, t[c].base)))
              else Failed(ENOENT)
  {
    var p := w.processes[n.id.pid];
    assert NumbersOk(p);
    DigitReaches(w, t, n, name, k);
    assert AtoiValue(name) in p.fds ==> 0 <= AtoiValue(name) < INT_RANGE;
  }

  // ----- /proc/sys -----

  function OidEntry(base: nat, e: Sysctl.Entry): Entry {
    Entry(if e.isNode then DT_DIR else DT_REG, FileId(NO_PID, e.id, base), e.name)
  }

  /** What procfs_sysctl_readdir lists: both dot entries with the directory's own number, then the oids. */
  function SysctlEntries(w: World, t: Tree, n: PNode): seq<Entry>
    requires n.snode < |t|
  {
    var es := Sysctl.Listing(w.oids, n.id.objectId);
    [Entry(DT_DIR, NodeFileId(n), "."), Entry(DT_DIR, NodeFileId(n), "..")]
    + seq(|es|, i requires 0 <= i < |es| => OidEntry(t[n.snode].base, es[i]))
  }

  /** A directory of the sysctl tree, with node ids that fit a uint16_t. */
  predicate SysctlDirectory(w: World, t: Tree, n: PNode) {
    && WorldOk(w) && TreeOk(t) && |t| < ID_RANGE
    && Good(t, n) && t[n.snode].kind.SysctlTree? && IsDirectory(w, t, n)
  }

  /** Every entry of a sysctl directory but ".." resolves to the number listed. */
  lemma SysctlListedResolves(w: World, t: Tree, n: PNode, k: nat)
    requires SysctlDirectory(w, t, n) && k < |SysctlEntries(w, t, n)| && k != 1
    ensures Resolves(w, t, n, SysctlEntries(w, t, n)[k])
  {
    if k >= 2 {
      OidFound(w, t, n, k - 2);
    }
  }

  /** ".." does not for /proc/sys itself, and for a directory below it does exactly when its object id
      and its parent's agree in their low 40 bits. */
  lemma SysctlDotDot(w: World, t: Tree, n: PNode)
    requires SysctlDirectory(w, t, n)
    ensures var listed, up := SysctlEntries(w, t, n)[1], Upward(w, t, n);
            && listed.name == ".."
            && (n.id.objectId == NO_OBJECT ==> !Resolves(w, t, n, listed))
            && (n.id.objectId != NO_OBJECT ==>
                  (Resolves(w, t, n, listed) <==> n.id.objectId % OBJECT_RANGE == up.id.objectId % OBJECT_RANGE))
  {
    var up := Upward(w, t, n);
    assert LookedUp(w, t, n, "..") == Found(up);
    SysctlIds(w, t, n);
    FileIdWithoutPid(n.id.objectId, n.id.base);
    FileIdWithoutPid(up.id.objectId, up.id.base);
  }

  lemma SysctlIds(w: World, t: Tree, n: PNode)
    requires SysctlDirectory(w, t, n)
    ensures var up := Upward(w, t, n);
            && n.id.pid == NO_PID && up.id.pid == NO_PID && n.id.base < ID_RANGE && up.id.base < ID_RANGE
            && (n.id.objectId == NO_OBJECT ==> up.id.objectId == NO_OBJECT && up.id.base < n.id.base)
            && (n.id.objectId != NO_OBJECT ==> up.id.base == n.id.base)
  {
    assert NodeOk(t, n.snode);
    var p := t[n.snode].parent.value;
    assert NodeOk(t, p);
    ChildPlaced(t, p, n.snode);
  }

  /** The types listed in a sysctl directory are all right, that of ".." too. */
  lemma SysctlListedType(w: World, t: Tree, n: PNode, k: nat)
    requires SysctlDirectory(w, t, n) && k < |SysctlEntries(w, t, n)|
    ensures var e := SysctlEntries(w, t, n)[k];
            && LookedUp(w, t, n, e.name).Found? && LookedUp(w, t, n, e.name).node.snode < |t|
            && e.kind == NodeType(w, t, LookedUp(w, t, n, e.name).node)
  {
    if k >= 2 {
      OidFound(w, t, n, k - 2);
      Sysctl.ListedKind(w.oids, n.id.objectId, Sysctl.Listing(w.oids, n.id.objectId)[k - 2]);
    } else if k == 1 {
      assert NodeOk(t, n.snode);
      if n.id.objectId == NO_OBJECT {
        ChildPlaced(t, t[n.snode].parent.value, n.snode);
      } else if Sysctl.Parent(w.oids, n.id.objectId).Some? {
        Sysctl.ParentIsNode(w.oids, n.id.objectId);
      }
    }
  }

  /** In /proc/sys/kern it resolves only if the kernel put that oid at a multiple of 2^40. */
  lemma KernDotDot(w: World, t: Tree, n: PNode)
    requires SysctlDirectory(w, t, n) && n.id.objectId == Sysctl.KernId(w.oids)
    ensures Resolves(w, t, n, SysctlEntries(w, t, n)[1]) <==> n.id.objectId % OBJECT_RANGE == 0
  {
    Sysctl.KernOrRoot(w.oids);
    Sysctl.ParentInvertsFind(w.oids, 0, "kern");
    SysctlDotDot(w, t, n);
  }

  lemma OidFound(w: World, t: Tree, n: PNode, k: nat)
    requires WorldOk(w) && TreeOk(t) && Good(t, n) && t[n.snode].kind.SysctlTree? && IsDirectory(w, t, n)
    requires k < |Sysctl.Listing(w.oids, n.id.objectId)|
    ensures var e := Sysctl.Listing(w.oids, n.id.objectId)[k];
            LookedUp(w, t, n, e.name) == Found(PNode(n.snode, NodeId(NO_PID, e.id, t[n.snode].base)))
  {
    var e := Sysctl.Listing(w.oids, n.id.objectId)[k];
    Sysctl.ListedNameOk(w.oids, n.id.objectId, k);
    Sysctl.FindIffListed(w.oids, n.id.objectId, e.name, e.id);
  }
}
