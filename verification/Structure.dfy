/**
 The fixed part of the file system (kext/procfs_structure.c): a tree of structure nodes built once,
 by appending each node to its parent's child list, taking the next node id and passing the parent's
 process and thread flags down.

 The kinds of node that lookup and readdir treat alike, those read through a handler, are one kind
 here, `File`. A node is named by its place in `nodes`; running out of memory is not modelled.
 */
module Structure {
  import opened Common
  import opened StructureNames

  datatype Kind = Root | Dir | This | Above | Proc | ProcByName | Thread | Fd | Link | SysctlTree | File

  datatype SNode = SNode(name: string, kind: Kind, base: nat, process: bool, thread: bool,
                         parent: Option<nat>, children: seq<nat>)

  type Tree = seq<SNode>

  const ROOT_BASE_ID: nat := 1
  const ID_RANGE: nat := 0x1_0000

  /** Kinds that stand for a list of entries found only when the directory is read. */
  predicate Expands(k: Kind) {
    k.Proc? || k.ProcByName? || k.Thread? || k.Fd?
  }

  /** Kinds that get dot entries, and children. */
  predicate Directory(k: Kind) {
    k.Root? || k.Dir? || k.Proc? || k.ProcByName? || k.Thread? || k.Fd?
  }

  // ----- what the tree guarantees -----

  /** Where a kind of node may hang, and with which flags. */
  predicate Placed(p: SNode, c: SNode) {
    && Directory(p.kind)
    && (p.kind.Fd? ==> c.kind.File? || c.kind.Link? || c.kind.This? || c.kind.Above?)
    && (p.kind.ProcByName? ==> c.kind.This? || c.kind.Above?)
    && match c.kind
       case Root => false
       case Proc => !p.process && !p.thread && c.process && !c.thread
       case ProcByName => !p.process && !p.thread && c.process && !c.thread
       case Thread => p.process && !p.thread && c.thread
       case Fd => p.process && !p.thread && !c.thread
       case SysctlTree => !p.process && !p.thread && !c.process && !c.thread
       case This => c.name == "."
       case Above => c.name == ".."
       case _ => true
  }

  predicate NodeOk(t: Tree, i: nat)
    requires i < |t|
  {
    && t[i].base == i + ROOT_BASE_ID
    && (i == 0 ==> t[i].parent.None? && t[i].kind.Root? && !t[i].process && !t[i].thread)
    && (i > 0 ==>
          && t[i].parent.Some? && t[i].parent.value < i
          && var p := t[t[i].parent.value];
             i in p.children && Placed(p, t[i])
             && (p.process ==> t[i].process) && (p.thread ==> t[i].thread))
  }

  /** The children of a node come after it, in the order they were added, and only the last expands. */
  predicate ChildrenOk(t: Tree, i: nat)
    requires i < |t|
  {
    var cs := t[i].children;
    && (forall k :: 0 <= k < |cs| ==> i < cs[k] < |t| && t[cs[k]].parent == Some(i))
    && (forall j, k :: 0 <= j < k < |cs| ==> cs[j] < cs[k])
    && (forall k :: 0 <= k < |cs| - 1 ==> cs[k] < |t| && !Expands(t[cs[k]].kind))
  }

  predicate TreeOk(t: Tree) {
    |t| > 0 && forall i :: 0 <= i < |t| ==> NodeOk(t, i) && ChildrenOk(t, i)
  }

  /** A further child can be added without hiding behind one that expands. */
  predicate Open(t: Tree, i: nat) {
    && i < |t|
    && (t[i].children != [] ==>
          var last := t[i].children[|t[i].children| - 1]; last < |t| && !Expands(t[last].kind))
  }

  /** The node's first two children are its dot entries. */
  predicate HasDots(t: Tree, i: nat)
    requires i < |t|
  {
    var cs := t[i].children;
    |cs| >= 2 && cs[0] < |t| && cs[1] < |t| && t[cs[0]].kind.This? && t[cs[1]].kind.Above?
  }

  predicate Dotted(t: Tree) {
    forall i :: 0 <= i < |t| && Directory(t[i].kind) ==> HasDots(t, i)
  }

  /** The names of a node's children, in order. */
  function Names(t: Tree, i: nat): (ns: seq<string>)
    requires i < |t|
    ensures |ns| == |t[i].children|
  {
    var cs := t[i].children;
    seq(|cs|, k requires 0 <= k < |cs| => if cs[k] < |t| then t[cs[k]].name else "")
  }

  /** What the finished tree satisfies: it is in order, every directory starts with its dot entries, and
      none has a name twice or one that could be taken for a number. */
  predicate Built(t: Tree) {
    TreeOk(t) && |t| < ID_RANGE && Dotted(t) && forall i :: 0 <= i < |t| ==> Good(Names(t, i))
  }

  /** What is known of a node that can get further children. */
  predicate Is(t: Tree, i: nat, kind: Kind, process: bool, thread: bool, names: seq<string>) {
    Open(t, i) && t[i].kind == kind && t[i].process == process && t[i].thread == thread && Names(t, i) == names
  }

  // ----- adding a node -----

  function NewNode(t: Tree, parent: Option<nat>, name: string, kind: Kind, base: nat, process: bool, thread: bool)
    : SNode
    requires parent.Some? ==> parent.value < |t|
  {
    SNode(Clip(name, NAME_CHARS), kind, base,
          process || (parent.Some? && t[parent.value].process),
          thread || (parent.Some? && t[parent.value].thread), parent, [])
  }

  /** add_node */
  function Added(t: Tree, parent: Option<nat>, name: string, kind: Kind, base: nat, process: bool, thread: bool): Tree
    requires parent.Some? ==> parent.value < |t|
  {
    var linked := match parent
      case None => t
      case Some(p) => t[p := t[p].(children := t[p].children + [|t|])];
    linked + [NewNode(t, parent, name, kind, base, process, thread)]
  }

  lemma AddedKeepsNodes(t: Tree, p: nat, name: string, kind: Kind, base: nat, process: bool, thread: bool)
    requires p < |t|
    ensures var u := Added(t, Some(p), name, kind, base, process, thread);
            && |u| == |t| + 1
            && u[|t|] == NewNode(t, Some(p), name, kind, base, process, thread)
            && u[p].children == t[p].children + [|t|]
            && (forall i :: 0 <= i < |t| ==> u[i].(children := t[i].children) == t[i])
            && (forall i :: 0 <= i < |t| && i != p ==> u[i] == t[i])
  {
  }

  lemma AddedNodeOk(t: Tree, p: nat, name: string, kind: Kind, process: bool, thread: bool, i: nat)
    requires TreeOk(t) && p < |t| && i <= |t|
    requires Placed(t[p], NewNode(t, Some(p), name, kind, |t| + ROOT_BASE_ID, process, thread))
    ensures NodeOk(Added(t, Some(p), name, kind, |t| + ROOT_BASE_ID, process, thread), i)
  {
    AddedKeepsNodes(t, p, name, kind, |t| + ROOT_BASE_ID, process, thread);
    if i < |t| {
      assert NodeOk(t, i);
    }
  }

  lemma AddedChildrenOk(t: Tree, p: nat, name: string, kind: Kind, process: bool, thread: bool, i: nat)
    requires TreeOk(t) && Open(t, p) && i <= |t|
    ensures ChildrenOk(Added(t, Some(p), name, kind, |t| + ROOT_BASE_ID, process, thread), i)
  {
    AddedKeepsNodes(t, p, name, kind, |t| + ROOT_BASE_ID, process, thread);
    if i < |t| {
      assert ChildrenOk(t, i);
    }
  }

  /** Adding a properly placed node to an open one keeps the tree in order. */
  lemma AddedOk(t: Tree, p: nat, name: string, kind: Kind, process: bool, thread: bool)
    requires TreeOk(t) && Open(t, p)
    requires Placed(t[p], NewNode(t, Some(p), name, kind, |t| + ROOT_BASE_ID, process, thread))
    ensures TreeOk(Added(t, Some(p), name, kind, |t| + ROOT_BASE_ID, process, thread))
  {
    var u := Added(t, Some(p), name, kind, |t| + ROOT_BASE_ID, process, thread);
    forall i | 0 <= i < |u|
      ensures NodeOk(u, i) && ChildrenOk(u, i)
    {
      AddedNodeOk(t, p, name, kind, process, thread, i);
      AddedChildrenOk(t, p, name, kind, process, thread, i);
    }
  }

  lemma AddedKeepsOpen(t: Tree, p: nat, name: string, kind: Kind, base: nat, process: bool, thread: bool)
    requires p < |t|
    ensures var u := Added(t, Some(p), name, kind, base, process, thread);
            && Open(u, |t|)
            && (Open(u, p) <==> !Expands(kind))
            && (forall i :: Open(t, i) && i != p ==> Open(u, i))
  {
    AddedKeepsNodes(t, p, name, kind, base, process, thread);
  }

  lemma AddedNames(t: Tree, p: nat, name: string, kind: Kind, base: nat, process: bool, thread: bool)
    requires TreeOk(t) && p < |t|
    ensures var u := Added(t, Some(p), name, kind, base, process, thread);
            && |u| == |t| + 1
            && Names(u, |t|) == []
            && Names(u, p) == Names(t, p) + [Clip(name, NAME_CHARS)]
            && forall i :: 0 <= i < |t| && i != p ==> Names(u, i) == Names(t, i)
  {
    var u := Added(t, Some(p), name, kind, base, process, thread);
    AddedKeepsNodes(t, p, name, kind, base, process, thread);
    assert ChildrenOk(t, p);
    forall i | 0 <= i < |t| && i != p
      ensures Names(u, i) == Names(t, i)
    {
      assert ChildrenOk(t, i);
    }
  }

  // ----- what additions leave alone -----

  /** Node `i` stays as it is, but for what is further down. */
  predicate Same(t: Tree, u: Tree, i: nat) {
    && i < |t| && i < |u|
    && u[i].kind == t[i].kind && u[i].process == t[i].process && u[i].thread == t[i].thread
    && Names(u, i) == Names(t, i) && (Open(t, i) ==> Open(u, i)) && (HasDots(t, i) ==> HasDots(u, i))
  }

  /** Node `i` is this child of `p`. */
  predicate NamedBelow(t: Tree, i: nat, p: nat, name: string, kind: Kind) {
    i < |t| && t[i].parent == Some(p) && t[i].name == name && t[i].kind == kind
  }

  predicate Unmoved(t: Tree, u: Tree, i: nat) {
    i < |t| && i < |u| && u[i].parent == t[i].parent && u[i].name == t[i].name && u[i].kind == t[i].kind
  }

  /** No node that was there moved or changed its name or kind. */
  ghost predicate Kept(t: Tree, u: Tree) {
    |t| <= |u| && forall i {:trigger Unmoved(t, u, i)} :: 0 <= i < |t| ==> Unmoved(t, u, i)
  }

  lemma KeptTwice(t: Tree, u: Tree, v: Tree)
    requires Kept(t, u) && Kept(u, v)
    ensures Kept(t, v)
  {
    forall i | 0 <= i < |t|
      ensures Unmoved(t, v, i)
    {
      assert Unmoved(t, u, i) && Unmoved(u, v, i);
    }
  }

  lemma StaysChild(t: Tree, u: Tree, i: nat, p: nat, name: string, kind: Kind)
    requires Kept(t, u) && NamedBelow(t, i, p, name, kind)
    ensures NamedBelow(u, i, p, name, kind)
  {
    assert Unmoved(t, u, i);
  }

  /** Names that stand for the same kind of node. */
  datatype Group = Group(names: seq<string>, kind: Kind)

  ghost predicate HasNamed(t: Tree, p: nat, name: string, kind: Kind) {
    exists i: nat :: NamedBelow(t, i, p, name, kind)
  }

  /** The directory `p` has each of these names, for a node of that kind. */
  ghost predicate HasGroup(t: Tree, p: nat, g: Group) {
    forall k :: 0 <= k < |g.names| ==> HasNamed(t, p, g.names[k], g.kind)
  }

  ghost predicate HasGroups(t: Tree, p: nat, gs: seq<Group>) {
    forall j :: 0 <= j < |gs| ==> HasGroup(t, p, gs[j])
  }

  lemma GroupStays(t: Tree, u: Tree, p: nat, g: Group)
    requires Kept(t, u) && HasGroup(t, p, g)
    ensures HasGroup(u, p, g)
  {
    forall k | 0 <= k < |g.names|
      ensures HasNamed(u, p, g.names[k], g.kind)
    {
      assert HasNamed(t, p, g.names[k], g.kind);
      var i: nat :| NamedBelow(t, i, p, g.names[k], g.kind);
      StaysChild(t, u, i, p, g.names[k], g.kind);
    }
  }

  /** The groups there were, and those that were added. */
  lemma MoreGroups(t: Tree, u: Tree, p: nat, gs: seq<Group>, hs: seq<Group>)
    requires Kept(t, u) && HasGroups(t, p, gs) && HasGroups(u, p, hs)
    ensures HasGroups(u, p, gs + hs)
  {
    forall j | 0 <= j < |gs|
      ensures HasGroup(u, p, gs[j])
    {
      GroupStays(t, u, p, gs[j]);
    }
  }

  lemma GroupsStay(t: Tree, u: Tree, p: nat, gs: seq<Group>)
    requires Kept(t, u) && HasGroups(t, p, gs)
    ensures HasGroups(u, p, gs)
  {
    MoreGroups(t, u, p, gs, []);
    assert gs + [] == gs;
  }

  lemma OneGroup(t: Tree, i: nat, p: nat, name: string, kind: Kind)
    requires NamedBelow(t, i, p, name, kind)
    ensures HasGroups(t, p, [Group([name], kind)])
  {
    assert HasNamed(t, p, name, kind);
    assert HasGroup(t, p, Group([name], kind));
  }

  /** The kinds of node in the root, in the order they are added. */
  const SYSTEM_KINDS_1: seq<Group> :=
    [Group(["cpuinfo"], File), Group(["curproc"], Link), Group(FILES_1, File)] + [Group(["sys"], SysctlTree)]

  const FOLDER_KINDS_1: seq<Group> :=
    [Group(["irq"], Dir)] + [Group(["tty"], Dir)] + [Group(["ide"], Dir)] + [Group(["video"], Dir)]

  const FOLDER_KINDS_2: seq<Group> :=
    [Group(["isapnp"], File)] + [Group(["scsi"], Dir)] + [Group(["sysvipc"], Dir)] + [Group(["fs"], Dir)]

  const FOLDER_KINDS_3: seq<Group> :=
    [Group(["driver"], Dir)] + [Group(["bus"], Dir)] + [Group(["cmdline"], File)] + [Group(["self"], Link)]
    + [Group(["net"], Dir)]

  const FOLDER_KINDS: seq<Group> := FOLDER_KINDS_1 + FOLDER_KINDS_2 + FOLDER_KINDS_3

  const SYSTEM_KINDS: seq<Group> := SYSTEM_KINDS_1 + [Group(SYSTEM_2, File)] + FOLDER_KINDS

  const ROOT_KINDS: seq<Group> := [Group(["byname"], Dir)] + SYSTEM_KINDS + [Group(["__Process__"], Proc)]

  /** And in the directory of a process. */
  const NUMBERED_KINDS: seq<Group> := [Group(["fd"], Dir)] + [Group(["threads"], Dir)] + [Group(["task"], Dir)]

  const PROCESS_KINDS: seq<Group> :=
    NUMBERED_KINDS + [Group(PROCESS_1, File), Group(LINKS, Link), Group(PROCESS_2, File)]

  /** Node `i` is a directory below `p` with these names in it. */
  predicate DirAt(t: Tree, i: nat, p: nat, name: string, names: seq<string>) {
    NamedBelow(t, i, p, name, Dir) && Names(t, i) == names
  }

  /** A directory of files below the root, or one that holds such a directory. */
  datatype Folder = Flat(name: string, files: seq<string>) | Nested(name: string, inner: string, files: seq<string>)

  /** The folder is there, made of nodes from `lo` up to `hi`. */
  ghost predicate FolderIn(t: Tree, lo: nat, hi: nat, f: Folder) {
    match f
    case Flat(name, files) =>
      exists i: nat :: lo <= i < hi && DirAt(t, i, 0, name, DOTS + files) && HasGroup(t, i, Group(files, File))
    case Nested(name, inner, files) =>
      exists i: nat, j: nat ::
        && lo <= i < hi && lo <= j < hi && DirAt(t, i, 0, name, DOTS + [inner])
        && DirAt(t, j, i, inner, DOTS + files) && HasGroup(t, j, Group(files, File))
  }

  ghost predicate FoldersIn(t: Tree, lo: nat, hi: nat, fs: seq<Folder>) {
    forall k :: 0 <= k < |fs| ==> FolderIn(t, lo, hi, fs[k])
  }

  const FOLDERS_1: seq<Folder> :=
    [Flat("irq", ["default_smp_affinity", "default_smp_affinity_list"])] + [Flat("tty", ["drivers", "ldiscs"])]
    + [Flat("ide", ["drivers"])] + [Nested("video", "bttv", [])]

  const FOLDERS_2: seq<Folder> :=
    [Flat("scsi", ["scsi"])] + [Flat("sysvipc", ["msg", "sem", "shm"])] + [Nested("fs", "nfs", ["exports"])]

  const FOLDERS_3: seq<Folder> :=
    [Flat("driver", ["rtc"])] + [Nested("bus", "pci", ["devices"])] + [Flat("net", NET)]

  const FOLDERS: seq<Folder> := FOLDERS_1 + FOLDERS_2 + FOLDERS_3

  /** The tree only grew, and of the nodes there before only `p` got children. */
  ghost predicate Grown(t: Tree, u: Tree, p: nat) {
    && Kept(t, u)
    && forall i {:trigger Same(t, u, i)} :: 0 <= i < |t| && i != p ==> Same(t, u, i)
  }

  /** Node `p` got the children `names`, none of which expands. */
  predicate Longer(t: Tree, u: Tree, p: nat, names: seq<string>) {
    && p < |t| && p < |u|
    && u[p].kind == t[p].kind && u[p].process == t[p].process && u[p].thread == t[p].thread
    && Names(u, p) == Names(t, p) + names && (HasDots(t, p) ==> HasDots(u, p))
  }

  /** The nodes from `lo` up to `hi` stay as they are. */
  ghost predicate SameFrom(t: Tree, u: Tree, lo: nat, hi: nat) {
    Kept(t, u) && forall i {:trigger Same(t, u, i)} :: lo <= i < hi ==> Same(t, u, i)
  }

  lemma FolderStays(t: Tree, u: Tree, lo: nat, hi: nat, f: Folder)
    requires SameFrom(t, u, lo, hi) && FolderIn(t, lo, hi, f)
    ensures FolderIn(u, lo, hi, f)
  {
    match f
    case Flat(name, files) =>
      var i: nat :| lo <= i < hi && DirAt(t, i, 0, name, DOTS + files) && HasGroup(t, i, Group(files, File));
      DirStays(t, u, i, 0, name, DOTS + files);
      GroupStays(t, u, i, Group(files, File));
    case Nested(name, inner, files) =>
      var i: nat, j: nat :|
        && lo <= i < hi && lo <= j < hi && DirAt(t, i, 0, name, DOTS + [inner])
        && DirAt(t, j, i, inner, DOTS + files) && HasGroup(t, j, Group(files, File));
      DirStays(t, u, i, 0, name, DOTS + [inner]);
      DirStays(t, u, j, i, inner, DOTS + files);
      GroupStays(t, u, j, Group(files, File));
  }

  lemma DirStays(t: Tree, u: Tree, i: nat, p: nat, name: string, names: seq<string>)
    requires Kept(t, u) && Same(t, u, i) && DirAt(t, i, p, name, names)
    ensures DirAt(u, i, p, name, names)
  {
    StaysChild(t, u, i, p, name, Dir);
  }

  lemma FolderWidens(t: Tree, lo: nat, hi: nat, lo': nat, hi': nat, f: Folder)
    requires FolderIn(t, lo, hi, f) && lo' <= lo && hi <= hi'
    ensures FolderIn(t, lo', hi', f)
  {
    match f
    case Flat(name, files) =>
    case Nested(name, inner, files) =>
  }

  lemma FoldersWiden(t: Tree, lo: nat, hi: nat, lo': nat, hi': nat, fs: seq<Folder>)
    requires FoldersIn(t, lo, hi, fs) && lo' <= lo && hi <= hi'
    ensures FoldersIn(t, lo', hi', fs)
  {
    forall k | 0 <= k < |fs|
      ensures FolderIn(t, lo', hi', fs[k])
    {
      FolderWidens(t, lo, hi, lo', hi', fs[k]);
    }
  }

  lemma FoldersStay(t: Tree, u: Tree, lo: nat, hi: nat, fs: seq<Folder>)
    requires SameFrom(t, u, lo, hi) && FoldersIn(t, lo, hi, fs)
    ensures FoldersIn(u, lo, hi, fs)
  {
    forall k | 0 <= k < |fs|
      ensures FolderIn(u, lo, hi, fs[k])
    {
      FolderStays(t, u, lo, hi, fs[k]);
    }
  }

  /** The folders there were, and those that were added below the root. */
  lemma MoreFolders(t: Tree, u: Tree, lo: nat, fs: seq<Folder>, gs: seq<Folder>)
    requires Grown(t, u, 0) && 0 < lo <= |t| && FoldersIn(t, lo, |t|, fs) && FoldersIn(u, |t|, |u|, gs)
    ensures FoldersIn(u, lo, |u|, fs + gs)
  {
    assert SameFrom(t, u, lo, |t|);
    FoldersStay(t, u, lo, |t|, fs);
    FoldersWiden(u, lo, |t|, lo, |u|, fs);
    FoldersWiden(u, |t|, |u|, lo, |u|, gs);
  }

  /** `u` is `t` with these groups and folders more in the root. */
  ghost predicate RootGrown(t: Tree, u: Tree, gs: seq<Group>, fs: seq<Folder>) {
    |t| > 0 && Grown(t, u, 0) && HasGroups(u, 0, gs) && FoldersIn(u, |t|, |u|, fs)
  }

  lemma RootGrows(t: Tree, u: Tree, v: Tree, gs: seq<Group>, fs: seq<Folder>, hs: seq<Group>, es: seq<Folder>)
    requires RootGrown(t, u, gs, fs) && RootGrown(u, v, hs, es)
    ensures RootGrown(t, v, gs + hs, fs + es)
    ensures es == [] ==> RootGrown(t, v, gs + hs, fs)
    ensures fs == [] ==> RootGrown(t, v, gs + hs, es)
  {
    assert fs + [] == fs && [] + es == es;
    MoreGroups(u, v, 0, gs, hs);
    MoreFolders(u, v, |t|, fs, es);
    GrownTwice(t, u, v, 0, 0);
  }

  /** The directory below a process whose entries are numbered, and the node that stands for them. */
  predicate NumberedAt(t: Tree, p: nat, d: nat, e: nat, name: string, entry: string, kind: Kind) {
    DirAt(t, d, p, name, DOTS + [entry]) && NamedBelow(t, e, d, entry, kind)
  }

  lemma NumberedStays(t: Tree, u: Tree, p: nat, d: nat, e: nat, name: string, entry: string, kind: Kind)
    requires Kept(t, u) && Same(t, u, d) && NumberedAt(t, p, d, e, name, entry, kind)
    ensures NumberedAt(u, p, d, e, name, entry, kind)
  {
    DirStays(t, u, d, p, name, DOTS + [entry]);
    StaysChild(t, u, e, d, entry, kind);
  }

  lemma NumberedKept(t: Tree, u: Tree, v: Tree, p: nat, d: nat, e: nat, name: string, entry: string, kind: Kind)
    requires Kept(t, u) && Kept(u, v) && Same(t, u, d) && Same(u, v, d) && NumberedAt(t, p, d, e, name, entry, kind)
    ensures NumberedAt(v, p, d, e, name, entry, kind)
  {
    NumberedStays(t, u, p, d, e, name, entry, kind);
    NumberedStays(u, v, p, d, e, name, entry, kind);
  }

  predicate AllNumberedAt(t: Tree, p: nat, fdDir: nat, file: nat, threadDir: nat, thread: nat, taskDir: nat, task: nat)
  {
    && NumberedAt(t, p, fdDir, file, "fd", "__File__", Fd)
    && NumberedAt(t, p, threadDir, thread, "threads", "__Thread__", Thread)
    && NumberedAt(t, p, taskDir, task, "task", "__Thread__", Thread)
  }

  predicate EntriesEmpty(t: Tree, file: nat, thread: nat, task: nat) {
    && Is(t, file, Fd, true, false, DOTS) && Is(t, thread, Thread, true, true, DOTS)
    && Is(t, task, Thread, true, true, DOTS)
  }

  predicate EntriesFilled(t: Tree, file: nat, thread: nat, task: nat) {
    && Is(t, file, Fd, true, false, DOTS + ["details", "socket"]) && Is(t, thread, Thread, true, true, DOTS + ["info"])
    && Is(t, task, Thread, true, true, DOTS + TASK)
  }

  /** Of the nodes there before only these three got children. */
  ghost predicate SameBut(t: Tree, u: Tree, p: nat, q: nat, r: nat) {
    Kept(t, u) && forall i {:trigger Same(t, u, i)} :: 0 <= i < |t| && i != p && i != q && i != r ==> Same(t, u, i)
  }

  /** Such a directory, with what is below each of its entries. */
  ghost predicate HasNumbered(t: Tree, p: nat, name: string, entry: string, kind: Kind, files: seq<string>) {
    exists d: nat, e: nat :: NumberedAt(t, p, d, e, name, entry, kind) && Names(t, e) == DOTS + files
  }

  /** The directory of a process, with all that is below it. */
  ghost predicate ProcessBuilt(t: Tree, p: nat) {
    && p < |t| && Names(t, p) == PROCESS_NAMES && HasGroups(t, p, PROCESS_KINDS)
    && HasNumbered(t, p, "fd", "__File__", Fd, ["details", "socket"])
    && HasNumbered(t, p, "threads", "__Thread__", Thread, ["info"])
    && HasNumbered(t, p, "task", "__Thread__", Thread, TASK)
  }

  lemma GrownTwice(t: Tree, u: Tree, v: Tree, p: nat, q: nat)
    requires Grown(t, u, p) && Grown(u, v, q) && (q == p || q >= |t|)
    ensures Grown(t, v, p)
  {
    KeptTwice(t, u, v);
    forall i | 0 <= i < |t| && i != p
      ensures Same(t, v, i)
    {
      assert Same(t, u, i) && Same(u, v, i);
    }
  }

  lemma GrownThrice(t: Tree, u: Tree, v: Tree, w: Tree, p: nat, q: nat, r: nat)
    requires Grown(t, u, p) && Grown(u, v, q) && Grown(v, w, r)
    ensures SameBut(t, w, p, q, r)
  {
    KeptTwice(t, u, v);
    KeptTwice(t, v, w);
    forall i | 0 <= i < |t| && i != p && i != q && i != r
      ensures Same(t, w, i)
    {
      assert Same(t, u, i) && Same(u, v, i) && Same(v, w, i);
    }
  }

  /** What is known of a node stays known while others get children. */
  lemma StaysKnown(t: Tree, u: Tree, p: nat, i: nat, kind: Kind, process: bool, thread: bool, names: seq<string>)
    requires Grown(t, u, p) && i != p && Is(t, i, kind, process, thread, names)
    ensures Is(u, i, kind, process, thread, names)
  {
    assert Same(t, u, i);
  }

  /** `u` is `t` with one more node, the last child of `p`. */
  ghost predicate Appended(t: Tree, u: Tree, p: nat, name: string, kind: Kind, process: bool, thread: bool) {
    && TreeOk(t) && TreeOk(u) && |u| == |t| + 1
    && Grown(t, u, p) && Longer(t, u, p, [name]) && (Open(u, p) <==> !Expands(kind))
    && Is(u, |t|, kind, process, thread, []) && NamedBelow(u, |t|, p, name, kind)
    && u[p].children == t[p].children + [|t|]
  }

  lemma AddedAppends(t: Tree, u: Tree, p: nat, name: string, kind: Kind, process: bool, thread: bool)
    requires TreeOk(t) && Open(t, p) && Usable(name)
    requires Placed(t[p], NewNode(t, Some(p), name, kind, |t| + ROOT_BASE_ID, process, thread))
    requires u == Added(t, Some(p), name, kind, |t| + ROOT_BASE_ID, process, thread)
    ensures Appended(t, u, p, name, kind, process || t[p].process, thread || t[p].thread)
  {
    var base := |t| + ROOT_BASE_ID;
    AddedOk(t, p, name, kind, process, thread);
    AddedKeepsNodes(t, p, name, kind, base, process, thread);
    AddedKeepsOpen(t, p, name, kind, base, process, thread);
    AddedNames(t, p, name, kind, base, process, thread);
  }

  // ----- directories and lists of leaves -----

  /** The tree is in order, and every directory but those in `open` has good names. */
  ghost predicate Fine(t: Tree, open: set<nat>) {
    TreeOk(t) && Dotted(t) && forall i :: 0 <= i < |t| && i !in open ==> Good(Names(t, i))
  }

  /** `u` is `t` with a directory, the last child of `p`, and its dot entries. */
  ghost predicate DirAppended(t: Tree, u: Tree, p: nat, name: string, kind: Kind, process: bool, thread: bool) {
    && |u| == |t| + 3 && TreeOk(u)
    && Grown(t, u, p) && Longer(t, u, p, [name]) && (!Expands(kind) ==> Open(u, p))
    && Is(u, |t|, kind, process, thread, DOTS) && HasDots(u, |t|) && NamedBelow(u, |t|, p, name, kind)
    && Names(u, |t| + 1) == [] && Names(u, |t| + 2) == []
    && !Directory(u[|t| + 1].kind) && !Directory(u[|t| + 2].kind)
  }

  /** The two dot entries of a new node. */
  lemma DotsAppended(t: Tree, v: Tree, w: Tree, n: nat, kind: Kind, process: bool, thread: bool)
    requires n < |t| && t[n].children == [] && Is(t, n, kind, process, thread, [])
    requires Appended(t, v, n, ".", This, process, thread) && Appended(v, w, n, "..", Above, process, thread)
    ensures Grown(t, w, n) && HasDots(w, n) && Is(w, n, kind, process, thread, DOTS)
    ensures Names(w, |t|) == [] && w[|t|].kind == This
  {
    GrownTwice(t, v, w, n, n);
    assert [] + ["."] + [".."] == DOTS;
    assert Same(v, w, |t|);
    assert w[n].children == [|t|, |t| + 1];
  }

  lemma DirAppends(t: Tree, u: Tree, v: Tree, w: Tree, p: nat, name: string, kind: Kind, process: bool, thread: bool)
    requires Appended(t, u, p, name, kind, process, thread) && Directory(kind)
    requires Appended(u, v, |t|, ".", This, process, thread) && Appended(v, w, |t|, "..", Above, process, thread)
    ensures DirAppended(t, w, p, name, kind, process, thread)
  {
    assert Names(u, |t|) == [] && u[|t|].children == [];
    DotsAppended(u, v, w, |t|, kind, process, thread);
    GrownTwice(t, u, w, p, |t|);
    StaysChild(u, w, |t|, p, name, kind);
    assert Same(u, w, p);
  }

  lemma DirKeepsFine(t: Tree, u: Tree, p: nat, name: string, kind: Kind, process: bool, thread: bool, open: set<nat>)
    requires Fine(t, open) && p in open && DirAppended(t, u, p, name, kind, process, thread)
    ensures Fine(u, open)
  {
    DotsGood();
    forall i | 0 <= i < |u|
      ensures Directory(u[i].kind) ==> HasDots(u, i)
      ensures i !in open ==> Good(Names(u, i))
    {
      if i < |t| && i != p {
        assert Same(t, u, i);
      }
    }
  }

  /** Kinds of node without children, and where they can hang. */
  predicate LeafBelow(p: SNode, kind: Kind) {
    && Directory(p.kind) && !p.kind.ProcByName?
    && (kind.File? || kind.Link? || (kind.SysctlTree? && !p.process && !p.thread && !p.kind.Fd?))
  }

  /** `u` is `t` with leaves of these names and this kind, the last children of `p`. */
  ghost predicate LeavesAppended(t: Tree, u: Tree, p: nat, names: seq<string>, kind: Kind) {
    && |u| == |t| + |names| && TreeOk(u)
    && Grown(t, u, p) && Longer(t, u, p, names) && Open(u, p)
    && (forall i :: |t| <= i < |u| ==> !Directory(u[i].kind) && Names(u, i) == [])
    && forall k :: 0 <= k < |names| ==> NamedBelow(u, |t| + k, p, names[k], kind)
  }

  lemma NoLeaves(t: Tree, p: nat, kind: Kind)
    requires TreeOk(t) && Open(t, p)
    ensures LeavesAppended(t, t, p, [], kind)
  {
    assert Names(t, p) + [] == Names(t, p);
  }

  lemma OneMoreLeaf(t: Tree, u: Tree, v: Tree, p: nat, names: seq<string>,
                    name: string, kind: Kind, process: bool, thread: bool)
    requires LeavesAppended(t, u, p, names, kind) && Appended(u, v, p, name, kind, process, thread) && !Directory(kind)
    ensures LeavesAppended(t, v, p, names + [name], kind)
  {
    GrownTwice(t, u, v, p, p);
    assert Names(t, p) + names + [name] == Names(t, p) + (names + [name]);
    forall i | |t| <= i < |v|
      ensures !Directory(v[i].kind) && Names(v, i) == []
    {
      if i < |u| {
        assert Same(u, v, i);
      }
    }
    forall k | 0 <= k <= |names|
      ensures NamedBelow(v, |t| + k, p, (names + [name])[k], kind)
    {
      if k < |names| {
        assert NamedBelow(u, |t| + k, p, names[k], kind);
        StaysChild(u, v, |t| + k, p, names[k], kind);
      }
    }
  }

  lemma Taken<T>(s: seq<T>, j: nat)
    requires j <= |s|
    ensures j < |s| ==> s[..j + 1] == s[..j] + [s[j]]
    ensures s[..|s|] == s
  {
  }

  lemma LeavesKeepFine(t: Tree, u: Tree, p: nat, names: seq<string>, kind: Kind, open: set<nat>)
    requires Fine(t, open) && p in open && LeavesAppended(t, u, p, names, kind)
    ensures Fine(u, open)
  {
    forall i | 0 <= i < |u|
      ensures Directory(u[i].kind) ==> HasDots(u, i)
      ensures i !in open ==> Good(Names(u, i))
    {
      if i < |t| && i != p {
        assert Same(t, u, i);
      }
    }
  }

  lemma LeavesGroup(t: Tree, u: Tree, p: nat, names: seq<string>, kind: Kind)
    requires LeavesAppended(t, u, p, names, kind)
    ensures HasGroups(u, p, [Group(names, kind)])
  {
    forall k | 0 <= k < |names|
      ensures HasNamed(u, p, names[k], kind)
    {
      assert NamedBelow(u, |t| + k, p, names[k], kind);
    }
    assert HasGroup(u, p, Group(names, kind));
  }

  lemma CloseOne(t: Tree, open: set<nat>, i: nat)
    requires i < |t| && Fine(t, open + {i}) && Good(Names(t, i))
    ensures Fine(t, open)
  {
  }

  /** Nothing before the process directory changes while that is completed. */
  lemma ProcessSame(t0: Tree, t: Tree, u: Tree, v: Tree, proc: nat, file: nat, thread: nat, task: nat)
    requires Grown(t0, t, proc) && Grown(t, u, proc) && proc < |t0| && proc < file && proc < thread && proc < task
    requires SameBut(u, v, file, thread, task)
    ensures SameFrom(t0, v, 0, proc) && Unmoved(t0, v, proc)
  {
    KeptTwice(t0, t, u);
    KeptTwice(t0, u, v);
    forall i | 0 <= i < proc
      ensures Same(t0, v, i)
    {
      assert Same(t0, t, i) && Same(t, u, i) && Same(u, v, i);
    }
  }

  lemma EntriesStay(t: Tree, u: Tree, proc: nat, file: nat, thread: nat, task: nat)
    requires Grown(t, u, proc) && EntriesEmpty(t, file, thread, task) && proc < file && proc < thread && proc < task
    ensures EntriesEmpty(u, file, thread, task)
  {
    StaysKnown(t, u, proc, file, Fd, true, false, DOTS);
    StaysKnown(t, u, proc, thread, Thread, true, true, DOTS);
    StaysKnown(t, u, proc, task, Thread, true, true, DOTS);
  }

  lemma ProcessNumbered(t: Tree, u: Tree, v: Tree, proc: nat,
                        fdDir: nat, file: nat, threadDir: nat, thread: nat, taskDir: nat, task: nat)
    requires Grown(t, u, proc) && SameBut(u, v, file, thread, task)
    requires proc < fdDir < file < threadDir < thread < taskDir < task < |t|
    requires AllNumberedAt(t, proc, fdDir, file, threadDir, thread, taskDir, task)
    requires EntriesFilled(v, file, thread, task)
    ensures HasNumbered(v, proc, "fd", "__File__", Fd, ["details", "socket"])
    ensures HasNumbered(v, proc, "threads", "__Thread__", Thread, ["info"])
    ensures HasNumbered(v, proc, "task", "__Thread__", Thread, TASK)
  {
    assert Same(t, u, fdDir) && Same(t, u, threadDir) && Same(t, u, taskDir);
    assert Same(u, v, fdDir) && Same(u, v, threadDir) && Same(u, v, taskDir);
    NumberedKept(t, u, v, proc, fdDir, file, "fd", "__File__", Fd);
    NumberedKept(t, u, v, proc, threadDir, thread, "threads", "__Thread__", Thread);
    NumberedKept(t, u, v, proc, taskDir, task, "task", "__Thread__", Thread);
  }

  lemma ProcessGroups(t: Tree, u: Tree, v: Tree, proc: nat)
    requires Kept(t, u) && Kept(u, v) && HasGroups(t, proc, NUMBERED_KINDS)
    requires HasGroups(u, proc, [Group(PROCESS_1, File), Group(LINKS, Link), Group(PROCESS_2, File)])
    ensures HasGroups(v, proc, PROCESS_KINDS)
  {
    MoreGroups(t, u, proc, NUMBERED_KINDS, [Group(PROCESS_1, File), Group(LINKS, Link), Group(PROCESS_2, File)]);
    GroupsStay(u, v, proc, PROCESS_KINDS);
  }

  /** procfs_structure.c's module state: the tree so far and the next node id, a uint16_t. */
  class Builder {
    var nodes: Tree
    var nextId: nat

    ghost predicate Valid()
      reads this
    {
      TreeOk(nodes) && nextId == |nodes| + ROOT_BASE_ID < ID_RANGE
    }

    /** The root directory, before its dot entries. */
    constructor ()
      ensures Valid() && |nodes| == 1 && Is(nodes, 0, Root, false, false, []) && nodes[0].children == []
    {
      nodes := Added([], None, "/", Root, ROOT_BASE_ID, false, false);
      nextId := ROOT_BASE_ID + 1;
    }

    /** add_node: the node goes to the end of its parent's children and inherits its parent's flags. */
    method AddNode(p: nat, name: string, kind: Kind, base: nat, process: bool, thread: bool) returns (node: nat)
      requires p < |nodes|
      modifies this`nodes
      ensures node == old(|nodes|)
      ensures nodes == Added(old(nodes), Some(p), name, kind, base, process, thread)
    {
      node := |nodes|;
      var s := SNode(Clip(name, NAME_CHARS), kind, base, process, thread, Some(p), []);
      nodes := nodes[p := nodes[p].(children := nodes[p].children + [node])];
      s := s.(process := s.process || nodes[p].process, thread := s.thread || nodes[p].thread);
      nodes := nodes + [s];
    }

    /** A node with the next id. */
    method Add(p: nat, name: string, kind: Kind, process: bool, thread: bool) returns (node: nat)
      requires Valid() && Open(nodes, p) && Usable(name) && nextId + 1 < ID_RANGE
      requires Placed(nodes[p], NewNode(nodes, Some(p), name, kind, nextId, process, thread))
      modifies this
      ensures Valid() && node == old(|nodes|) && nextId == old(nextId) + 1
      ensures Appended(old(nodes), nodes, p, name, kind,
                       process || old(nodes[p].process), thread || old(nodes[p].thread))
    {
      ghost var t := nodes;
      var id := nextId;
      nextId := (nextId + 1) % ID_RANGE;
      node := AddNode(p, name, kind, id, process, thread);
      AddedAppends(t, nodes, p, name, kind, process, thread);
    }

    /** add_directory with the next id. */
    method AddDirectory(p: nat, name: string, kind: Kind, process: bool, thread: bool) returns (node: nat)
      requires Valid() && Open(nodes, p) && Usable(name) && Directory(kind) && nextId + 3 < ID_RANGE
      requires Placed(nodes[p], NewNode(nodes, Some(p), name, kind, nextId, process, thread))
      modifies this
      ensures Valid() && node == old(|nodes|) && nextId == old(nextId) + 3
      ensures DirAppended(old(nodes), nodes, p, name, kind,
                          process || old(nodes[p].process), thread || old(nodes[p].thread))
    {
      ghost var t := nodes;
      node := Add(p, name, kind, process, thread);
      ghost var u := nodes;
      var pr, th := nodes[node].process, nodes[node].thread;
      var this_ := Add(node, ".", This, pr, th);
      ghost var v := nodes;
      var above := Add(node, "..", Above, pr, th);
      DirAppends(t, u, v, nodes, p, name, kind, pr, th);
    }

    /** One leaf after another, in the order given. */
    method AddLeaves(p: nat, names: seq<string>, kind: Kind)
      requires Valid() && Open(nodes, p) && LeafBelow(nodes[p], kind) && nextId + |names| < ID_RANGE
      requires AllUsable(names)
      modifies this
      ensures Valid() && nextId == old(nextId) + |names|
      ensures LeavesAppended(old(nodes), nodes, p, names, kind)
    {
      ghost var t := nodes;
      NoLeaves(t, p, kind);
      for j := 0 to |names|
        invariant Valid() && nextId == old(nextId) + j && LeafBelow(nodes[p], kind)
        invariant LeavesAppended(t, nodes, p, names[..j], kind)
      {
        ghost var u := nodes;
        var process, thread := nodes[p].process, nodes[p].thread;
        var leaf := Add(p, names[j], kind, process, thread);
        OneMoreLeaf(t, u, nodes, p, names[..j], names[j], kind, process, thread);
        Taken(names, j);
      }
      Taken(names, |names|);
    }

    /** Leaves below a node that is known. */
    method Fill(p: nat, leaves: seq<string>, kind: Kind,
                ghost pk: Kind, ghost process: bool, ghost thread: bool, ghost names: seq<string>, ghost open: set<nat>)
      requires Valid() && Fine(nodes, open) && p in open && nextId + |leaves| < ID_RANGE
      requires Is(nodes, p, pk, process, thread, names)
      requires LeafBelow(nodes[p], kind) && AllUsable(leaves)
      modifies this
      ensures Valid() && Fine(nodes, open) && nextId == old(nextId) + |leaves|
      ensures Is(nodes, p, pk, process, thread, names + leaves) && Grown(old(nodes), nodes, p)
      ensures HasGroups(nodes, p, [Group(leaves, kind)])
      ensures p == 0 ==> RootGrown(old(nodes), nodes, [Group(leaves, kind)], [])
    {
      ghost var t := nodes;
      AddLeaves(p, leaves, kind);
      LeavesKeepFine(t, nodes, p, leaves, kind, open);
      LeavesGroup(t, nodes, p, leaves, kind);
    }

    /** A directory below a node that is known. */
    method OpenBelow(p: nat, name: string, kind: Kind, process: bool, thread: bool, ghost open: set<nat>)
      returns (node: nat)
      requires Valid() && Fine(nodes, open) && p in open && nextId + 3 < ID_RANGE
      requires Open(nodes, p) && Usable(name) && Directory(kind)
      requires Placed(nodes[p], NewNode(nodes, Some(p), name, kind, nextId, process, thread))
      modifies this
      ensures Valid() && Fine(nodes, open) && node == old(|nodes|) && nextId == old(nextId) + 3
      ensures Is(nodes, node, kind, process || old(nodes[p].process), thread || old(nodes[p].thread), DOTS)
      ensures Grown(old(nodes), nodes, p) && Longer(old(nodes), nodes, p, [name])
      ensures (!Expands(kind) ==> Open(nodes, p)) && NamedBelow(nodes, node, p, name, kind)
    {
      ghost var t := nodes;
      node := AddDirectory(p, name, kind, process, thread);
      DirKeepsFine(t, nodes, p, name, kind, process || t[p].process, thread || t[p].thread, open);
    }

    /** A directory of leaves below a directory without flags. */
    method AddFolder(p: nat, name: string, leaves: seq<string>,
                     ghost pk: Kind, ghost names: seq<string>, ghost open: set<nat>)
      returns (node: nat)
      requires Valid() && Fine(nodes, open) && p in open && nextId + 3 + |leaves| < ID_RANGE
      requires Is(nodes, p, pk, false, false, names) && (pk.Root? || pk.Dir?)
      requires Usable(name) && AllUsable(leaves) && Good(DOTS + leaves)
      modifies this
      ensures Valid() && Fine(nodes, open) && node == old(|nodes|) && nextId == old(nextId) + 3 + |leaves|
      ensures Is(nodes, p, pk, false, false, names + [name]) && Is(nodes, node, Dir, false, false, DOTS + leaves)
      ensures Grown(old(nodes), nodes, p) && HasGroups(nodes, p, [Group([name], Dir)])
      ensures DirAt(nodes, node, p, name, DOTS + leaves) && HasGroup(nodes, node, Group(leaves, File))
      ensures p == 0 ==> RootGrown(old(nodes), nodes, [Group([name], Dir)], [Flat(name, leaves)])
    {
      ghost var t := nodes;
      node := OpenBelow(p, name, Dir, false, false, open);
      ghost var u := nodes;
      Fill(node, leaves, File, Dir, false, false, DOTS, open + {node});
      CloseOne(nodes, open, node);
      GrownTwice(t, u, nodes, p, node);
      StaysKnown(u, nodes, node, p, pk, false, false, names + [name]);
      StaysChild(u, nodes, node, p, name, Dir);
      OneGroup(nodes, node, p, name, Dir);
      assert HasGroup(nodes, node, [Group(leaves, File)][0]);
      if p == 0 {
        assert FolderIn(nodes, |t|, |nodes|, Flat(name, leaves));
      }
    }

    /** A directory that holds one directory of leaves. */
    method AddNested(name: string, inner: string, leaves: seq<string>, ghost names: seq<string>, ghost open: set<nat>)
      requires Valid() && Fine(nodes, open) && 0 in open && nextId + 6 + |leaves| < ID_RANGE
      requires Is(nodes, 0, Root, false, false, names)
      requires Usable(name) && Undotted(inner) && AllUsable(leaves) && Good(DOTS + leaves)
      modifies this
      ensures Valid() && Fine(nodes, open) && nextId == old(nextId) + 6 + |leaves|
      ensures Is(nodes, 0, Root, false, false, names + [name])
      ensures RootGrown(old(nodes), nodes, [Group([name], Dir)], [Nested(name, inner, leaves)])
    {
      ghost var t := nodes;
      DotsGood();
      assert DOTS + [] == DOTS;
      var outer := AddFolder(0, name, [], Root, names, open);
      ghost var u := nodes;
      var node := AddFolder(outer, inner, leaves, Dir, DOTS, open + {outer});
      SmallGood([inner]);
      CloseOne(nodes, open, outer);
      GrownTwice(t, u, nodes, 0, outer);
      GroupsStay(u, nodes, 0, [Group([name], Dir)]);
      StaysChild(u, nodes, outer, 0, name, Dir);
      assert FolderIn(nodes, |t|, |nodes|, Nested(name, inner, leaves));
      StaysKnown(u, nodes, outer, 0, Root, false, false, names + [name]);
    }

    /** Files, links and files again, one after another. */
    method FillMixed(p: nat, files: seq<string>, links: seq<string>, more: seq<string>,
                     ghost pk: Kind, ghost process: bool, ghost thread: bool,
                     ghost names: seq<string>, ghost open: set<nat>)
      requires Valid() && Fine(nodes, open) && p in open && Is(nodes, p, pk, process, thread, names)
      requires nextId + |files| + |links| + |more| < ID_RANGE && LeafBelow(nodes[p], File)
      requires AllUsable(files) && AllUsable(links) && AllUsable(more)
      modifies this
      ensures Valid() && Fine(nodes, open) && nextId == old(nextId) + |files| + |links| + |more|
      ensures Is(nodes, p, pk, process, thread, names + files + links + more) && Grown(old(nodes), nodes, p)
      ensures HasGroups(nodes, p, [Group(files, File), Group(links, Link), Group(more, File)])
    {
      ghost var t := nodes;
      Fill(p, files, File, pk, process, thread, names, open);
      ghost var u := nodes;
      Fill(p, links, Link, pk, process, thread, names + files, open);
      GrownTwice(t, u, nodes, p, p);
      MoreGroups(u, nodes, p, [Group(files, File)], [Group(links, Link)]);
      u := nodes;
      Fill(p, more, File, pk, process, thread, names + files + links, open);
      GrownTwice(t, u, nodes, p, p);
      MoreGroups(u, nodes, p, [Group(files, File)] + [Group(links, Link)], [Group(more, File)]);
      assert [Group(files, File)] + [Group(links, Link)] + [Group(more, File)]
          == [Group(files, File), Group(links, Link), Group(more, File)];
    }

    method AddSystem1(ghost names: seq<string>, ghost open: set<nat>)
      requires Valid() && Fine(nodes, open) && 0 in open && Is(nodes, 0, Root, false, false, names) && nextId < 100
      modifies this
      ensures Valid() && Fine(nodes, open) && Is(nodes, 0, Root, false, false, names + SYSTEM_1) && nextId < 150
      ensures RootGrown(old(nodes), nodes, SYSTEM_KINDS_1, [])
    {
      ghost var t := nodes;
      System1Parts(names);
      FillMixed(0, ["cpuinfo"], ["curproc"], FILES_1, Root, false, false, names, open);
      ghost var u := nodes;
      Fill(0, ["sys"], SysctlTree, Root, false, false, names + ["cpuinfo"] + ["curproc"] + FILES_1, open);
      GrownTwice(t, u, nodes, 0, 0);
      MoreGroups(u, nodes, 0, [Group(["cpuinfo"], File), Group(["curproc"], Link), Group(FILES_1, File)],
                 [Group(["sys"], SysctlTree)]);
    }

    /** The folders from `irq` to `video`. */
    method AddFolders1(ghost names: seq<string>, ghost open: set<nat>)
      requires Valid() && Fine(nodes, open) && 0 in open && Is(nodes, 0, Root, false, false, names) && nextId < 200
      modifies this
      ensures Valid() && Fine(nodes, open) && nextId < 240
      ensures Is(nodes, 0, Root, false, false, names + ["irq"] + ["tty"] + ["ide"] + ["video"])
      ensures RootGrown(old(nodes), nodes, FOLDER_KINDS_1, FOLDERS_1)
    {
      ghost var t := nodes;
      SmallGood(["default_smp_affinity", "default_smp_affinity_list"]);
      var irq := AddFolder(0, "irq", ["default_smp_affinity", "default_smp_affinity_list"], Root, names, open);
      ghost var fs: seq<Folder> := [Flat("irq", ["default_smp_affinity", "default_smp_affinity_list"])];
      ghost var u, gs := nodes, [Group(["irq"], Dir)];
      SmallGood(["drivers", "ldiscs"]);
      var tty := AddFolder(0, "tty", ["drivers", "ldiscs"], Root, names + ["irq"], open);
      RootGrows(t, u, nodes, gs, fs, [Group(["tty"], Dir)], [Flat("tty", ["drivers", "ldiscs"])]);
      gs, fs := gs + [Group(["tty"], Dir)], fs + [Flat("tty", ["drivers", "ldiscs"])];
      u := nodes;
      SmallGood(["drivers"]);
      var ide := AddFolder(0, "ide", ["drivers"], Root, names + ["irq"] + ["tty"], open);
      RootGrows(t, u, nodes, gs, fs, [Group(["ide"], Dir)], [Flat("ide", ["drivers"])]);
      gs, fs := gs + [Group(["ide"], Dir)], fs + [Flat("ide", ["drivers"])];
      u := nodes;
      SmallGood([]);
      AddNested("video", "bttv", [], names + ["irq"] + ["tty"] + ["ide"], open);
      RootGrows(t, u, nodes, gs, fs, [Group(["video"], Dir)], [Nested("video", "bttv", [])]);
      gs, fs := gs + [Group(["video"], Dir)], fs + [Nested("video", "bttv", [])];
    }

    /** From `isapnp` to `fs`. */
    method AddFolders2(ghost names: seq<string>, ghost open: set<nat>)
      requires Valid() && Fine(nodes, open) && 0 in open && Is(nodes, 0, Root, false, false, names) && nextId < 240
      modifies this
      ensures Valid() && Fine(nodes, open) && nextId < 280
      ensures Is(nodes, 0, Root, false, false, names + ["isapnp"] + ["scsi"] + ["sysvipc"] + ["fs"])
      ensures RootGrown(old(nodes), nodes, FOLDER_KINDS_2, FOLDERS_2)
    {
      ghost var t := nodes;
      Fill(0, ["isapnp"], File, Root, false, false, names, open);
      ghost var fs: seq<Folder> := [];
      ghost var u, gs := nodes, [Group(["isapnp"], File)];
      SmallGood(["scsi"]);
      var scsi := AddFolder(0, "scsi", ["scsi"], Root, names + ["isapnp"], open);
      RootGrows(t, u, nodes, gs, fs, [Group(["scsi"], Dir)], [Flat("scsi", ["scsi"])]);
      gs, fs := gs + [Group(["scsi"], Dir)], [Flat("scsi", ["scsi"])];
      u := nodes;
      SmallGood(["msg", "sem", "shm"]);
      var ipc := AddFolder(0, "sysvipc", ["msg", "sem", "shm"], Root, names + ["isapnp"] + ["scsi"], open);
      RootGrows(t, u, nodes, gs, fs, [Group(["sysvipc"], Dir)], [Flat("sysvipc", ["msg", "sem", "shm"])]);
      gs, fs := gs + [Group(["sysvipc"], Dir)], fs + [Flat("sysvipc", ["msg", "sem", "shm"])];
      u := nodes;
      SmallGood(["exports"]);
      AddNested("fs", "nfs", ["exports"], names + ["isapnp"] + ["scsi"] + ["sysvipc"], open);
      RootGrows(t, u, nodes, gs, fs, [Group(["fs"], Dir)], [Nested("fs", "nfs", ["exports"])]);
      gs, fs := gs + [Group(["fs"], Dir)], fs + [Nested("fs", "nfs", ["exports"])];
    }

    /** From `driver` to `net`. */
    method AddFolders3(ghost names: seq<string>, ghost open: set<nat>)
      requires Valid() && Fine(nodes, open) && 0 in open && Is(nodes, 0, Root, false, false, names) && nextId < 280
      modifies this
      ensures Valid() && Fine(nodes, open) && nextId < 320
      ensures Is(nodes, 0, Root, false, false, names + ["driver"] + ["bus"] + ["cmdline"] + ["self"] + ["net"])
      ensures RootGrown(old(nodes), nodes, FOLDER_KINDS_3, FOLDERS_3)
    {
      ghost var t := nodes;
      SmallGood(["rtc"]);
      var driver := AddFolder(0, "driver", ["rtc"], Root, names, open);
      ghost var fs: seq<Folder> := [Flat("driver", ["rtc"])];
      ghost var u, gs := nodes, [Group(["driver"], Dir)];
      SmallGood(["devices"]);
      AddNested("bus", "pci", ["devices"], names + ["driver"], open);
      RootGrows(t, u, nodes, gs, fs, [Group(["bus"], Dir)], [Nested("bus", "pci", ["devices"])]);
      gs, fs := gs + [Group(["bus"], Dir)], fs + [Nested("bus", "pci", ["devices"])];
      u := nodes;
      Fill(0, ["cmdline"], File, Root, false, false, names + ["driver"] + ["bus"], open);
      RootGrows(t, u, nodes, gs, fs, [Group(["cmdline"], File)], []);
      gs := gs + [Group(["cmdline"], File)];
      u := nodes;
      Fill(0, ["self"], Link, Root, false, false, names + ["driver"] + ["bus"] + ["cmdline"], open);
      RootGrows(t, u, nodes, gs, fs, [Group(["self"], Link)], []);
      gs := gs + [Group(["self"], Link)];
      u := nodes;
      NetGood();
      var net := AddFolder(0, "net", NET, Root, names + ["driver"] + ["bus"] + ["cmdline"] + ["self"], open);
      RootGrows(t, u, nodes, gs, fs, [Group(["net"], Dir)], [Flat("net", NET)]);
      gs, fs := gs + [Group(["net"], Dir)], fs + [Flat("net", NET)];
    }

    /** The system-wide part, below the root. */
    method AddSystem(ghost names: seq<string>, ghost open: set<nat>)
      requires Valid() && Fine(nodes, open) && 0 in open && Is(nodes, 0, Root, false, false, names) && nextId < 100
      modifies this
      ensures Valid() && Fine(nodes, open) && nextId < 320
      ensures Is(nodes, 0, Root, false, false, names + SYSTEM_1 + SYSTEM_2 + SYSTEM_3)
      ensures RootGrown(old(nodes), nodes, SYSTEM_KINDS, FOLDERS)
    {
      ghost var t := nodes;
      AddSystem1(names, open);
      ghost var u, ns := nodes, names + SYSTEM_1;
      System2Usable();
      Fill(0, SYSTEM_2, File, Root, false, false, ns, open);
      RootGrows(t, u, nodes, SYSTEM_KINDS_1, [], [Group(SYSTEM_2, File)], []);
      u, ns := nodes, ns + SYSTEM_2;
      AddFolders(ns, open);
      RootGrows(t, u, nodes, SYSTEM_KINDS_1 + [Group(SYSTEM_2, File)], [] + [], FOLDER_KINDS, FOLDERS);
      assert SYSTEM_KINDS_1 + [Group(SYSTEM_2, File)] + FOLDER_KINDS == SYSTEM_KINDS;
      assert [] + [] + FOLDERS == FOLDERS;
    }

    /** From `irq` to `net`. */
    method AddFolders(ghost names: seq<string>, ghost open: set<nat>)
      requires Valid() && Fine(nodes, open) && 0 in open && Is(nodes, 0, Root, false, false, names) && nextId < 200
      modifies this
      ensures Valid() && Fine(nodes, open) && nextId < 320
      ensures Is(nodes, 0, Root, false, false, names + SYSTEM_3)
      ensures RootGrown(old(nodes), nodes, FOLDER_KINDS, FOLDERS)
    {
      ghost var t := nodes;
      AddFolders1(names, open);
      ghost var u, ns := nodes, names + ["irq"] + ["tty"] + ["ide"] + ["video"];
      AddFolders2(ns, open);
      RootGrows(t, u, nodes, FOLDER_KINDS_1, FOLDERS_1, FOLDER_KINDS_2, FOLDERS_2);
      u, ns := nodes, ns + ["isapnp"] + ["scsi"] + ["sysvipc"] + ["fs"];
      AddFolders3(ns, open);
      RootGrows(t, u, nodes, FOLDER_KINDS_1 + FOLDER_KINDS_2, FOLDERS_1 + FOLDERS_2, FOLDER_KINDS_3, FOLDERS_3);
      System3Parts(names);
    }

    /** The root's dot entries and `byname`. */
    method AddFirst() returns (byname: nat)
      requires Valid() && |nodes| == 1 && Is(nodes, 0, Root, false, false, []) && nodes[0].children == []
      modifies this
      ensures Valid() && Fine(nodes, {0, byname}) && byname == 3 && nextId < 100
      ensures Is(nodes, 0, Root, false, false, FIRST) && Is(nodes, byname, Dir, false, false, DOTS)
      ensures NamedBelow(nodes, byname, 0, "byname", Dir)
    {
      ghost var t := nodes;
      var dot := Add(0, ".", This, false, false);
      ghost var u := nodes;
      var dotdot := Add(0, "..", Above, false, false);
      DotsAppended(t, u, nodes, 0, Root, false, false);
      RootOnly(nodes);
      byname := OpenBelow(0, "byname", Dir, false, false, {0, 3});
    }

    /** The nodes that stand for every process, in `byname` and in the root; both directories are then complete. */
    method AddProcessNodes(byname: nat) returns (named: nat, proc: nat)
      requires Valid() && Fine(nodes, {0, byname}) && byname != 0 && nextId < 320
      requires Is(nodes, 0, Root, false, false, FIRST + SYSTEM_1 + SYSTEM_2 + SYSTEM_3)
      requires Is(nodes, byname, Dir, false, false, DOTS)
      modifies this
      ensures Valid() && Fine(nodes, {}) && Is(nodes, proc, Proc, true, false, DOTS) && nextId < 330
      ensures proc > 0 && Names(nodes, 0) == ROOT_NAMES && Kept(old(nodes), nodes)
      ensures NamedBelow(nodes, named, byname, "__Process_N__", ProcByName)
      ensures NamedBelow(nodes, proc, 0, "__Process__", Proc) && proc >= old(|nodes|)
      ensures SameFrom(old(nodes), nodes, byname + 1, old(|nodes|))
    {
      ghost var t := nodes;
      named := OpenBelow(byname, "__Process_N__", ProcByName, true, false, {0, byname});
      SmallGood(["__Process_N__"]);
      CloseOne(nodes, {0}, byname);
      StaysKnown(t, nodes, byname, 0, Root, false, false, FIRST + SYSTEM_1 + SYSTEM_2 + SYSTEM_3);
      ghost var u := nodes;
      proc := OpenBelow(0, "__Process__", Proc, true, false, {0});
      KeptTwice(t, u, nodes);
      forall i | byname < i < |t|
        ensures Same(t, nodes, i)
      {
        assert Same(t, u, i) && Same(u, nodes, i);
      }
      StaysChild(u, nodes, named, byname, "__Process_N__", ProcByName);
      RootNamesGood();
      CloseOne(nodes, {}, 0);
    }

    /** A directory of a process whose entries are numbered, and the node standing for those entries. */
    method AddNumbered(proc: nat, name: string, entry: string, kind: Kind, thread: bool, ghost names: seq<string>)
      returns (node: nat, ghost dir: nat)
      requires Valid() && Fine(nodes, {proc}) && Is(nodes, proc, Proc, true, false, names) && nextId < 400
      requires (kind.Fd? && !thread) || (kind.Thread? && thread)
      requires Usable(name) && Undotted(entry)
      modifies this
      ensures Valid() && Fine(nodes, {proc}) && nextId == old(nextId) + 6
      ensures Is(nodes, proc, Proc, true, false, names + [name]) && Is(nodes, node, kind, true, thread, DOTS)
      ensures node > dir >= old(|nodes|) && Grown(old(nodes), nodes, proc)
      ensures HasGroups(nodes, proc, [Group([name], Dir)]) && NumberedAt(nodes, proc, dir, node, name, entry, kind)
    {
      ghost var t := nodes;
      var below := OpenBelow(proc, name, Dir, true, false, {proc});
      dir := below;
      ghost var u := nodes;
      node := OpenBelow(below, entry, kind, true, thread, {proc} + {dir});
      SmallGood([entry]);
      CloseOne(nodes, {proc}, dir);
      GrownTwice(t, u, nodes, proc, dir);
      StaysKnown(u, nodes, dir, proc, Proc, true, false, names + [name]);
      StaysChild(u, nodes, dir, proc, name, Dir);
      OneGroup(nodes, dir, proc, name, Dir);
    }

    /** Leaves that complete a directory. */
    method Complete(p: nat, leaves: seq<string>, ghost pk: Kind, ghost process: bool, ghost thread: bool)
      requires Valid() && Fine(nodes, {}) && Is(nodes, p, pk, process, thread, DOTS) && Directory(pk) && nextId < 500
      requires !pk.ProcByName?
      requires AllUsable(leaves) && Good(DOTS + leaves) && |leaves| < 20
      modifies this
      ensures Valid() && Fine(nodes, {}) && nextId == old(nextId) + |leaves| && Grown(old(nodes), nodes, p)
      ensures Is(nodes, p, pk, process, thread, DOTS + leaves)
    {
      Fill(p, leaves, File, pk, process, thread, DOTS, {p});
      CloseOne(nodes, {}, p);
    }

    /** The numbered directories of a process. */
    method AddNumberedDirs(proc: nat)
      returns (file: nat, thread: nat, task: nat, ghost fdDir: nat, ghost threadDir: nat, ghost taskDir: nat)
      requires Valid() && Fine(nodes, {proc}) && Is(nodes, proc, Proc, true, false, DOTS) && nextId < 330
      modifies this
      ensures Valid() && Fine(nodes, {proc}) && Is(nodes, proc, Proc, true, false, NUMBERED) && nextId < 360
      ensures EntriesEmpty(nodes, file, thread, task)
      ensures proc < fdDir < file < threadDir < thread < taskDir < task && fdDir >= old(|nodes|)
      ensures AllNumberedAt(nodes, proc, fdDir, file, threadDir, thread, taskDir, task)
      ensures Grown(old(nodes), nodes, proc) && HasGroups(nodes, proc, NUMBERED_KINDS)
    {
      ghost var t0 := nodes;
      file, fdDir := AddNumbered(proc, "fd", "__File__", Fd, false, DOTS);
      ghost var t := nodes;
      thread, threadDir := AddNumbered(proc, "threads", "__Thread__", Thread, true, DOTS + ["fd"]);
      GrownTwice(t0, t, nodes, proc, proc);
      StaysKnown(t, nodes, proc, file, Fd, true, false, DOTS);
      MoreGroups(t, nodes, proc, [Group(["fd"], Dir)], [Group(["threads"], Dir)]);
      NumberedStays(t, nodes, proc, fdDir, file, "fd", "__File__", Fd);
      t := nodes;
      task, taskDir := AddNumbered(proc, "task", "__Thread__", Thread, true, DOTS + ["fd"] + ["threads"]);
      GrownTwice(t0, t, nodes, proc, proc);
      StaysKnown(t, nodes, proc, file, Fd, true, false, DOTS);
      StaysKnown(t, nodes, proc, thread, Thread, true, true, DOTS);
      MoreGroups(t, nodes, proc, [Group(["fd"], Dir)] + [Group(["threads"], Dir)], [Group(["task"], Dir)]);
      NumberedStays(t, nodes, proc, fdDir, file, "fd", "__File__", Fd);
      NumberedStays(t, nodes, proc, threadDir, thread, "threads", "__Thread__", Thread);
    }

    /** The leaves of the numbered entries. */
    method AddNumberedLeaves(file: nat, thread: nat, task: nat)
      requires Valid() && Fine(nodes, {}) && nextId < 450 && file < thread < task
      requires EntriesEmpty(nodes, file, thread, task)
      modifies this
      ensures Valid() && Fine(nodes, {})
      ensures EntriesFilled(nodes, file, thread, task) && SameBut(old(nodes), nodes, file, thread, task)
    {
      ghost var t0 := nodes;
      ghost var t := nodes;
      SmallGood(["info"]);
      Complete(thread, ["info"], Thread, true, true);
      StaysKnown(t, nodes, thread, file, Fd, true, false, DOTS);
      StaysKnown(t, nodes, thread, task, Thread, true, true, DOTS);
      t := nodes;
      TaskGood();
      Complete(task, TASK, Thread, true, true);
      StaysKnown(t, nodes, task, file, Fd, true, false, DOTS);
      StaysKnown(t, nodes, task, thread, Thread, true, true, DOTS + ["info"]);
      ghost var u := nodes;
      SmallGood(["details", "socket"]);
      Complete(file, ["details", "socket"], Fd, true, false);
      StaysKnown(u, nodes, file, thread, Thread, true, true, DOTS + ["info"]);
      StaysKnown(u, nodes, file, task, Thread, true, true, DOTS + TASK);
      GrownThrice(t0, t, u, nodes, thread, task, file);
      assert SameBut(t0, nodes, file, thread, task);
    }

    /** What is there for every process. */
    method AddProcess(proc: nat)
      requires Valid() && Fine(nodes, {}) && Is(nodes, proc, Proc, true, false, DOTS) && 0 < proc && nextId < 330
      modifies this
      ensures Valid() && Fine(nodes, {}) && Names(nodes, 0) == old(Names(nodes, 0))
      ensures SameFrom(old(nodes), nodes, 0, proc) && ProcessBuilt(nodes, proc)
      ensures proc < |nodes| && Unmoved(old(nodes), nodes, proc)
    {
      ghost var t0 := nodes;
      var file, thread, task, fdDir, threadDir, taskDir := AddNumberedDirs(proc);
      ghost var t := nodes;
      AddPerProcess(proc);
      ghost var u := nodes;
      EntriesStay(t, u, proc, file, thread, task);
      AddNumberedLeaves(file, thread, task);
      ProcessSame(t0, t, u, nodes, proc, file, thread, task);
      ProcessGroups(t, u, nodes, proc);
      ProcessNumbered(t, u, nodes, proc, fdDir, file, threadDir, thread, taskDir, task);
      assert Same(u, nodes, proc) && Same(t0, nodes, 0);
    }

    /** The files and links of a process, which complete its directory. */
    method AddPerProcess(proc: nat)
      requires Valid() && Fine(nodes, {proc}) && Is(nodes, proc, Proc, true, false, NUMBERED) && nextId < 400
      modifies this
      ensures Valid() && Fine(nodes, {}) && nextId < 450 && Grown(old(nodes), nodes, proc)
      ensures proc < |nodes| && nodes[proc].kind.Proc? && Names(nodes, proc) == PROCESS_NAMES
      ensures HasGroups(nodes, proc, [Group(PROCESS_1, File), Group(LINKS, Link), Group(PROCESS_2, File)])
    {
      ProcessUsable();
      FillMixed(proc, PROCESS_1, LINKS, PROCESS_2, Proc, true, false, NUMBERED, {proc});
      assert NUMBERED + PROCESS_1 + LINKS + PROCESS_2 == PROCESS_NAMES;
      ProcessNamesGood();
      CloseOne(nodes, {}, proc);
    }
  }

  /** procfs_structure_init */
  method StructureInit() returns (b: Builder)
    ensures Built(b.nodes) && Names(b.nodes, 0) == ROOT_NAMES && HasGroups(b.nodes, 0, ROOT_KINDS)
    ensures exists p :: NamedBelow(b.nodes, p, 0, "__Process__", Proc) && ProcessBuilt(b.nodes, p)
    ensures FoldersIn(b.nodes, 0, |b.nodes|, FOLDERS)
    ensures exists d, p ::
              NamedBelow(b.nodes, d, 0, "byname", Dir) && NamedBelow(b.nodes, p, d, "__Process_N__", ProcByName)
  {
    b := new Builder();
    var byname := b.AddFirst();
    ghost var t := b.nodes;
    b.AddSystem(FIRST, {0, byname});
    ghost var u := b.nodes;
    StaysKnown(t, u, 0, byname, Dir, false, false, DOTS);
    var named, proc := b.AddProcessNodes(byname);
    ghost var v := b.nodes;
    RootDone(t, u, v, byname, named, proc);
    b.AddProcess(proc);
    TreeDone(v, b.nodes, |t|, |u|, byname, named, proc);
  }

  /** What the root holds before the process directory is filled. */
  ghost predicate RootBuilt(t: Tree, lo: nat, hi: nat, byname: nat, named: nat, proc: nat) {
    && HasGroups(t, 0, ROOT_KINDS) && FoldersIn(t, lo, hi, FOLDERS)
    && NamedBelow(t, byname, 0, "byname", Dir) && NamedBelow(t, named, byname, "__Process_N__", ProcByName)
    && NamedBelow(t, proc, 0, "__Process__", Proc)
  }

  lemma RootDone(t: Tree, u: Tree, v: Tree, byname: nat, named: nat, proc: nat)
    requires NamedBelow(t, byname, 0, "byname", Dir) && byname < |t| && RootGrown(t, u, SYSTEM_KINDS, FOLDERS)
    requires SameFrom(u, v, byname + 1, |u|) && NamedBelow(v, named, byname, "__Process_N__", ProcByName)
    requires NamedBelow(v, proc, 0, "__Process__", Proc)
    ensures RootBuilt(v, |t|, |u|, byname, named, proc)
  {
    OneGroup(t, byname, 0, "byname", Dir);
    MoreGroups(t, u, 0, [Group(["byname"], Dir)], SYSTEM_KINDS);
    OneGroup(v, proc, 0, "__Process__", Proc);
    MoreGroups(u, v, 0, [Group(["byname"], Dir)] + SYSTEM_KINDS, [Group(["__Process__"], Proc)]);
    StaysChild(t, u, byname, 0, "byname", Dir);
    StaysChild(u, v, byname, 0, "byname", Dir);
    assert SameFrom(u, v, |t|, |u|);
    FoldersStay(u, v, |t|, |u|, FOLDERS);
  }

  lemma TreeDone(t: Tree, u: Tree, lo: nat, hi: nat, byname: nat, named: nat, proc: nat)
    requires RootBuilt(t, lo, hi, byname, named, proc) && hi <= proc && SameFrom(t, u, 0, proc)
    ensures RootBuilt(u, 0, |u|, byname, named, proc)
  {
    GroupsStay(t, u, 0, ROOT_KINDS);
    StaysChild(t, u, byname, 0, "byname", Dir);
    StaysChild(t, u, named, byname, "__Process_N__", ProcByName);
    StaysChild(t, u, proc, 0, "__Process__", Proc);
    assert SameFrom(t, u, lo, hi);
    FoldersStay(t, u, lo, hi, FOLDERS);
    FoldersWiden(u, lo, hi, 0, |u|, FOLDERS);
  }

  lemma RootOnly(t: Tree)
    requires TreeOk(t) && |t| == 3 && HasDots(t, 0) && !Directory(t[1].kind) && !Directory(t[2].kind)
    requires Names(t, 1) == [] && Names(t, 2) == []
    ensures Fine(t, {0, 3})
  {
  }
}
