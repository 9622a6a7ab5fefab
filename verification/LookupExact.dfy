/**
 Which names are found in a directory and as what (kext/procfs_vnops.c, procfs_vnop_lookup), said
 without the search: by the names of the structure children, the processes the caller may see, their
 threads and their descriptors.
 */
module LookupExact {
  import opened Common
  import opened Numbers
  import opened Structure
  import opened Lookup
  import opened LookupTheorems
  import opened Listing

  predicate AllDigits(name: string) {
    name != "" && forall i :: 0 <= i < |name| ==> IsDigit(name[i])
  }

  /** A process that runs and that the caller may see. */
  predicate Visible(w: World, pid: int) {
    pid in w.processes && (w.check ==> w.processes[pid].accessible)
  }

  /** In directory `n` the structure child `s` stands for the name, as the node with this id. */
  predicate StandsFor(w: World, n: PNode, s: SNode, name: string, id: NodeId)
    requires WorldOk(w)
  {
    && s.name !in w.hidden && id.base == s.base
    && (|| (s.name == name && id.pid == n.id.pid && id.objectId == n.id.objectId)
        || ByNumber(w, n, s.kind, name, id))
  }

  /** The number in the name picks a process, a thread of the directory's process, or one of its open
      descriptors. */
  predicate ByNumber(w: World, n: PNode, kind: Kind, name: string, id: NodeId)
    requires WorldOk(w)
  {
    match kind
    case Proc => Visible(w, id.pid) && AllDigits(name) && AtoiValue(name) == id.pid && id.objectId == NO_OBJECT
    case ProcByName =>
      Visible(w, id.pid) && name == Decimal(id.pid) + (" " + w.processes[id.pid].comm) && id.objectId == NO_OBJECT
    case Thread =>
      && Visible(w, id.pid) && id.pid == n.id.pid && AllDigits(name) && AtoiValue(name) == id.objectId
      && w.processes[id.pid].threads.Some? && id.objectId in w.processes[id.pid].threads.value
    case Fd =>
      && id.pid in w.processes && id.pid == n.id.pid && AtoiValue(name) == id.objectId
      && id.objectId in w.processes[id.pid].fds
    case _ => false
  }

  lemma LeadingAll(name: string)
    requires name != ""
    ensures AllDigits(name) <==> Leading(name) == |name|
  {
    if AllDigits(name) { LeadingIs(name, |name|); }
  }

  /** Only names that start with a digit are found by number. */
  lemma NumberLed(w: World, n: PNode, kind: Kind, name: string, id: NodeId)
    requires WorldOk(w) && ByNumber(w, n, kind, name, id)
    ensures name != "" && IsDigit(name[0])
  {
    if kind.ProcByName? {
      DecimalDigits(id.pid);
    } else if kind.Fd? {
      assert AtoiValue(name) >= 0;
    }
  }

  /** The range of what procfs_atoi yields. */
  lemma AtoiRange(name: string)
    ensures -INT_RANGE <= AtoiValue(name) < INT_RANGE
  {
  }

  lemma TriesProcess(w: World, s: SNode, c: nat, n: PNode, name: string, m: PNode)
    requires WorldOk(w) && name != "" && s.kind.Proc? && n.id.objectId == NO_OBJECT
    ensures TryNumbered(w, s, c, n, name) == Hit(m) <==>
            m.snode == c && m.id.base == s.base && ByNumber(w, n, Proc, name, m.id)
  {
    LeadingAll(name);
  }

  lemma TriesProcessName(w: World, s: SNode, c: nat, n: PNode, name: string, m: PNode)
    requires WorldOk(w) && name != "" && s.kind.ProcByName? && n.id.objectId == NO_OBJECT
    ensures TryNumbered(w, s, c, n, name) == Hit(m) <==>
            m.snode == c && m.id.base == s.base && ByNumber(w, n, ProcByName, name, m.id)
  {
    if ByNumber(w, n, ProcByName, name, m.id) {
      FullName(w, m.id.pid, name);
    } else {
      OtherName(w, s, c, n, name);
    }
  }

  /** The number in the full name of a process is its pid. */
  lemma FullName(w: World, pid: int, name: string)
    requires WorldOk(w) && pid in w.processes && name == Decimal(pid) + (" " + w.processes[pid].comm)
    ensures AtoiValue(name) == pid
  {
    AtoiOfDecimal(pid, " " + w.processes[pid].comm);
  }

  /** What is found by name is a visible process with that full name. */
  lemma OtherName(w: World, s: SNode, c: nat, n: PNode, name: string)
    requires WorldOk(w) && s.kind.ProcByName? && n.id.objectId == NO_OBJECT
    ensures var r := TryNumbered(w, s, c, n, name);
            r.Hit? ==> r.node.snode == c && r.node.id.base == s.base && ByNumber(w, n, ProcByName, name, r.node.id)
  {
  }

  lemma TriesThread(w: World, s: SNode, c: nat, n: PNode, name: string, m: PNode)
    requires WorldOk(w) && name != "" && s.kind.Thread?
    ensures TryNumbered(w, s, c, n, name) == Hit(m) <==>
            m.snode == c && m.id.base == s.base && ByNumber(w, n, Thread, name, m.id)
  {
    LeadingAll(name);
    AtoiRange(name);
    if n.id.pid in w.processes { ThreadNumber(w, n.id.pid, AtoiValue(name)); }
  }

  /** What a child that expands makes of a name that is not its own. */
  lemma TriesNumber(w: World, s: SNode, c: nat, n: PNode, name: string, m: PNode)
    requires WorldOk(w) && name != "" && s.name !in w.hidden && s.name != name && Expands(s.kind)
    requires s.kind.Proc? || s.kind.ProcByName? ==> n.id.objectId == NO_OBJECT
    ensures TryChild(w, s, c, n, name) == Hit(m) <==>
            m.snode == c && m.id.base == s.base && ByNumber(w, n, s.kind, name, m.id)
  {
    match s.kind
    case Proc => TriesProcess(w, s, c, n, name, m);
    case ProcByName => TriesProcessName(w, s, c, n, name, m);
    case Thread => TriesThread(w, s, c, n, name, m);
    case Fd =>
      if n.id.pid in w.processes { assert NumbersOk(w.processes[n.id.pid]); }
  }

  /** A thread id is below 2^31, so that the int and the 64-bit number are the same. */
  lemma ThreadNumber(w: World, pid: int, id: int)
    requires WorldOk(w) && pid in w.processes && -INT_RANGE <= id < INT_RANGE
    ensures ThreadOf(w.processes[pid], id) <==>
            w.processes[pid].threads.Some? && id >= 0 && id in w.processes[pid].threads.value
    ensures id >= 0 ==> Truncated(id) == id
  {
    assert NumbersOk(w.processes[pid]);
  }

  /** A name that no visible child has is for the last child to decide. */
  lemma LastDecides(w: World, t: Tree, n: PNode, name: string)
    requires Listable(w, t, n) && name != "" && !Dots(name)
    requires forall j :: 0 <= j < |t[n.snode].children| ==>
               var c := t[n.snode].children[j]; c < |t| && (t[c].name in w.hidden || t[c].name != name)
    ensures var cs := t[n.snode].children;
            && cs != [] && cs[|cs| - 1] < |t|
            && var c := cs[|cs| - 1];
               LookedUp(w, t, n, name) ==
                 match TryChild(w, t[c], c, n, name) { case Hit(m) => Found(m) case _ => Failed(ENOENT) }
  {
    var cs := t[n.snode].children;
    assert HasDots(t, n.snode);
    assert ChildrenOk(t, n.snode);
    MatchSkips(w, t, n, name, 0, |cs| - 1);
  }

  /** A visible child that has the name is what is found. */
  lemma NamedFound(w: World, t: Tree, n: PNode, name: string, j: nat, m: PNode)
    requires Listable(w, t, n) && !Dots(name) && j < |t[n.snode].children| && t[n.snode].children[j] < |t|
    requires var s := t[t[n.snode].children[j]]; s.name == name && s.name !in w.hidden
    ensures LookedUp(w, t, n, name) == Found(m) <==>
            m.snode in t[n.snode].children && m.snode < |t| && StandsFor(w, n, t[m.snode], name, m.id)
  {
    var cs := t[n.snode].children;
    ChildPlaced(t, n.snode, cs[j]);
    PlainFound(w, t, n, j);
    SiblingNames(t, n.snode, j);
    if m.snode in cs && m.snode < |t| && StandsFor(w, n, t[m.snode], name, m.id) {
      if ByNumber(w, n, t[m.snode].kind, name, m.id) {
        NumberLed(w, n, t[m.snode].kind, name, m.id);
      }
      var k :| 0 <= k < |cs| && cs[k] == m.snode;
      assert k == j;
    }
  }

  lemma ObjectOf(w: World, t: Tree, n: PNode, k: nat)
    requires Listable(w, t, n) && k < |t[n.snode].children| && t[n.snode].children[k] < |t|
    requires var s := t[t[n.snode].children[k]]; s.kind.Proc? || s.kind.ProcByName?
    ensures n.id.objectId == NO_OBJECT
  {
    ChildPlaced(t, n.snode, t[n.snode].children[k]);
    DirectoryFits(w, t, n);
  }

  /** Otherwise a number decides, or nothing is found. */
  lemma NumberFound(w: World, t: Tree, n: PNode, name: string, m: PNode)
    requires Listable(w, t, n) && name != "" && !Dots(name)
    requires forall j :: 0 <= j < |t[n.snode].children| ==>
               var c := t[n.snode].children[j]; c < |t| && (t[c].name in w.hidden || t[c].name != name)
    ensures LookedUp(w, t, n, name) == Found(m) <==>
            m.snode in t[n.snode].children && m.snode < |t| && StandsFor(w, n, t[m.snode], name, m.id)
    ensures LookedUp(w, t, n, name).Failed? ==> LookedUp(w, t, n, name) == Failed(ENOENT)
  {
    var cs := t[n.snode].children;
    LastDecides(w, t, n, name);
    assert ChildrenOk(t, n.snode);
    var k := |cs| - 1;
    var s := t[cs[k]];
    if s.name !in w.hidden && Expands(s.kind) {
      if s.kind.Proc? || s.kind.ProcByName? { ObjectOf(w, t, n, k); }
      TriesNumber(w, s, cs[k], n, name, m);
    }
    if m.snode in cs && Expands(t[m.snode].kind) {
      var i :| 0 <= i < |cs| && cs[i] == m.snode;
      assert i == k;
    }
  }

  /** In every directory read through its structure children, a name other than the dot entries is found
      as a node if and only if a visible child stands for it as that node: by its own name, by the number
      of a visible process or of one of the directory's threads in digits only, by the whole name of a
      visible process, or by a number that starts the name and is an open descriptor. If no child does,
      the answer is ENOENT. */
  lemma FoundExact(w: World, t: Tree, n: PNode, name: string, m: PNode)
    requires Listable(w, t, n) && name != "" && !Dots(name)
    ensures LookedUp(w, t, n, name) == Found(m) <==>
            m.snode in t[n.snode].children && m.snode < |t| && StandsFor(w, n, t[m.snode], name, m.id)
    ensures LookedUp(w, t, n, name).Failed? ==> LookedUp(w, t, n, name) == Failed(ENOENT)
  {
    var cs := t[n.snode].children;
    assert ChildrenOk(t, n.snode);
    if j :| 0 <= j < |cs| && t[cs[j]].name == name && name !in w.hidden {
      NamedFound(w, t, n, name, j, m);
      ChildPlaced(t, n.snode, cs[j]);
      PlainFound(w, t, n, j);
    } else {
      NumberFound(w, t, n, name, m);
    }
  }

  /** In particular a process that the caller may not see is not found, by number or by name. */
  lemma HiddenFromCaller(w: World, t: Tree, n: PNode, pid: nat, rest: string)
    requires Listable(w, t, n) && pid < INT_RANGE && !Visible(w, pid) && n.id.pid == NO_PID
    requires rest == "" || !IsDigit(rest[0])
    ensures LookedUp(w, t, n, Decimal(pid) + rest) == Failed(ENOENT)
  {
    var name := Decimal(pid) + rest;
    DecimalDigits(pid);
    AtoiOfDecimal(pid, rest);
    assert IsDigit(name[0]);
    if LookedUp(w, t, n, name).Found? {
      var m := LookedUp(w, t, n, name).node;
      FoundExact(w, t, n, name, m);
      NotByName(t, n.snode, m.snode, name);
      NamesPid(w, n, t[m.snode].kind, name, m.id);
    } else {
      FoundExact(w, t, n, name, n);
    }
  }

  lemma NotByName(t: Tree, i: nat, c: nat, name: string)
    requires Built(t) && i < |t| && c in t[i].children && c < |t| && name != "" && IsDigit(name[0])
    ensures t[c].name != name
  {
    var k :| 0 <= k < |t[i].children| && t[i].children[k] == c;
    SiblingNames(t, i, k);
  }

  lemma NamesPid(w: World, n: PNode, kind: Kind, name: string, id: NodeId)
    requires WorldOk(w) && ByNumber(w, n, kind, name, id) && n.id.pid == NO_PID
    ensures Visible(w, id.pid) && AtoiValue(name) == id.pid
  {
    if kind.ProcByName? { AtoiOfDecimal(id.pid, " " + w.processes[id.pid].comm); }
  }
}
