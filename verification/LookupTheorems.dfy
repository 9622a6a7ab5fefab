/** What lookup keeps and undoes: the nodes it reaches, and that ".." leads back from them. */
module LookupTheorems {
  import opened Common
  import opened Structure
  import opened Lookup
  import Sysctl

  // ----- the nodes that lookup reaches -----

  predicate ParentIsFd(t: Tree, i: nat)
    requires i < |t|
  {
    t[i].parent.Some? && t[i].parent.value < |t| && t[t[i].parent.value].kind.Fd?
  }

  /** A node id carries a pid only below a process, and an object id only below a thread, in an fd
      directory or for a sysctl oid. */
  predicate Good(t: Tree, n: PNode) {
    && n.snode < |t|
    && n.id.base == t[n.snode].base
    && !t[n.snode].kind.This? && !t[n.snode].kind.Above?
    && (t[n.snode].process || n.id.pid == NO_PID)
    && (|| t[n.snode].thread || n.id.objectId == NO_OBJECT
        || t[n.snode].kind.SysctlTree? || t[n.snode].kind.Fd? || ParentIsFd(t, n.snode))
  }

  const RootNode := PNode(0, NodeId(NO_PID, NO_OBJECT, ROOT_BASE_ID))

  lemma RootGood(t: Tree)
    requires TreeOk(t)
    ensures Good(t, RootNode)
  {
    assert NodeOk(t, 0);
  }

  /** Below a file descriptor there are no directories, so a directory's object id fits its flags. */
  lemma DirectoryFits(w: World, t: Tree, n: PNode)
    requires TreeOk(t) && Good(t, n) && IsDirectory(w, t, n)
    requires !t[n.snode].kind.SysctlTree? && !t[n.snode].kind.Fd?
    ensures t[n.snode].thread || n.id.objectId == NO_OBJECT
  {
    assert NodeOk(t, n.snode);
  }

  /** What a match is: a child of the directory, with the directory's ids or a number in their place. */
  predicate ChildOf(t: Tree, n: PNode, m: PNode)
    requires n.snode < |t|
  {
    && m.snode < |t| && m.snode in t[n.snode].children
    && m.id.base == t[m.snode].base
    && (m.id.pid == n.id.pid || t[m.snode].kind.Proc? || t[m.snode].kind.ProcByName?)
    && (m.id.objectId == n.id.objectId || t[m.snode].kind.Thread? || t[m.snode].kind.Fd?)
  }

  lemma {:induction false} MatchIsChild(w: World, t: Tree, n: PNode, name: string, k: nat)
    requires TreeOk(t) && n.snode < |t| && k <= |t[n.snode].children|
    requires MatchFrom(w, t, n, name, k).Found?
    ensures ChildOf(t, n, MatchFrom(w, t, n, name, k).node)
    ensures var s := t[MatchFrom(w, t, n, name, k).node.snode]; s.name == name || Expands(s.kind)
    decreases |t[n.snode].children| - k
  {
    var cs := t[n.snode].children;
    assert ChildrenOk(t, n.snode);
    if TryChild(w, t[cs[k]], cs[k], n, name).Skip? {
      MatchIsChild(w, t, n, name, k + 1);
    }
  }

  lemma ChildPlaced(t: Tree, i: nat, c: nat)
    requires TreeOk(t) && i < |t| && c in t[i].children
    ensures i < c < |t| && t[c].parent == Some(i) && Placed(t[i], t[c])
    ensures (t[i].process ==> t[c].process) && (t[i].thread ==> t[c].thread)
  {
    assert ChildrenOk(t, i);
    var k :| 0 <= k < |t[i].children| && t[i].children[k] == c;
    assert NodeOk(t, c);
  }

  /** Every lookup from a node reached leads to such a node. */
  lemma LookupStaysGood(w: World, t: Tree, n: PNode, name: string)
    requires TreeOk(t) && Good(t, n) && LookedUp(w, t, n, name).Found?
    ensures Good(t, LookedUp(w, t, n, name).node)
  {
    var m := LookedUp(w, t, n, name).node;
    if name == ".." {
      assert NodeOk(t, n.snode);
      UpwardGood(w, t, n);
    } else if name != "." && !t[n.snode].kind.SysctlTree? {
      MatchIsChild(w, t, n, name, 0);
      ChildPlaced(t, n.snode, m.snode);
      if !t[n.snode].kind.Fd? {
        DirectoryFits(w, t, n);
      }
    }
  }

  lemma UpwardGood(w: World, t: Tree, n: PNode)
    requires TreeOk(t) && Good(t, n) && IsDirectory(w, t, n)
    ensures Good(t, Upward(w, t, n))
  {
    assert NodeOk(t, n.snode);
    if t[n.snode].parent.Some? {
      ChildPlaced(t, t[n.snode].parent.value, n.snode);
    }
  }

  // ----- ".." undoes a lookup -----

  predicate Dots(name: string) {
    name == "." || name == ".."
  }

  /** Outside /proc/sys, ".." from what a lookup found gives back the directory's id exactly when the
      directory's own object id is one that its flags carry. */
  lemma UpExact(w: World, t: Tree, n: PNode, name: string)
    requires TreeOk(t) && Good(t, n) && !t[n.snode].kind.SysctlTree? && !Dots(name)
    requires LookedUp(w, t, n, name).Found?
    ensures var m := LookedUp(w, t, n, name).node;
            && m.snode < |t|
            && t[m.snode].parent == Some(n.snode)
            && (ParentId(t, m) == n.id <==> t[n.snode].thread || n.id.objectId == NO_OBJECT)
  {
    var m := LookedUp(w, t, n, name).node;
    MatchIsChild(w, t, n, name, 0);
    ChildPlaced(t, n.snode, m.snode);
  }

  /** From every directory that a lookup reaches, ".." leads back to the directory it started in. */
  lemma UpUndoesLookup(w: World, t: Tree, n: PNode, name: string)
    requires TreeOk(t) && WorldOk(w) && Good(t, n) && !Dots(name)
    requires (t[n.snode].kind.SysctlTree? ==> n.id.pid == NO_PID)
    requires LookedUp(w, t, n, name).Found?
    requires var m := LookedUp(w, t, n, name).node; m.snode < |t| && IsDirectory(w, t, m)
    ensures LookedUp(w, t, LookedUp(w, t, n, name).node, "..") == Found(n)
  {
    var m := LookedUp(w, t, n, name).node;
    if t[n.snode].kind.SysctlTree? {
      Sysctl.ParentInvertsFind(w.oids, n.id.objectId, name);
    } else {
      UpExact(w, t, n, name);
      MatchIsChild(w, t, n, name, 0);
      ChildPlaced(t, n.snode, m.snode);
      if !t[n.snode].kind.Fd? {
        DirectoryFits(w, t, n);
      }
    }
  }

  /** Looking up one component after another, through directories. */
  function Walk(w: World, t: Tree, n: PNode, path: seq<string>): Outcome
    requires TreeOk(t) && Good(t, n)
    decreases |path|
  {
    if path == [] then Found(n)
    else match LookedUp(w, t, n, path[0])
      case Failed(e) => Failed(e)
      case Found(m) =>
        LookupStaysGood(w, t, n, path[0]);
        if IsDirectory(w, t, m) then Walk(w, t, m, path[1..]) else Failed(EINVAL)
  }

  function Ups(n: nat): seq<string> {
    seq(n, _ => "..")
  }

  lemma {:induction false} WalkAppend(w: World, t: Tree, n: PNode, p: seq<string>, q: seq<string>)
    requires TreeOk(t) && Good(t, n) && Walk(w, t, n, p).Found?
    ensures Good(t, Walk(w, t, n, p).node)
    ensures Walk(w, t, n, p + q) == Walk(w, t, Walk(w, t, n, p).node, q)
    decreases |p|
  {
    if p == [] {
      assert p + q == q;
    } else {
      LookupStaysGood(w, t, n, p[0]);
      assert (p + q)[1..] == p[1..] + q;
      WalkAppend(w, t, LookedUp(w, t, n, p[0]).node, p[1..], q);
    }
  }

  predicate SysctlHasNoPid(t: Tree, n: PNode)
    requires n.snode < |t|
  {
    t[n.snode].kind.SysctlTree? ==> n.id.pid == NO_PID
  }

  lemma SysctlStaysWithoutPid(w: World, t: Tree, n: PNode, name: string)
    requires TreeOk(t) && Good(t, n) && !Dots(name) && LookedUp(w, t, n, name).Found?
    ensures Good(t, LookedUp(w, t, n, name).node) && SysctlHasNoPid(t, LookedUp(w, t, n, name).node)
  {
    LookupStaysGood(w, t, n, name);
    if !t[n.snode].kind.SysctlTree? {
      MatchIsChild(w, t, n, name, 0);
      ChildPlaced(t, n.snode, LookedUp(w, t, n, name).node.snode);
    }
  }

  /** Any path down through directories, followed by as many "..", ends where it began. */
  lemma {:induction false} UpsUndoPath(w: World, t: Tree, n: PNode, path: seq<string>)
    requires TreeOk(t) && WorldOk(w) && Good(t, n) && SysctlHasNoPid(t, n) && IsDirectory(w, t, n)
    requires (forall k :: 0 <= k < |path| ==> !Dots(path[k])) && Walk(w, t, n, path).Found?
    ensures Walk(w, t, n, path + Ups(|path|)) == Found(n)
    decreases |path|
  {
    if path == [] {
      assert path + Ups(0) == [];
    } else {
      var m, rest := LookedUp(w, t, n, path[0]).node, path[1..];
      LookupStaysGood(w, t, n, path[0]);
      SysctlStaysWithoutPid(w, t, n, path[0]);
      UpsUndoPath(w, t, m, rest);
      UpUndoesLookup(w, t, n, path[0]);
      WalkAppend(w, t, m, rest + Ups(|rest|), [".."]);
      assert (path + Ups(|path|))[1..] == (rest + Ups(|rest|)) + [".."];
      assert Walk(w, t, m, [".."]) == Found(n) by { assert [".."][1..] == []; }
    }
  }

  /** Paths from the root of the file system. */
  function WalkFromRoot(w: World, t: Tree, path: seq<string>): Outcome
    requires TreeOk(t)
  {
    RootGood(t);
    Walk(w, t, RootNode, path)
  }

  /** Every directory of the file system is left again by as many ".." as its path has components. */
  lemma BackToRoot(w: World, t: Tree, path: seq<string>)
    requires TreeOk(t) && WorldOk(w) && forall k :: 0 <= k < |path| ==> !Dots(path[k])
    requires WalkFromRoot(w, t, path).Found?
    ensures Good(t, WalkFromRoot(w, t, path).node)
    ensures WalkFromRoot(w, t, path + Ups(|path|)) == Found(RootNode)
  {
    RootGood(t);
    assert NodeOk(t, 0);
    WalkAppend(w, t, RootNode, path, []);
    UpsUndoPath(w, t, RootNode, path);
  }
}
