/**
 The live sysctl mirror under /proc/sys (kext/procfs_sysctl.c). Every function walks the kernel's oid
 lists and returns a value; an object id is the address of an oid, 0 for the root, or one of five
 small numbers for the Linux-only `kernel/random` directory that no real oid backs.

 Addresses are natural numbers, and an oid is reached from its address by searching the tree, which
 is what following the address does when addresses are distinct.
 */
module Sysctl {
  import opened Common

  const RANDOM := 1
  const SYNTHETIC_END := 6
  const PATH_MAX_CHARS := 255

  datatype Kind = Leaf | NullNode | Node

  /** An oid list: the first oid, the list of its children (`End` unless it is a `Node`), and the rest. */
  datatype Oids =
    | End
    | Oid(id: nat, name: Option<string>, masked: bool, anchor: bool, kind: Kind, kids: Oids, next: Oids)

  datatype Entry = Entry(name: string, isNode: bool, id: nat)

  const RandomLeaves: seq<Entry> :=
    [Entry("boot_id", false, 2), Entry("entropy_avail", false, 3), Entry("poolsize", false, 4), Entry("uuid", false, 5)]

  // ----- the searches -----

  predicate Synthetic(id: nat) {
    RANDOM <= id < SYNTHETIC_END
  }

  predicate Hidden(o: Oids)
    requires o.Oid?
  {
    o.name.None? || o.masked || o.anchor
  }

  function KernId(list: Oids): nat {
    match list
    case End => 0
    case Oid(id, name, _, _, _, _, next) => if name == Some("kern") then id else KernId(next)
  }

  /** The oid at an address. */
  function Deref(list: Oids, id: nat): (r: Option<Oids>)
    ensures r.Some? ==> r.value.Oid? && r.value.id == id
  {
    if list.End? then None
    else if list.id == id then Some(list)
    else if Deref(list.kids, id).Some? then Deref(list.kids, id)
    else Deref(list.next, id)
  }

  function ChildList(root: Oids, dir: nat): Option<Oids> {
    if dir == 0 then Some(root)
    else match Deref(root, dir)
      case Some(Oid(_, _, _, _, Node, kids, _)) => Some(kids)
      case _ => None
  }

  predicate IsNode(root: Oids, id: nat) {
    if id == 0 then true
    else if Synthetic(id) then id == RANDOM
    else match Deref(root, id)
      case Some(Oid(_, _, _, _, kind, _, _)) => !kind.Leaf?
      case _ => false
  }

  function FindOid(list: Oids, name: string): (r: Option<Oids>)
    ensures r.Some? ==> r.value.Oid?
  {
    if list.End? then None
    else if !Hidden(list) && list.name == Some(name) then Some(list)
    else FindOid(list.next, name)
  }

  function FindLeaf(leaves: seq<Entry>, name: string): Option<nat> {
    if leaves == [] then None
    else if leaves[0].name == name then Some(leaves[0].id)
    else FindLeaf(leaves[1..], name)
  }

  function Unaliased(dir: nat, name: string): string {
    if dir == 0 && name == "kernel" then "kern" else name
  }

  /** procfs_sysctl_find */
  function Find(root: Oids, dir: nat, given: string): Option<nat> {
    var name := Unaliased(dir, given);
    if dir == RANDOM then FindLeaf(RandomLeaves, name)
    else match ChildList(root, dir)
      case None => None
      case Some(list) =>
        match FindOid(list, name)
        case Some(o) => Some(o.id)
        case None => if name == "random" && dir == KernId(root) then Some(RANDOM) else None
  }

  /** The visible oids of a list, as readdir counts them. */
  function Visible(list: Oids): seq<Entry> {
    if list.End? then []
    else if Hidden(list) then Visible(list.next)
    else [Entry(list.name.value, !list.kind.Leaf?, list.id)] + Visible(list.next)
  }

  /** The scan of one list for the entry at `index`, with the number of visible oids passed over. */
  function ScanTo(list: Oids, i: nat, index: int): (Option<Entry>, nat) {
    if list.End? then (None, i)
    else if Hidden(list) then ScanTo(list.next, i, index)
    else if i == index then (Some(Entry(list.name.value, !list.kind.Leaf?, list.id)), i)
    else ScanTo(list.next, i + 1, index)
  }

  /** procfs_sysctl_child_at */
  function ChildAt(root: Oids, dir: nat, index: int): Option<Entry> {
    if dir == RANDOM then
      if index < 0 || index >= |RandomLeaves| then None else Some(RandomLeaves[index])
    else match ChildList(root, dir)
      case None => None
      case Some(list) =>
        var (entry, i) := ScanTo(list, 0, index);
        if entry.Some? then entry
        else if index == i && dir == KernId(root) then Some(Entry("random", true, RANDOM))
        else None
  }

  /** procfs_sysctl_build_name: the buffers hold 255 characters and their terminator. */
  function BuildName(list: Oids, prefix: string, target: nat): Option<string> {
    if list.End? then None
    else if list.name.None? then BuildName(list.next, prefix, target)
    else
      var path := Clip(if prefix != "" then prefix + "." + list.name.value else list.name.value, PATH_MAX_CHARS);
      if list.id == target then Some(path)
      else
        var below := if list.kind.Node? then BuildName(list.kids, path, target) else None;
        if below.Some? then below else BuildName(list.next, prefix, target)
  }

  /** procfs_sysctl_find_parent */
  function FindParent(list: Oids, parent: nat, target: nat): Option<nat> {
    if list.End? then None
    else if list.id == target then Some(parent)
    else
      var below := if list.kind.Node? then FindParent(list.kids, list.id, target) else None;
      if below.Some? then below else FindParent(list.next, parent, target)
  }

  /** procfs_sysctl_parent */
  function Parent(root: Oids, id: nat): Option<nat> {
    if id == 0 then None
    else if id == RANDOM then Some(KernId(root))
    else if Synthetic(id) then Some(RANDOM)
    else FindParent(root, 0, id)
  }

  // ----- the trees considered -----

  function Ids(list: Oids): set<nat> {
    if list.End? then {} else {list.id} + Ids(list.kids) + Ids(list.next)
  }

  /** Addresses are distinct and above the synthetic ones; only nodes have children. */
  predicate Distinct(list: Oids) {
    list.Oid? ==>
      && list.id >= SYNTHETIC_END
      && list.id !in Ids(list.kids) && list.id !in Ids(list.next)
      && Ids(list.kids) !! Ids(list.next)
      && (list.kids.Oid? ==> list.kind.Node?)
      && Distinct(list.kids) && Distinct(list.next)
  }

  predicate GoodName(s: string) {
    s != "" && '.' !in s
  }

  /** Visible siblings have distinct names, non-empty and without a dot. */
  predicate NamesOk(list: Oids) {
    list.Oid? ==>
      && (!Hidden(list) ==> GoodName(list.name.value) && FindOid(list.next, list.name.value).None?)
      && NamesOk(list.kids) && NamesOk(list.next)
  }

  /** The oid named `kern` is visible and has a child list without `random`, and none is named `kernel`. */
  predicate KernOk(root: Oids) {
    && FindOid(root, "kern").Some?
    && FindOid(root, "kern").value.id == KernId(root)
    && FindOid(root, "kern").value.kind.Node?
    && FindOid(FindOid(root, "kern").value.kids, "random").None?
    && FindOid(root, "kernel").None?
  }

  predicate TreeOk(root: Oids) {
    Distinct(root) && NamesOk(root) && KernOk(root)
  }

  // ----- addresses -----

  lemma {:induction false} DerefIn(list: Oids, id: nat)
    ensures Deref(list, id).Some? <==> id in Ids(list)
  {
    if list.Oid? {
      DerefIn(list.kids, id);
      DerefIn(list.next, id);
    }
  }

  lemma {:induction false} FoundIsIn(list: Oids, name: string)
    requires FindOid(list, name).Some?
    ensures FindOid(list, name).value.id in Ids(list)
    ensures FindOid(list, name).value.name == Some(name) && !Hidden(FindOid(list, name).value)
    ensures Distinct(list) ==> Deref(list, FindOid(list, name).value.id) == FindOid(list, name)
    ensures Distinct(list) ==> Distinct(FindOid(list, name).value)
    ensures NamesOk(list) ==> NamesOk(FindOid(list, name).value)
  {
    if Hidden(list) || list.name != Some(name) {
      FoundIsIn(list.next, name);
      DerefIn(list.kids, FindOid(list, name).value.id);
    }
  }

  lemma {:induction false} DerefOk(list: Oids, id: nat)
    requires Deref(list, id).Some?
    ensures Distinct(list) ==> Distinct(Deref(list, id).value)
    ensures NamesOk(list) ==> NamesOk(Deref(list, id).value)
    ensures Ids(Deref(list, id).value.kids) <= Ids(list)
  {
    DerefIn(list, id);
    if list.id != id {
      if Deref(list.kids, id).Some? {
        DerefOk(list.kids, id);
      } else {
        DerefOk(list.next, id);
      }
    }
  }

  lemma ChildListOk(root: Oids, dir: nat)
    requires TreeOk(root) && ChildList(root, dir).Some?
    ensures Distinct(ChildList(root, dir).value) && NamesOk(ChildList(root, dir).value)
    ensures Ids(ChildList(root, dir).value) <= Ids(root)
  {
    if dir != 0 {
      DerefOk(root, dir);
      DerefIn(root, dir);
    }
  }

  lemma {:induction false} RealIds(list: Oids, id: nat)
    requires Distinct(list) && id in Ids(list)
    ensures id >= SYNTHETIC_END
  {
    if id in Ids(list.kids) {
      RealIds(list.kids, id);
    } else if id in Ids(list.next) {
      RealIds(list.next, id);
    }
  }

  // ----- find and child_at -----

  lemma {:induction false} ScanIsIndex(list: Oids, i: nat, index: int)
    ensures var k := index - i;
            ScanTo(list, i, index) ==
              if 0 <= k < |Visible(list)| then (Some(Visible(list)[k]), index) else (None, i + |Visible(list)|)
  {
    if list.Oid? && !Hidden(list) && i != index {
      ScanIsIndex(list.next, i + 1, index);
    } else if list.Oid? && Hidden(list) {
      ScanIsIndex(list.next, i, index);
    }
  }

  /** What readdir lists for a directory, in order. */
  function Listing(root: Oids, dir: nat): seq<Entry> {
    if dir == RANDOM then RandomLeaves
    else match ChildList(root, dir)
      case None => []
      case Some(list) => Visible(list) + (if dir == KernId(root) then [Entry("random", true, RANDOM)] else [])
  }

  /** The oids of one list. */
  function Siblings(list: Oids): seq<Oids> {
    if list.End? then [] else [list] + Siblings(list.next)
  }

  /** The oid is shown: it has a name and is neither masked nor an anchor. */
  predicate ShownAs(o: Oids, e: Entry) {
    && o.Oid? && o.name == Some(e.name) && !o.masked && !o.anchor
    && o.id == e.id && (e.isNode <==> !o.kind.Leaf?)
  }

  lemma {:induction false} VisibleExact(list: Oids, e: Entry)
    ensures e in Visible(list) <==> exists o :: o in Siblings(list) && ShownAs(o, e)
  {
    if list.Oid? {
      VisibleExact(list.next, e);
      var rest := Siblings(list.next);
      assert Siblings(list) == [list] + rest;
      if !Hidden(list) {
        assert ShownAs(list, e) <==> e == Entry(list.name.value, !list.kind.Leaf?, list.id);
      }
      if ShownAs(list, e) {
        assert list in Siblings(list) && Visible(list)[0] == e;
      } else {
        assert e in Visible(list) <==> e in Visible(list.next);
        if o :| o in rest && ShownAs(o, e) { assert o in Siblings(list); }
      }
    }
  }

  /** A directory lists exactly the oids on its list that have a name and are neither masked nor an anchor,
      and `kern` also the synthetic directory `random`. */
  lemma ListedExact(root: Oids, dir: nat, e: Entry)
    requires dir != RANDOM
    ensures e in Listing(root, dir) <==>
            && ChildList(root, dir).Some?
            && (|| (exists o :: o in Siblings(ChildList(root, dir).value) && ShownAs(o, e))
                || (dir == KernId(root) && e == Entry("random", true, RANDOM)))
  {
    if ChildList(root, dir).Some? {
      VisibleExact(ChildList(root, dir).value, e);
    }
  }

  /** Asking for one index after another gives the listing, and nothing past its end. */
  lemma ChildAtIsListing(root: Oids, dir: nat, index: int)
    ensures ChildAt(root, dir, index) ==
              if 0 <= index < |Listing(root, dir)| then Some(Listing(root, dir)[index]) else None
  {
    if dir != RANDOM && ChildList(root, dir).Some? {
      ScanIsIndex(ChildList(root, dir).value, 0, index);
    }
  }

  predicate HasEntry(list: Oids, e: Entry) {
    && FindOid(list, e.name).Some?
    && e == Entry(e.name, !FindOid(list, e.name).value.kind.Leaf?, FindOid(list, e.name).value.id)
  }

  lemma {:induction false} VisibleIsFound(list: Oids, e: Entry)
    requires NamesOk(list)
    ensures e in Visible(list) <==> HasEntry(list, e)
  {
    if list.Oid? {
      VisibleIsFound(list.next, e);
    }
  }

  lemma KernOrRoot(root: Oids)
    requires TreeOk(root)
    ensures KernId(root) >= SYNTHETIC_END
    ensures ChildList(root, KernId(root)) == Some(FindOid(root, "kern").value.kids)
  {
    FoundIsIn(root, "kern");
    RealIds(root, KernId(root));
  }

  /** A name is found exactly when it, or what it is an alias of, is listed, and as the oid listed. */
  lemma FindIffListed(root: Oids, dir: nat, name: string, id: nat)
    requires TreeOk(root)
    ensures Find(root, dir, name) == Some(id) <==>
            exists e :: e in Listing(root, dir) && e.name == Unaliased(dir, name) && e.id == id
  {
    var plain := Unaliased(dir, name);
    if dir == RANDOM {
      LeavesFound(RandomLeaves, plain, id);
    } else if ChildList(root, dir).Some? {
      var list := ChildList(root, dir).value;
      ChildListOk(root, dir);
      KernOrRoot(root);
      forall e | e in Visible(list)
        ensures HasEntry(list, e)
      {
        VisibleIsFound(list, e);
      }
      if FindOid(list, plain).Some? {
        var o := FindOid(list, plain).value;
        var e := Entry(plain, !o.kind.Leaf?, o.id);
        VisibleIsFound(list, e);
        assert e in Listing(root, dir);
      } else if dir == KernId(root) {
        var e := Entry("random", true, RANDOM);
        assert Listing(root, dir)[|Visible(list)|] == e;
      }
    }
  }

  lemma {:induction false} LeavesFound(leaves: seq<Entry>, name: string, id: nat)
    requires forall i, j :: 0 <= i < j < |leaves| ==> leaves[i].name != leaves[j].name
    ensures FindLeaf(leaves, name) == Some(id) <==> exists e :: e in leaves && e.name == name && e.id == id
  {
    if leaves != [] {
      LeavesFound(leaves[1..], name, id);
      assert leaves == [leaves[0]] + leaves[1..];
    }
  }

  lemma {:induction false} VisibleIds(list: Oids, k: nat)
    requires k < |Visible(list)|
    ensures Visible(list)[k].id in Ids(list)
  {
    if Hidden(list) {
      VisibleIds(list.next, k);
    } else if k > 0 {
      VisibleIds(list.next, k - 1);
    }
  }

  lemma {:induction false} VisibleOnce(list: Oids, j: nat, k: nat)
    requires Distinct(list) && j < k < |Visible(list)|
    ensures Visible(list)[j].id != Visible(list)[k].id
  {
    if Hidden(list) {
      VisibleOnce(list.next, j, k);
    } else if j > 0 {
      VisibleOnce(list.next, j - 1, k - 1);
    } else {
      VisibleIds(list.next, k - 1);
    }
  }

  /** Listed names are plain ones: no dots, and no alias. */
  lemma ListedNameOk(root: Oids, dir: nat, k: nat)
    requires TreeOk(root) && k < |Listing(root, dir)|
    ensures GoodName(Listing(root, dir)[k].name)
    ensures Unaliased(dir, Listing(root, dir)[k].name) == Listing(root, dir)[k].name
  {
    var e := Listing(root, dir)[k];
    if dir != RANDOM {
      var list := ChildList(root, dir).value;
      ChildListOk(root, dir);
      KernOrRoot(root);
      if k < |Visible(list)| {
        assert e in Visible(list);
        VisibleIsFound(list, e);
        FoundIsIn(list, e.name);
      }
    }
  }

  /** No object is listed twice in a directory. */
  lemma ListedOnce(root: Oids, dir: nat, j: nat, k: nat)
    requires TreeOk(root) && j < k < |Listing(root, dir)|
    ensures Listing(root, dir)[j].id != Listing(root, dir)[k].id
  {
    if dir != RANDOM {
      var list := ChildList(root, dir).value;
      ChildListOk(root, dir);
      VisibleIds(list, j);
      RealIds(list, Visible(list)[j].id);
      if k < |Visible(list)| {
        VisibleOnce(list, j, k);
      }
    }
  }

  /** The kind listed for a child is the kind it has. */
  lemma ListedKind(root: Oids, dir: nat, e: Entry)
    requires TreeOk(root) && e in Listing(root, dir)
    ensures e.isNode == IsNode(root, e.id) && e.id != 0
  {
    if dir != RANDOM && e in Visible(ChildList(root, dir).value) {
      var list := ChildList(root, dir).value;
      ChildListOk(root, dir);
      VisibleIsFound(list, e);
      FoundIsIn(list, e.name);
      RealIds(list, e.id);
      SameOid(root, dir, e.id);
    }
  }

  /** An address means the same oid in the whole tree as in the list it lies in. */
  lemma SameOid(root: Oids, dir: nat, id: nat)
    requires TreeOk(root) && ChildList(root, dir).Some? && id in Ids(ChildList(root, dir).value)
    ensures Deref(root, id) == Deref(ChildList(root, dir).value, id)
  {
    if dir != 0 {
      DerefBelow(root, dir, id);
    }
  }

  lemma {:induction false} DerefBelow(list: Oids, dir: nat, id: nat)
    requires Distinct(list) && Deref(list, dir).Some? && id in Ids(Deref(list, dir).value.kids)
    ensures id in Ids(list) && Deref(list, id) == Deref(Deref(list, dir).value.kids, id)
  {
    DerefOk(list, dir);
    DerefIn(list.kids, id);
    if list.id != dir {
      if Deref(list.kids, dir).Some? {
        DerefOk(list.kids, dir);
        DerefBelow(list.kids, dir, id);
      } else {
        DerefOk(list.next, dir);
        DerefBelow(list.next, dir, id);
      }
    } else {
      DerefIn(list, id);
    }
  }

  // ----- parent -----

  lemma {:induction false} NoParentOutside(list: Oids, parent: nat, id: nat)
    requires id !in Ids(list)
    ensures FindParent(list, parent, id).None?
  {
    if list.Oid? {
      NoParentOutside(list.kids, list.id, id);
      NoParentOutside(list.next, parent, id);
    }
  }

  lemma {:induction false} ParentOfMember(list: Oids, parent: nat, name: string)
    requires Distinct(list) && FindOid(list, name).Some?
    ensures FindParent(list, parent, FindOid(list, name).value.id) == Some(parent)
  {
    if Hidden(list) || list.name != Some(name) {
      FoundIsIn(list.next, name);
      ParentOfMember(list.next, parent, name);
      NoParentOutside(list.kids, list.id, FindOid(list, name).value.id);
    }
  }

  lemma {:induction false} ParentOfKid(list: Oids, parent: nat, dir: nat, name: string)
    requires Distinct(list) && Deref(list, dir).Some? && FindOid(Deref(list, dir).value.kids, name).Some?
    ensures FindParent(list, parent, FindOid(Deref(list, dir).value.kids, name).value.id) == Some(dir)
  {
    var kids := Deref(list, dir).value.kids;
    var id := FindOid(kids, name).value.id;
    FoundIsIn(kids, name);
    DerefOk(list, dir);
    if list.id == dir {
      ParentOfMember(list.kids, dir, name);
    } else if Deref(list.kids, dir).Some? {
      DerefOk(list.kids, dir);
      ParentOfKid(list.kids, list.id, dir, name);
    } else {
      DerefOk(list.next, dir);
      ParentOfKid(list.next, parent, dir, name);
      NoParentOutside(list.kids, list.id, id);
    }
  }

  lemma {:induction false} ParentHasKids(list: Oids, parent: nat, id: nat)
    requires Distinct(list) && FindParent(list, parent, id).Some?
    ensures var p := FindParent(list, parent, id).value;
            p == parent || (p in Ids(list) && Deref(list, p).Some? && Deref(list, p).value.kind.Node?)
  {
    if list.id != id {
      var p := FindParent(list, parent, id).value;
      if list.kind.Node? && FindParent(list.kids, list.id, id).Some? {
        ParentHasKids(list.kids, list.id, id);
      } else {
        ParentHasKids(list.next, parent, id);
        DerefIn(list.kids, p);
      }
    }
  }

  /** What going up leads to is a directory. */
  lemma ParentIsNode(root: Oids, id: nat)
    requires TreeOk(root) && Parent(root, id).Some?
    ensures IsNode(root, Parent(root, id).value)
  {
    KernOrRoot(root);
    FoundIsIn(root, "kern");
    if id > RANDOM && !Synthetic(id) {
      ParentHasKids(root, 0, id);
      var p := Parent(root, id).value;
      if p != 0 {
        RealIds(root, p);
      }
    }
  }

  /** The only alias is `kernel` for `kern`, and only in /proc/sys itself; every other name is found exactly
      when it is listed. */
  lemma FindByName(root: Oids, dir: nat, name: string, id: nat)
    requires TreeOk(root)
    ensures dir == 0 && name == "kernel" ==> Find(root, dir, name) == Some(KernId(root))
    ensures dir != 0 || name != "kernel" ==>
              (Find(root, dir, name) == Some(id) <==>
               exists e :: e in Listing(root, dir) && e.name == name && e.id == id)
  {
    FindIffListed(root, dir, name, id);
  }

  /** Going up undoes looking up: in the tree, into `random` and inside it. */
  lemma ParentInvertsFind(root: Oids, dir: nat, name: string)
    requires TreeOk(root) && Find(root, dir, name).Some?
    ensures Parent(root, Find(root, dir, name).value) == Some(dir)
    ensures Find(root, dir, name).value != 0
  {
    var plain := Unaliased(dir, name);
    if dir == RANDOM {
      LeavesAreSynthetic(RandomLeaves, plain);
    } else {
      var list := ChildList(root, dir).value;
      ChildListOk(root, dir);
      if FindOid(list, plain).Some? {
        FoundIsIn(list, plain);
        RealIds(list, FindOid(list, plain).value.id);
        if dir == 0 {
          ParentOfMember(list, 0, plain);
        } else {
          ParentOfKid(root, 0, dir, plain);
        }
      }
    }
  }

  lemma {:induction false} LeavesAreSynthetic(leaves: seq<Entry>, name: string)
    requires forall e :: e in leaves ==> RANDOM < e.id < SYNTHETIC_END
    requires FindLeaf(leaves, name).Some?
    ensures RANDOM < FindLeaf(leaves, name).value < SYNTHETIC_END
  {
    if leaves[0].name != name {
      LeavesAreSynthetic(leaves[1..], name);
    }
  }

  /** An object is found in one directory only, under one name and its alias. */
  lemma FoundOnce(root: Oids, dir: nat, name: string, other: nat, otherName: string)
    requires TreeOk(root) && Find(root, dir, name).Some? && Find(root, other, otherName) == Find(root, dir, name)
    ensures dir == other && Unaliased(dir, name) == Unaliased(other, otherName)
  {
    ParentInvertsFind(root, dir, name);
    ParentInvertsFind(root, other, otherName);
    var j := ListedAt(root, dir, name);
    var k := ListedAt(root, dir, otherName);
    if j < k {
      ListedOnce(root, dir, j, k);
    } else if k < j {
      ListedOnce(root, dir, k, j);
    }
  }

  lemma ListedAt(root: Oids, dir: nat, name: string) returns (k: nat)
    requires TreeOk(root) && Find(root, dir, name).Some?
    ensures k < |Listing(root, dir)|
    ensures Listing(root, dir)[k].name == Unaliased(dir, name)
    ensures Some(Listing(root, dir)[k].id) == Find(root, dir, name)
  {
    var id := Find(root, dir, name).value;
    FindIffListed(root, dir, name, id);
    var e :| e in Listing(root, dir) && e.name == Unaliased(dir, name) && e.id == id;
    k :| 0 <= k < |Listing(root, dir)| && Listing(root, dir)[k] == e;
  }

  // ----- whole paths -----

  /** Looking up one component after another. */
  function Walk(root: Oids, dir: nat, path: seq<string>): Option<nat>
    decreases |path|
  {
    if path == [] then Some(dir)
    else match Find(root, dir, path[0])
      case None => None
      case Some(id) => Walk(root, id, path[1..])
  }

  /** Going up `n` times. */
  function Climb(root: Oids, id: nat, n: nat): Option<nat>
    decreases n
  {
    if n == 0 then Some(id)
    else match Parent(root, id)
      case None => None
      case Some(up) => Climb(root, up, n - 1)
  }

  lemma {:induction false} WalkLast(root: Oids, dir: nat, path: seq<string>, last: string)
    requires Walk(root, dir, path + [last]).Some?
    ensures Walk(root, dir, path).Some?
    ensures Find(root, Walk(root, dir, path).value, last) == Walk(root, dir, path + [last])
    decreases |path|
  {
    if path == [] {
      assert path + [last] == [last];
    } else {
      assert (path + [last])[1..] == path[1..] + [last];
      WalkLast(root, Find(root, dir, path[0]).value, path[1..], last);
    }
  }

  /** From anywhere a path leads, going up once per component returns to where it started. */
  lemma {:induction false} ClimbUndoesWalk(root: Oids, dir: nat, path: seq<string>)
    requires TreeOk(root) && Walk(root, dir, path).Some?
    ensures Climb(root, Walk(root, dir, path).value, |path|) == Some(dir)
    ensures path != [] ==> Walk(root, dir, path).value != 0
    decreases |path|
  {
    if path != [] {
      var init, last := path[..|path| - 1], path[|path| - 1];
      assert path == init + [last];
      WalkLast(root, dir, init, last);
      ParentInvertsFind(root, Walk(root, dir, init).value, last);
      ClimbUndoesWalk(root, dir, init);
    }
  }

  /** The path with `kern` for a leading `kernel`. */
  function Plain(path: seq<string>): seq<string> {
    if path == [] then [] else [Unaliased(0, path[0])] + path[1..]
  }

  /** Two paths to one object are the same path, up to the alias. */
  lemma {:induction false} PathUnique(root: Oids, p: seq<string>, q: seq<string>)
    requires TreeOk(root) && Walk(root, 0, p).Some? && Walk(root, 0, q) == Walk(root, 0, p)
    ensures Plain(p) == Plain(q)
    decreases |p|
  {
    ClimbUndoesWalk(root, 0, p);
    ClimbUndoesWalk(root, 0, q);
    if p != [] && q != [] {
      var pi, pl := p[..|p| - 1], p[|p| - 1];
      var qi, ql := q[..|q| - 1], q[|q| - 1];
      assert p == pi + [pl] && q == qi + [ql];
      WalkLast(root, 0, pi, pl);
      WalkLast(root, 0, qi, ql);
      FoundOnce(root, Walk(root, 0, pi).value, pl, Walk(root, 0, qi).value, ql);
      PathUnique(root, pi, qi);
      ClimbUndoesWalk(root, 0, pi);
      ClimbUndoesWalk(root, 0, qi);
      PlainLast(pi, pl);
      PlainLast(qi, ql);
    }
  }

  lemma PlainLast(path: seq<string>, last: string)
    ensures Plain(path + [last]) == if path == [] then [Unaliased(0, last)] else Plain(path) + [last]
  {
    if path == [] {
      assert path + [last] == [last];
    } else {
      assert (path + [last])[1..] == path[1..] + [last];
    }
  }
}
