/**
 Which names readdir lists (kext/procfs_vnops.c, procfs_vnop_readdir), said without the walk: those of
 the children that are not hidden, in order, and behind them one for each process, thread or
 descriptor that the last child stands for.
 */
module ListingComplete {
  import opened Common
  import opened Numbers
  import opened Structure
  import opened Lookup
  import opened LookupTheorems
  import opened Readdir
  import opened Listing
  import Sysctl

  function NamesOf(es: seq<Entry>): (ns: seq<string>)
    ensures |ns| == |es|
  {
    seq(|es|, i requires 0 <= i < |es| => es[i].name)
  }

  lemma NamesJoin(a: seq<Entry>, b: seq<Entry>)
    ensures NamesOf(a + b) == NamesOf(a) + NamesOf(b)
  {
  }

  /** The child is listed under its own name. */
  predicate OwnName(w: World, t: Tree, c: nat) {
    c < |t| && t[c].name !in w.hidden && !Expands(t[c].kind)
  }

  function PlainNames(w: World, t: Tree, cs: seq<nat>): seq<string> {
    if cs == [] then []
    else if OwnName(w, t, cs[0]) then [t[cs[0]].name] + PlainNames(w, t, cs[1..])
    else PlainNames(w, t, cs[1..])
  }

  function Decimals(ids: seq<nat>): seq<string> {
    seq(|ids|, i requires 0 <= i < |ids| => Decimal(ids[i]))
  }

  /** The names that a child which expands stands for: those of the visible processes, of the threads or
      of the descriptors of the directory's process. */
  function ManyNames(w: World, n: PNode, s: SNode): seq<string>
    requires WorldOk(w)
  {
    if s.name in w.hidden then []
    else match s.kind
      case Proc =>
        var pids := ListedPids(w);
        seq(|pids|, i requires 0 <= i < |pids| => Decimal(pids[i]))
      case ProcByName =>
        var pids := ListedPids(w);
        seq(|pids|, i requires 0 <= i < |pids| => Decimal(pids[i]) + (" " + w.processes[pids[i]].comm))
      case Thread =>
        if n.id.pid in w.processes && w.processes[n.id.pid].threads.Some?
        then Decimals(w.processes[n.id.pid].threads.value) else []
      case Fd =>
        if n.id.pid in w.processes then
          var fds := w.processes[n.id.pid].fds;
          assert NumbersOk(w.processes[n.id.pid]);
          seq(|fds|, i requires 0 <= i < |fds| => Decimal(fds[i]))
        else []
      case _ => []
  }

  function LastMany(w: World, t: Tree, n: PNode, cs: seq<nat>): seq<string>
    requires WorldOk(w)
  {
    if cs == [] || cs[|cs| - 1] >= |t| then [] else ManyNames(w, n, t[cs[|cs| - 1]])
  }

  /** The directory belongs to no process, or to one that the caller may see. */
  predicate CallerSees(w: World, n: PNode) {
    n.id.pid == NO_PID || !w.check || (n.id.pid in w.processes && w.processes[n.id.pid].accessible)
  }

  lemma ManyShown(w: World, t: Tree, n: PNode, s: SNode)
    requires WorldOk(w) && TreeOk(t) && n.snode < |t| && CallerSees(w, n) && Expands(s.kind)
    ensures NamesOf(Listed([Shown(w, t, n, s)])) == ManyNames(w, n, s)
    ensures Dynamic(Shown(w, t, n, s)) || Shown(w, t, n, s).Skipped? || Shown(w, t, n, s).Broken?
  {
    assert [Shown(w, t, n, s)][1..] == [];
    if n.id.pid in w.processes { assert NumbersOk(w.processes[n.id.pid]); }
  }

  lemma OneShown(w: World, t: Tree, n: PNode, c: nat)
    requires WorldOk(w) && TreeOk(t) && n.snode < |t| && CallerSees(w, n) && c < |t|
    requires !Expands(t[c].kind) && !t[c].kind.Root?
    ensures var child := Shown(w, t, n, t[c]);
            if OwnName(w, t, c) then child.Plain? && child.entry.name == t[c].name else child.Skipped?
  {
  }

  /** The names from child `k` on. */
  lemma {:induction false} NamesFrom(w: World, t: Tree, n: PNode, k: nat)
    requires Listable(w, t, n) && CallerSees(w, n) && k <= |t[n.snode].children|
    ensures var cs := t[n.snode].children[k..];
            NamesOf(Listed(Children(w, t, n)[k..])) == PlainNames(w, t, cs) + LastMany(w, t, n, cs)
    decreases |t[n.snode].children| - k
  {
    var all, cs := Children(w, t, n), t[n.snode].children;
    assert ChildrenOk(t, n.snode);
    if k < |cs| {
      var c := cs[k];
      assert all[k..][0] == Shown(w, t, n, t[c]) && all[k..][1..] == all[k + 1..];
      assert cs[k..][0] == c && cs[k..][1..] == cs[k + 1..];
      ChildPlaced(t, n.snode, c);
      if Expands(t[c].kind) {
        assert k == |cs| - 1;
        assert all[k..] == [Shown(w, t, n, t[c])];
        ManyShown(w, t, n, t[c]);
        assert PlainNames(w, t, cs[k..]) == [];
      } else {
        NamesFrom(w, t, n, k + 1);
        OneShown(w, t, n, c);
        LastManyRest(w, t, n, cs[k..]);
        OneMore(w, t, cs[k..], all[k..], LastMany(w, t, n, cs[k..]));
      }
    }
  }

  /** One child that does not expand in front of others. */
  lemma OneMore(w: World, t: Tree, cs: seq<nat>, shown: seq<Child>, many: seq<string>)
    requires cs != [] && shown != []
    requires if OwnName(w, t, cs[0]) then shown[0].Plain? && shown[0].entry.name == t[cs[0]].name else shown[0].Skipped?
    requires NamesOf(Listed(shown[1..])) == PlainNames(w, t, cs[1..]) + many
    ensures NamesOf(Listed(shown)) == PlainNames(w, t, cs) + many
  {
    if OwnName(w, t, cs[0]) {
      NamesJoin([shown[0].entry], Listed(shown[1..]));
      Regroup(t[cs[0]].name, PlainNames(w, t, cs[1..]), many);
    }
  }

  lemma LastManyRest(w: World, t: Tree, n: PNode, cs: seq<nat>)
    requires WorldOk(w) && cs != [] && cs[0] < |t| && !Expands(t[cs[0]].kind)
    ensures LastMany(w, t, n, cs) == LastMany(w, t, n, cs[1..])
  {
  }

  lemma Regroup(a: string, b: seq<string>, c: seq<string>)
    ensures [a] + (b + c) == ([a] + b) + c
  {
  }

  /** Readdir lists exactly the names of the children that are not hidden and do not expand, in their order,
      and then the names that the last child stands for, in theirs; in the directory of a process that
      the caller may not see it lists nothing. */
  lemma ListedNames(w: World, t: Tree, n: PNode)
    requires Listable(w, t, n)
    ensures var cs := t[n.snode].children;
            NamesOf(Listed(Children(w, t, n))) ==
              if CallerSees(w, n) then PlainNames(w, t, cs) + LastMany(w, t, n, cs) else []
  {
    var all, cs := Children(w, t, n), t[n.snode].children;
    if CallerSees(w, n) {
      NamesFrom(w, t, n, 0);
      assert all[0..] == all && cs[0..] == cs;
    } else {
      AllSkipped(all);
    }
  }

  lemma {:induction false} AllSkipped(cs: seq<Child>)
    requires forall i :: 0 <= i < |cs| ==> cs[i].Skipped?
    ensures Listed(cs) == []
  {
    if cs != [] { AllSkipped(cs[1..]); }
  }

  // ----- once each -----

  predicate Apart(t: Tree, cs: seq<nat>) {
    forall i, j :: 0 <= i < j < |cs| && cs[i] < |t| && cs[j] < |t| ==> t[cs[i]].name != t[cs[j]].name
  }

  lemma {:induction false} PlainFrom(w: World, t: Tree, cs: seq<nat>, i: nat) returns (k: nat)
    requires i < |PlainNames(w, t, cs)|
    ensures k < |cs| && OwnName(w, t, cs[k]) && t[cs[k]].name == PlainNames(w, t, cs)[i]
  {
    if OwnName(w, t, cs[0]) && i == 0 {
      k := 0;
    } else {
      var j := PlainFrom(w, t, cs[1..], if OwnName(w, t, cs[0]) then i - 1 else i);
      k := j + 1;
    }
  }

  /** A child's name comes once. */
  lemma {:induction false} PlainOnce(w: World, t: Tree, cs: seq<nat>, k: nat) returns (i: nat)
    requires Apart(t, cs) && k < |cs| && OwnName(w, t, cs[k])
    ensures i < |PlainNames(w, t, cs)| && PlainNames(w, t, cs)[i] == t[cs[k]].name
    ensures forall j :: 0 <= j < |PlainNames(w, t, cs)| && j != i ==> PlainNames(w, t, cs)[j] != t[cs[k]].name
  {
    var rest := cs[1..];
    if k == 0 {
      i := 0;
      forall j | 0 < j < |PlainNames(w, t, cs)|
        ensures PlainNames(w, t, cs)[j] != t[cs[k]].name
      {
        var m := PlainFrom(w, t, rest, j - 1);
        assert cs[m + 1] == rest[m];
      }
    } else {
      var r := PlainOnce(w, t, rest, k - 1);
      i := if OwnName(w, t, cs[0]) then r + 1 else r;
    }
  }

  lemma ManyDigits(w: World, n: PNode, s: SNode, i: nat)
    requires WorldOk(w) && i < |ManyNames(w, n, s)|
    ensures ManyNames(w, n, s)[i] != "" && IsDigit(ManyNames(w, n, s)[i][0])
  {
    match s.kind
    case Proc => DecimalDigits(ListedPids(w)[i]);
    case ProcByName => DecimalDigits(ListedPids(w)[i]);
    case Thread => DecimalDigits(w.processes[n.id.pid].threads.value[i]);
    case Fd =>
      assert NumbersOk(w.processes[n.id.pid]);
      DecimalDigits(w.processes[n.id.pid].fds[i]);
  }

  /** Every child that is not hidden and does not expand has exactly one entry with its name. */
  lemma ListedOnce(w: World, t: Tree, n: PNode, k: nat) returns (i: nat)
    requires Listable(w, t, n) && CallerSees(w, n)
    requires k < |t[n.snode].children| && OwnName(w, t, t[n.snode].children[k])
    ensures var es, name := Listed(Children(w, t, n)), t[t[n.snode].children[k]].name;
            i < |es| && es[i].name == name && forall j :: 0 <= j < |es| && j != i ==> es[j].name != name
  {
    var cs, name := t[n.snode].children, t[t[n.snode].children[k]].name;
    assert ChildrenOk(t, n.snode);
    forall i, j | 0 <= i < j < |cs| ensures t[cs[i]].name != t[cs[j]].name { SiblingNames(t, n.snode, i); }
    ListedNames(w, t, n);
    i := PlainOnce(w, t, cs, k);
    SiblingNames(t, n.snode, k);
    forall j | 0 <= j < |LastMany(w, t, n, cs)|
      ensures LastMany(w, t, n, cs)[j] != name
    {
      ManyDigits(w, n, t[cs[|cs| - 1]], j);
    }
    OnceInBoth(Listed(Children(w, t, n)), PlainNames(w, t, cs), LastMany(w, t, n, cs), i, name);
  }

  lemma OnceInBoth(es: seq<Entry>, plain: seq<string>, many: seq<string>, i: nat, name: string)
    requires NamesOf(es) == plain + many && i < |plain| && plain[i] == name
    requires forall j :: 0 <= j < |plain| && j != i ==> plain[j] != name
    requires forall j :: 0 <= j < |many| ==> many[j] != name
    ensures i < |es| && es[i].name == name && forall j :: 0 <= j < |es| && j != i ==> es[j].name != name
  {
    forall j | 0 <= j < |es|
      ensures es[j].name == if j < |plain| then plain[j] else many[j - |plain|]
    {
      assert es[j].name == NamesOf(es)[j];
    }
  }

  // ----- /proc/sys -----

  /** A sysctl directory lists its two dot entries and every oid that is shown, in order, and nothing else. */
  lemma SysctlNames(w: World, t: Tree, n: PNode)
    requires SysctlDirectory(w, t, n)
    ensures NamesOf(SysctlEntries(w, t, n)) == [".", ".."] + OidNames(Sysctl.Listing(w.oids, n.id.objectId))
  {
  }

  function OidNames(es: seq<Sysctl.Entry>): seq<string> {
    seq(|es|, i requires 0 <= i < |es| => es[i].name)
  }

  /** So a name other than the dot entries is found there if and only if it, or what it is an alias of, is
      listed. */
  lemma SysctlFoundIffListed(w: World, t: Tree, n: PNode, name: string)
    requires SysctlDirectory(w, t, n) && name != "" && !Dots(name)
    ensures LookedUp(w, t, n, name).Found? <==>
            Sysctl.Unaliased(n.id.objectId, name) in OidNames(Sysctl.Listing(w.oids, n.id.objectId))
    ensures LookedUp(w, t, n, name).Failed? ==> LookedUp(w, t, n, name) == Failed(ENOENT)
  {
    var dir := n.id.objectId;
    var es, plain := Sysctl.Listing(w.oids, dir), Sysctl.Unaliased(dir, name);
    if LookedUp(w, t, n, name).Found? {
      var id := Sysctl.Find(w.oids, dir, name).value;
      Sysctl.FindIffListed(w.oids, dir, name, id);
      var e :| e in es && e.name == plain && e.id == id;
      var i :| 0 <= i < |es| && es[i] == e;
      assert OidNames(es)[i] == plain;
    }
    if plain in OidNames(es) {
      var i :| 0 <= i < |es| && OidNames(es)[i] == plain;
      Sysctl.FindIffListed(w.oids, dir, name, es[i].id);
    }
  }
}
