/**
 Which processes readdir lists (kext/procfs_subr.c, procfs_get_pids): the first 1024 that the caller may
 see, by rising pid.
 */
module PidList {
  import opened Common
  import opened Numbers
  import opened Structure
  import opened Lookup
  import opened LookupTheorems
  import opened Listing
  import opened LookupExact
  import Sysctl

  lemma {:induction false} SeenExact(w: World, n: nat, pid: int)
    requires n <= PID_LIMIT
    ensures pid in Seen(w, AllPids()[..n]) <==> 0 <= pid < n && Visible(w, pid)
  {
    if n > 0 {
      var all := AllPids();
      SeenExact(w, n - 1, pid);
      assert all[..n][..n - 1] == all[..n - 1];
    }
  }

  /** How many processes below `pid` the caller may see. */
  function SeenBelow(w: World, pid: nat): nat
    requires pid <= PID_LIMIT
  {
    |Seen(w, AllPids()[..pid])|
  }

  lemma {:induction false} SeenRises(w: World, n: nat, i: nat, j: nat)
    requires n <= PID_LIMIT && i < j < |Seen(w, AllPids()[..n])|
    ensures Seen(w, AllPids()[..n])[i] < Seen(w, AllPids()[..n])[j]
  {
    var all := AllPids();
    assert all[..n][..n - 1] == all[..n - 1];
    var front := Seen(w, all[..n - 1]);
    if j < |front| {
      SeenRises(w, n - 1, i, j);
    } else {
      SeenExact(w, n - 1, front[i]);
    }
  }

  /** Pids are listed in rising order, so each once. */
  lemma ListedRising(w: World, i: nat, j: nat)
    requires i < j < |ListedPids(w)|
    ensures ListedPids(w)[i] < ListedPids(w)[j]
  {
    assert AllPids()[..PID_LIMIT] == AllPids();
    SeenRises(w, PID_LIMIT, i, j);
  }

  /** The process with this pid stands behind those seen below it. */
  lemma SeenAt(w: World, pid: nat)
    requires pid < PID_LIMIT && Visible(w, pid)
    ensures SeenBelow(w, pid) < |Seen(w, AllPids())| && Seen(w, AllPids())[SeenBelow(w, pid)] == pid
  {
    var all := AllPids();
    assert all[..pid + 1][..pid] == all[..pid];
    SeenPrefix(w, all, pid + 1);
  }

  /** A process is listed if and only if the caller may see it, its pid is below 100000 and fewer than 1024
      processes that the caller may see have a smaller pid. */
  lemma ListedPidsExact(w: World, pid: int)
    ensures pid in ListedPids(w) <==> Visible(w, pid) && 0 <= pid < PID_LIMIT && SeenBelow(w, pid) < MAX_LISTED
  {
    var all, pids := AllPids(), Seen(w, AllPids());
    assert all[..PID_LIMIT] == all;
    SeenExact(w, PID_LIMIT, pid);
    if Visible(w, pid) && 0 <= pid < PID_LIMIT {
      SeenAt(w, pid);
      var k := SeenBelow(w, pid);
      if k < MAX_LISTED {
        assert ListedPids(w)[k] == pid;
      }
      if i :| 0 <= i < |ListedPids(w)| && ListedPids(w)[i] == pid {
        if i < k { SeenRises(w, PID_LIMIT, i, k); }
        if k < i { SeenRises(w, PID_LIMIT, k, i); }
      }
    }
  }

  /** All processes that the caller may see, of pids below 100000, are listed exactly when there are no more
      than 1024 of them. */
  lemma AllListedExact(w: World)
    ensures (forall pid :: Visible(w, pid) && 0 <= pid < PID_LIMIT ==> pid in ListedPids(w)) <==>
            |Seen(w, AllPids())| <= MAX_LISTED
  {
    var pids := Seen(w, AllPids());
    assert AllPids()[..PID_LIMIT] == AllPids();
    if |pids| <= MAX_LISTED {
      forall pid | Visible(w, pid) && 0 <= pid < PID_LIMIT
        ensures pid in ListedPids(w)
      {
        SeenExact(w, PID_LIMIT, pid);
      }
    } else {
      var pid := pids[MAX_LISTED];
      SeenExact(w, PID_LIMIT, pid);
      if pid in ListedPids(w) {
        var i :| 0 <= i < |ListedPids(w)| && ListedPids(w)[i] == pid;
        SeenRises(w, PID_LIMIT, i, MAX_LISTED);
      }
    }
  }

  function CrowdPids(): seq<int> {
    AllPids()[..MAX_LISTED + 1]
  }

  /** 1025 processes, with pids from 0 on, and no access check. */
  function Crowded(oids: Sysctl.Oids): World {
    World({}, false, map pid | pid in CrowdPids() :: Process("sh", [], None, true), 0, oids)
  }

  lemma CrowdOk(oids: Sysctl.Oids)
    requires Sysctl.TreeOk(oids)
    ensures WorldOk(Crowded(oids)) && forall pid :: 0 <= pid <= MAX_LISTED ==> Visible(Crowded(oids), pid)
  {
    forall pid | 0 <= pid <= MAX_LISTED ensures Visible(Crowded(oids), pid) { assert CrowdPids()[pid] == pid; }
  }

  lemma {:induction false} CrowdSeen(w: World, n: nat)
    requires n <= PID_LIMIT && forall pid :: 0 <= pid < n ==> Visible(w, pid)
    ensures SeenBelow(w, n) == n
  {
    if n > 0 {
      CrowdSeen(w, n - 1);
      assert Visible(w, n - 1);
      assert AllPids()[..n][..n - 1] == AllPids()[..n - 1];
    }
  }

  /** There the last process is found by its number but not listed. */
  lemma NotAllListed(t: Tree, c: nat, oids: Sysctl.Oids)
    requires Built(t) && NamedBelow(t, c, 0, "__Process__", Proc) && Sysctl.TreeOk(oids)
    ensures var w := Crowded(oids);
            && 1024 !in ListedPids(w)
            && LookedUp(w, t, RootNode, Decimal(1024)) == Found(PNode(c, NodeId(1024, NO_OBJECT, t[c].base)))
  {
    var w := Crowded(oids);
    CrowdOk(oids);
    CrowdSeen(w, MAX_LISTED);
    ListedPidsExact(w, MAX_LISTED);
    FoundInRoot(w, t, c, MAX_LISTED);
  }

  lemma FoundInRoot(w: World, t: Tree, c: nat, pid: nat)
    requires WorldOk(w) && Built(t) && NamedBelow(t, c, 0, "__Process__", Proc) && t[c].name !in w.hidden
    requires Visible(w, pid)
    ensures LookedUp(w, t, RootNode, Decimal(pid)) == Found(PNode(c, NodeId(pid, NO_OBJECT, t[c].base)))
  {
    RootGood(t);
    assert NodeOk(t, 0) && NodeOk(t, c) && ChildrenOk(t, 0);
    var k: nat :| k < |t[0].children| && t[0].children[k] == c;
    assert Decimal(pid) + "" == Decimal(pid);
    ProcessFound(w, t, RootNode, k, pid, "");
  }
}
