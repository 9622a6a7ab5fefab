/**
 The dotted MIB name that the mirror rebuilds for an oid (kext/procfs_sysctl.c,
 procfs_sysctl_build_name), and the path it stands for.
 */
module SysctlNames {
  import opened Common
  import opened Sysctl

  // ----- dotted names -----

  function Join(path: seq<string>): string {
    if path == [] then ""
    else if |path| == 1 then path[0]
    else path[0] + "." + Join(path[1..])
  }

  function Split(s: string): (r: seq<string>)
    ensures |r| > 0
  {
    if s == "" then [""]
    else if s[0] == '.' then [""] + Split(s[1..])
    else [[s[0]] + Split(s[1..])[0]] + Split(s[1..])[1..]
  }

  lemma {:induction false} JoinSplit(s: string)
    ensures Join(Split(s)) == s
  {
    if s != "" {
      var rest := Split(s[1..]);
      JoinSplit(s[1..]);
      if s[0] == '.' {
        assert Split(s)[1..] == rest;
        assert "" + "." + s[1..] == s;
      } else {
        assert Split(s)[1..] == rest[1..];
        assert s == [s[0]] + s[1..];
        assert |rest| > 1 ==> s == ([s[0]] + rest[0]) + "." + Join(rest[1..]);
      }
    }
  }

  lemma {:induction false} SplitName(name: string, rest: string)
    requires '.' !in name
    ensures Split(name) == [name]
    ensures Split(name + "." + rest) == [name] + Split(rest)
  {
    var s := name + "." + rest;
    if name == "" {
      assert s[1..] == rest;
    } else {
      SplitName(name[1..], rest);
      assert s[1..] == name[1..] + "." + rest;
      assert [name[0]] + name[1..] == name;
    }
  }

  lemma {:induction false} SplitJoin(path: seq<string>)
    requires path != [] && forall n :: n in path ==> '.' !in n
    ensures Split(Join(path)) == path
  {
    if |path| == 1 {
      SplitName(path[0], "");
    } else {
      SplitJoin(path[1..]);
      SplitName(path[0], Join(path[1..]));
    }
  }

  lemma ClipTwice(a: string, b: string, n: nat)
    ensures Clip(Clip(a, n) + b, n) == Clip(a + b, n)
  {
    if |a| > n {
      assert (a[..n] + b)[..n] == (a + b)[..n];
    }
  }

  lemma PlainShorter(path: seq<string>)
    ensures |Join(Plain(path))| <= |Join(path)|
  {
    if path != [] {
      assert Plain(path)[1..] == path[1..];
    }
  }

  // ----- paths inside one list -----

  /** The path leads, through visible oids only, from the list to the oid `id`. */
  predicate PathIn(list: Oids, path: seq<string>, id: nat)
    decreases |path|
  {
    && path != []
    && FindOid(list, path[0]).Some?
    && var o := FindOid(list, path[0]).value;
       if |path| == 1 then o.id == id else o.kind.Node? && PathIn(o.kids, path[1..], id)
  }

  lemma {:induction false} FoundKids(list: Oids, name: string, id: nat)
    requires FindOid(list, name).Some? && id in Ids(FindOid(list, name).value.kids)
    ensures id in Ids(list)
  {
    if Hidden(list) || list.name != Some(name) {
      FoundKids(list.next, name, id);
    }
  }

  lemma {:induction false} PathEndsIn(list: Oids, path: seq<string>, id: nat)
    requires PathIn(list, path, id)
    ensures id in Ids(list)
    decreases |path|
  {
    FoundIsIn(list, path[0]);
    if |path| > 1 {
      PathEndsIn(FindOid(list, path[0]).value.kids, path[1..], id);
      FoundKids(list, path[0], id);
    }
  }

  lemma {:induction false} PathNamesGood(list: Oids, path: seq<string>, id: nat)
    requires NamesOk(list) && PathIn(list, path, id)
    ensures forall n :: n in path ==> GoodName(n)
    decreases |path|
  {
    FoundIsIn(list, path[0]);
    if |path| > 1 {
      PathNamesGood(FindOid(list, path[0]).value.kids, path[1..], id);
      assert path == [path[0]] + path[1..];
    }
  }

  // ----- the rebuilt name -----

  lemma {:induction false} NoNameOutside(list: Oids, prefix: string, id: nat)
    requires id !in Ids(list)
    ensures BuildName(list, prefix, id).None?
  {
    if list.Oid? {
      NoNameOutside(list.next, prefix, id);
      if list.name.Some? {
        NoNameOutside(list.kids, Clip(Under(prefix, list.name.value), PATH_MAX_CHARS), id);
      }
    }
  }

  function Under(prefix: string, s: string): string {
    if prefix != "" then prefix + "." + s else s
  }

  /** Cutting the path of a node before its child is added makes no difference to the cut path of the child. */
  lemma ClipUnder(prefix: string, a: string, b: string, n: nat)
    requires a != "" && n > 0
    ensures Clip(Under(Clip(Under(prefix, a), n), b), n) == Clip(Under(prefix, a + "." + b), n)
  {
    var here := Under(prefix, a);
    ClipTwice(here, "." + b, n);
    Regroup(Clip(here, n), b);
    Regroup(here, b);
    UnderAppend(prefix, a, "." + b);
    Regroup(a, b);
  }

  lemma Regroup(a: string, b: string)
    ensures a + "." + b == a + ("." + b)
  {
  }

  lemma UnderAppend(prefix: string, a: string, rest: string)
    ensures Under(prefix, a + rest) == Under(prefix, a) + rest
  {
    assert prefix + "." + (a + rest) == prefix + "." + a + rest;
  }

  lemma {:induction false} NameOfPath(list: Oids, prefix: string, path: seq<string>, id: nat)
    requires Distinct(list) && NamesOk(list) && PathIn(list, path, id)
    ensures BuildName(list, prefix, id) == Some(Clip(Under(prefix, Join(path)), PATH_MAX_CHARS))
  {
    if Hidden(list) || list.name != Some(path[0]) {
      PathEndsIn(list.next, path, id);
      NameOfPath(list.next, prefix, path, id);
      if list.name.Some? {
        NoNameOutside(list.kids, Clip(Under(prefix, list.name.value), PATH_MAX_CHARS), id);
      }
    } else if |path| > 1 {
      PathEndsIn(list.kids, path[1..], id);
      NameOfPath(list.kids, Clip(Under(prefix, path[0]), PATH_MAX_CHARS), path[1..], id);
      ClipUnder(prefix, path[0], Join(path[1..]), PATH_MAX_CHARS);
    }
  }

  // ----- walks are paths -----

  function PlainFrom(dir: nat, path: seq<string>): seq<string>
    requires path != []
  {
    [Unaliased(dir, path[0])] + path[1..]
  }

  /** Nothing real lies below `random`. */
  lemma SyntheticWalk(root: Oids, path: seq<string>)
    requires TreeOk(root) && Walk(root, RANDOM, path).Some?
    ensures Synthetic(Walk(root, RANDOM, path).value)
  {
    if path != [] {
      LeavesAreSynthetic(RandomLeaves, path[0]);
      var leaf := Find(root, RANDOM, path[0]).value;
      DerefIn(root, leaf);
      if leaf in Ids(root) {
        RealIds(root, leaf);
      }
    }
  }

  lemma {:induction false} WalkIsPath(root: Oids, dir: nat, path: seq<string>)
    requires TreeOk(root) && path != [] && Walk(root, dir, path).Some?
    requires ChildList(root, dir).Some? && Walk(root, dir, path).value >= SYNTHETIC_END && dir != RANDOM
    ensures PathIn(ChildList(root, dir).value, PlainFrom(dir, path), Walk(root, dir, path).value)
    decreases |path|
  {
    var list, name := ChildList(root, dir).value, Unaliased(dir, path[0]);
    ChildListOk(root, dir);
    var next := Find(root, dir, path[0]).value;
    if FindOid(list, name).None? {
      SyntheticWalk(root, path[1..]);
    } else {
      FoundIsIn(list, name);
      RealIds(list, next);
      SameOid(root, dir, next);
      if |path| > 1 {
        WalkIsPath(root, next, path[1..]);
        assert PlainFrom(next, path[1..]) == path[1..];
        assert PlainFrom(dir, path)[1..] == path[1..];
      }
    }
  }

  /** An oid that lookup reaches is given the name of its path, cut to the buffer. */
  lemma NameIsPath(root: Oids, path: seq<string>)
    requires TreeOk(root) && Walk(root, 0, path).Some? && Walk(root, 0, path).value >= SYNTHETIC_END
    ensures BuildName(root, "", Walk(root, 0, path).value) == Some(Clip(Join(Plain(path)), PATH_MAX_CHARS))
    ensures Plain(path) != [] && forall n :: n in Plain(path) ==> GoodName(n)
  {
    WalkIsPath(root, 0, path);
    assert PlainFrom(0, path) == Plain(path);
    NameOfPath(root, "", Plain(path), Walk(root, 0, path).value);
    PathNamesGood(root, Plain(path), Walk(root, 0, path).value);
  }

  lemma WalkPlain(root: Oids, path: seq<string>)
    ensures Walk(root, 0, Plain(path)) == Walk(root, 0, path)
  {
    if path != [] {
      assert Plain(path)[1..] == path[1..];
      assert Find(root, 0, Plain(path)[0]) == Find(root, 0, path[0]);
    }
  }

  /** Following the rebuilt name finds the oid again exactly when the whole name fits the buffer. */
  lemma NameFollowsBack(root: Oids, path: seq<string>)
    requires TreeOk(root) && Walk(root, 0, path).Some? && Walk(root, 0, path).value >= SYNTHETIC_END
    ensures var id := Walk(root, 0, path).value;
            && BuildName(root, "", id).Some?
            && (Walk(root, 0, Split(BuildName(root, "", id).value)) == Some(id)
                <==> |Join(Plain(path))| <= PATH_MAX_CHARS)
  {
    var full := Join(Plain(path));
    var name := Clip(full, PATH_MAX_CHARS);
    NameIsPath(root, path);
    if |full| <= PATH_MAX_CHARS {
      SplitJoin(Plain(path));
      WalkPlain(root, path);
    } else if Walk(root, 0, Split(name)) == Walk(root, 0, path) {
      PathUnique(root, Split(name), path);
      JoinSplit(name);
      PlainShorter(Split(name));
    }
  }
}
