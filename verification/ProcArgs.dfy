/**
 Splitting a process's flattened argument region (kext/procfs_cmdline.c, procfs_read_procargs):

   argc | exec path NUL padding | argv strings | env strings | apple strings

 The region carries no section lengths; the three offsets are found by counting argc strings and
 by looking for the first string that starts with "executable_path=".
 */
module ProcArgs {
  import opened Common

  /** "executable_path=" */
  const KEY: seq<Byte> := [101, 120, 101, 99, 117, 116, 97, 98, 108, 101, 95, 112, 97, 116, 104, 61]

  /** End of the string at `pos`: its NUL, or the end of the buffer (strnlen). */
  function NulFrom(b: seq<Byte>, pos: nat): (e: nat)
    requires pos <= |b|
    ensures pos <= e <= |b|
    decreases |b| - pos
  {
    if pos == |b| || b[pos] == 0 then pos else NulFrom(b, pos + 1)
  }

  /** First byte at or after `pos` that is not a NUL. */
  function SkipNuls(b: seq<Byte>, pos: nat): (e: nat)
    requires pos <= |b|
    ensures pos <= e <= |b|
    decreases |b| - pos
  {
    if pos == |b| || b[pos] != 0 then pos else SkipNuls(b, pos + 1)
  }

  /** Start of the string after the one at `pos`. */
  function NextString(b: seq<Byte>, pos: nat): (e: nat)
    requires pos <= |b|
    ensures pos <= e <= |b| && (pos < |b| ==> pos < e)
  {
    var e := NulFrom(b, pos);
    if e < |b| then e + 1 else e
  }

  function SkipStrings(b: seq<Byte>, pos: nat, count: nat): (e: nat)
    requires pos <= |b|
    ensures pos <= e <= |b|
    decreases count
  {
    if count == 0 || pos == |b| then pos else SkipStrings(b, NextString(b, pos), count - 1)
  }

  predicate KeyAt(b: seq<Byte>, key: seq<Byte>, pos: nat) {
    pos + |key| <= |b| && b[pos..pos + |key|] == key
  }

  /** First string at or after `pos` that starts with the key, or the end of the buffer. */
  function AppleFrom(b: seq<Byte>, key: seq<Byte>, pos: nat): (e: nat)
    requires pos <= |b|
    ensures pos <= e <= |b|
    decreases |b| - pos
  {
    if pos == |b| then pos
    else if KeyAt(b, key, pos) then pos
    else
      var e := NulFrom(b, pos);
      if e == |b| then |b| else AppleFrom(b, key, e + 1)
  }

  /** The leading int: four bytes, little-endian, two's complement. */
  function Argc(b: seq<Byte>): int
    requires |b| >= 4
  {
    var n := (b[0] as int) + 0x100 * (b[1] as int) + 0x1_0000 * (b[2] as int) + 0x100_0000 * (b[3] as int);
    if n < 0x8000_0000 then n else n - TWO32
  }

  /** An int as the kernel writes it: two's complement, little-endian. */
  function IntBytes(n: int): (b: seq<Byte>)
    requires -0x8000_0000 <= n < 0x8000_0000
    ensures |b| == 4
  {
    Bytes4(if n < 0 then n + TWO32 else n)
  }

  /** Every int reads back, whatever follows it. */
  lemma ArgcReadsBack(n: int, rest: seq<Byte>)
    requires -0x8000_0000 <= n < 0x8000_0000
    ensures Argc(IntBytes(n) + rest) == n
  {
    var b := IntBytes(n) + rest;
    assert b[0] == IntBytes(n)[0] && b[1] == IntBytes(n)[1] && b[2] == IntBytes(n)[2] && b[3] == IntBytes(n)[3];
    var u := if n < 0 then n + TWO32 else n;
    assert u / 0x100_0000 == u / 0x1_0000 / 0x100 && u / 0x1_0000 == u / 0x100 / 0x100;
  }

  /** The count is not positive when its top bit is set or all its bytes are 0. */
  lemma ArgcSign(b: seq<Byte>)
    requires |b| >= 4
    ensures Argc(b) <= 0 <==> b[3] >= 0x80 || b[..4] == [0, 0, 0, 0]
  {
    assert b[..4] == [b[0], b[1], b[2], b[3]];
  }

  datatype Sections = Invalid(errno: int) | Sections(argv: nat, env: nat, apple: nat)

  function ArgvOffset(b: seq<Byte>): (pos: nat)
    requires |b| >= 4
    ensures 4 <= pos <= |b|
  {
    var e := NulFrom(b, 4);
    if e < |b| then SkipNuls(b, e + 1) else e
  }

  function Located(b: seq<Byte>): Sections {
    if |b| < 4 || Argc(b) <= 0 then Invalid(EINVAL)
    else
      var argv := ArgvOffset(b);
      var env := SkipStrings(b, argv, Argc(b));
      Sections(argv, env, AppleFrom(b, KEY, env))
  }

  /** strnlen of the bytes from `pos` on. */
  method StringLength(b: seq<Byte>, pos: nat) returns (n: nat)
    requires pos <= |b|
    ensures pos + n == NulFrom(b, pos)
  {
    n := 0;
    while pos + n < |b| && b[pos + n] != 0
      invariant pos + n <= |b| && NulFrom(b, pos) == NulFrom(b, pos + n)
    {
      n := n + 1;
    }
  }

  /** Past the exec path, its NUL and the alignment padding. */
  method FindArgv(b: seq<Byte>) returns (pos: nat)
    requires |b| >= 4
    ensures pos == ArgvOffset(b)
  {
    pos := 4;
    var pathlen := StringLength(b, pos);
    pos := pos + pathlen;
    if pos < |b| {
      pos := pos + 1;
      while pos < |b| && b[pos] == 0
        invariant 4 <= pos <= |b| && ArgvOffset(b) == SkipNuls(b, pos)
      {
        pos := pos + 1;
      }
    }
  }

  /** Past argc strings. */
  method FindEnv(b: seq<Byte>, argv: nat, argc: nat) returns (pos: nat)
    requires argv <= |b|
    ensures pos == SkipStrings(b, argv, argc)
  {
    pos := argv;
    var got := 0;
    while got < argc && pos < |b|
      invariant 0 <= got <= argc && argv <= pos <= |b|
      invariant SkipStrings(b, argv, argc) == SkipStrings(b, pos, argc - got)
    {
      var remaining := |b| - pos;
      var arglen := StringLength(b, pos);
      if arglen < remaining {
        arglen := arglen + 1;
      }
      pos := pos + arglen;
      got := got + 1;
    }
  }

  /** To the first string that starts with the key. */
  method FindApple(b: seq<Byte>, key: seq<Byte>, env: nat) returns (apple: nat)
    requires env <= |b|
    ensures apple == AppleFrom(b, key, env)
  {
    apple := |b|;
    var scan := env;
    while scan < |b|
      invariant env <= scan <= |b| && apple == |b|
      invariant AppleFrom(b, key, env) == AppleFrom(b, key, scan)
    {
      var remaining := |b| - scan;
      if KeyAt(b, key, scan) {
        return scan;
      }
      var slen := StringLength(b, scan);
      if slen == remaining {
        return;
      }
      scan := scan + slen + 1;
    }
  }

  /** procfs_read_procargs, once the region is in the buffer. The three spans partition the tail. */
  method Locate(b: seq<Byte>) returns (r: Sections)
    ensures r == Located(b)
    ensures r.Invalid? <==> |b| < 4 || b[3] >= 0x80 || b[..4] == [0, 0, 0, 0]
    ensures r.Sections? ==> 4 <= r.argv <= r.env <= r.apple <= |b|
    ensures r.Sections? ==> b[r.argv..] == b[r.argv..r.env] + b[r.env..r.apple] + b[r.apple..]
  {
    if |b| < 4 {
      return Invalid(EINVAL);
    }
    var argc := Argc(b);
    ArgcSign(b);
    if argc <= 0 {
      return Invalid(EINVAL);
    }
    var argv := FindArgv(b);
    var env := FindEnv(b, argv, argc);
    var apple := FindApple(b, KEY, env);
    r := Sections(argv, env, apple);
    Partition(b, argv, env, apple);
  }

  lemma Partition(b: seq<Byte>, x: nat, y: nat, z: nat)
    requires x <= y <= z <= |b|
    ensures b[x..] == b[x..y] + b[y..z] + b[z..]
  {
  }

  // ----- encoding -----

  predicate NulFree(s: seq<Byte>) {
    0 !in s
  }

  predicate AllNulFree(l: seq<seq<Byte>>) {
    forall i :: 0 <= i < |l| ==> NulFree(l[i])
  }

  /** NUL-terminated strings one after another. */
  function Strings(l: seq<seq<Byte>>): seq<Byte> {
    if l == [] then [] else l[0] + [0] + Strings(l[1..])
  }

  datatype Image = Image(path: seq<Byte>, padding: nat,
                         argv: seq<seq<Byte>>, env: seq<seq<Byte>>, apple: seq<seq<Byte>>)

  /** What the kernel can produce: an int counts argv, and the strings have no NUL inside. */
  predicate ImageOk(m: Image) {
    && 0 < |m.argv| < 0x8000_0000
    && NulFree(m.path) && AllNulFree(m.argv) && AllNulFree(m.env) && AllNulFree(m.apple)
  }

  function Zeros(n: nat): seq<Byte> {
    seq(n, _ => 0)
  }

  function Head(m: Image): seq<Byte>
    requires ImageOk(m)
  {
    IntBytes(|m.argv|) + (m.path + [0] + Zeros(m.padding))
  }

  function Flatten(m: Image): seq<Byte>
    requires ImageOk(m)
  {
    Head(m) + (Strings(m.argv) + (Strings(m.env) + Strings(m.apple)))
  }

  /** Where the sections start in the flattened image. */
  function Starts(m: Image): Sections
    requires ImageOk(m)
  {
    var a := |Head(m)|;
    var e := a + |Strings(m.argv)|;
    Sections(a, e, e + |Strings(m.env)|)
  }

  predicate StartsWith(s: seq<Byte>, key: seq<Byte>) {
    |s| >= |key| && s[..|key|] == key
  }

  /** What makes the boundaries recognisable. */
  predicate Recognisable(m: Image)
    requires m.argv != []
  {
    && m.argv[0] != []
    && (forall i :: 0 <= i < |m.env| ==> !StartsWith(m.env[i], KEY))
    && (m.apple != [] ==> StartsWith(m.apple[0], KEY))
  }

  // ----- splitting undoes flattening -----

  lemma {:induction false} NulFromIs(b: seq<Byte>, pos: nat, e: nat)
    requires pos <= e < |b| && b[e] == 0 && forall i :: pos <= i < e ==> b[i] != 0
    ensures NulFrom(b, pos) == e
    decreases e - pos
  {
    if pos < e {
      NulFromIs(b, pos + 1, e);
    }
  }

  /** A NUL-free string and its NUL at `pos`. */
  lemma StringEnds(b: seq<Byte>, pos: nat, s: seq<Byte>)
    requires NulFree(s) && pos + |s| + 1 <= |b| && b[pos..pos + |s| + 1] == s + [0]
    ensures NulFrom(b, pos) == pos + |s| && NextString(b, pos) == pos + |s| + 1
  {
    var t := b[pos..pos + |s| + 1];
    assert forall i :: 0 <= i < |s| ==> b[pos + i] == t[i] == s[i];
    forall i | pos <= i < pos + |s| ensures b[i] != 0 { assert b[i] == s[i - pos]; }
    assert b[pos + |s|] == t[|s|] == 0;
    NulFromIs(b, pos, pos + |s|);
  }

  lemma KeyInString(b: seq<Byte>, key: seq<Byte>, pos: nat, s: seq<Byte>)
    requires NulFree(key) && pos + |s| + 1 <= |b| && b[pos..pos + |s| + 1] == s + [0]
    ensures KeyAt(b, key, pos) <==> StartsWith(s, key)
  {
    var n := |key|;
    var t := b[pos..pos + |s| + 1];
    if |s| >= n {
      assert b[pos..pos + n] == t[..n] == s[..n];
    } else if pos + n <= |b| {
      assert b[pos..pos + n][|s|] == b[pos + |s|] == t[|s|] == 0;
      assert key[|s|] in key;
    }
  }

  /** Splitting off the first of several strings. */
  lemma FirstString(b: seq<Byte>, pos: nat, l: seq<seq<Byte>>, rest: seq<Byte>)
    requires l != [] && pos <= |b| && b[pos..] == Strings(l) + rest
    ensures pos + |l[0]| + 1 <= |b| && b[pos..pos + |l[0]| + 1] == l[0] + [0]
    ensures b[pos + |l[0]| + 1..] == Strings(l[1..]) + rest
    ensures |Strings(l)| == |l[0]| + 1 + |Strings(l[1..])|
  {
    var first := l[0] + [0];
    assert Strings(l) + rest == first + (Strings(l[1..]) + rest);
    SplitSuffix(b, pos, first, Strings(l[1..]) + rest);
  }

  /** The strings of `l` lie one after another from `pos` on, as far as the scanners can tell. */
  predicate Lie(b: seq<Byte>, key: seq<Byte>, pos: nat, l: seq<seq<Byte>>)
    decreases |l|
  {
    && pos <= |b|
    && (l != [] ==>
          && pos + |l[0]| < |b| && NulFrom(b, pos) == pos + |l[0]|
          && (KeyAt(b, key, pos) <==> StartsWith(l[0], key))
          && Lie(b, key, pos + |l[0]| + 1, l[1..]))
  }

  lemma {:induction false} StringsLie(b: seq<Byte>, key: seq<Byte>, pos: nat, l: seq<seq<Byte>>, rest: seq<Byte>)
    requires NulFree(key) && AllNulFree(l) && pos <= |b| && b[pos..] == Strings(l) + rest
    ensures Lie(b, key, pos, l)
    decreases |l|
  {
    if l != [] {
      FirstString(b, pos, l, rest);
      FirstLies(b, key, pos, l[0]);
      StringsLie(b, key, pos + |l[0]| + 1, l[1..], rest);
    }
  }

  lemma FirstLies(b: seq<Byte>, key: seq<Byte>, pos: nat, s: seq<Byte>)
    requires NulFree(key) && NulFree(s) && pos + |s| + 1 <= |b| && b[pos..pos + |s| + 1] == s + [0]
    ensures NulFrom(b, pos) == pos + |s| && (KeyAt(b, key, pos) <==> StartsWith(s, key))
  {
    StringEnds(b, pos, s);
    KeyInString(b, key, pos, s);
  }

  lemma {:induction false} SkipsAll(b: seq<Byte>, key: seq<Byte>, pos: nat, l: seq<seq<Byte>>)
    requires Lie(b, key, pos, l)
    ensures SkipStrings(b, pos, |l|) == pos + |Strings(l)|
    decreases |l|
  {
    if l != [] {
      SkipsAll(b, key, pos + |l[0]| + 1, l[1..]);
    }
  }

  /** One string of the scan. */
  lemma ScanOne(b: seq<Byte>, key: seq<Byte>, pos: nat, l: seq<seq<Byte>>)
    requires Lie(b, key, pos, l) && l != []
    ensures pos + |l[0]| + 1 <= |b| && Lie(b, key, pos + |l[0]| + 1, l[1..])
    ensures AppleFrom(b, key, pos) ==
              if StartsWith(l[0], key) then pos else AppleFrom(b, key, pos + |l[0]| + 1)
    ensures |Strings(l)| == |l[0]| + 1 + |Strings(l[1..])|
  {
  }

  /** The scan passes over strings that do not start with the key. */
  lemma {:induction false} ScanPasses(b: seq<Byte>, key: seq<Byte>, pos: nat, l: seq<seq<Byte>>)
    requires Lie(b, key, pos, l) && forall i :: 0 <= i < |l| ==> !StartsWith(l[i], key)
    ensures pos + |Strings(l)| <= |b| && AppleFrom(b, key, pos) == AppleFrom(b, key, pos + |Strings(l)|)
    decreases |l|
  {
    if l != [] {
      ScanOne(b, key, pos, l);
      ScanPasses(b, key, pos + |l[0]| + 1, l[1..]);
    }
  }

  /** The scan stops early at a string that does. */
  lemma {:induction false} ScanStops(b: seq<Byte>, key: seq<Byte>, pos: nat, l: seq<seq<Byte>>, i: nat)
    requires Lie(b, key, pos, l) && i < |l| && StartsWith(l[i], key)
    ensures AppleFrom(b, key, pos) < pos + |Strings(l)|
    decreases |l|
  {
    ScanOne(b, key, pos, l);
    if !StartsWith(l[0], key) {
      assert l[1..][i - 1] == l[i];
      ScanStops(b, key, pos + |l[0]| + 1, l[1..], i - 1);
    }
  }

  lemma {:induction false} SkipNulsIs(b: seq<Byte>, pos: nat, e: nat)
    requires pos <= e < |b| && forall i :: pos <= i < e ==> b[i] == 0
    ensures SkipNuls(b, pos) == e <==> b[e] != 0
    decreases e - pos
  {
    if pos < e {
      SkipNulsIs(b, pos + 1, e);
    }
  }

  /** Where the bytes of the flattened image lie. */
  lemma HeadAt(m: Image)
    requires ImageOk(m)
    ensures var b := Flatten(m); var p := 4 + |m.path|;
      && |Head(m)| == p + 1 + m.padding <= |b| && Argc(b) == |m.argv|
      && (forall i :: 4 <= i < p ==> b[i] != 0) && b[p] == 0
      && (forall i :: p < i < |Head(m)| ==> b[i] == 0)
      && b[|Head(m)|..] == Strings(m.argv) + (Strings(m.env) + Strings(m.apple))
  {
    var b, h, p := Flatten(m), Head(m), 4 + |m.path|;
    assert b[..|h|] == h && forall i :: 0 <= i < |h| ==> b[i] == h[i];
    var tail := m.path + [0] + Zeros(m.padding);
    ArgcReadsBack(|m.argv|, tail + (Strings(m.argv) + (Strings(m.env) + Strings(m.apple))));
    assert b == IntBytes(|m.argv|) + (tail + (Strings(m.argv) + (Strings(m.env) + Strings(m.apple))));
    forall i | 0 <= i < |tail| ensures h[4 + i] == tail[i] {}
    forall i | 4 <= i < p ensures b[i] != 0 {
      assert h[i] == tail[i - 4] == m.path[i - 4] && m.path[i - 4] in m.path;
    }
    assert h[p] == tail[|m.path|] == 0;
    forall i | p < i < |h| ensures b[i] == 0 { assert h[i] == tail[i - 4] == Zeros(m.padding)[i - p - 1]; }
  }

  lemma ArgvExact(m: Image)
    requires ImageOk(m)
    ensures |Flatten(m)| >= 4 && (ArgvOffset(Flatten(m)) == |Head(m)| <==> m.argv[0] != [])
  {
    var b, p := Flatten(m), 4 + |m.path|;
    HeadAt(m);
    NulFromIs(b, 4, p);
    FirstString(b, |Head(m)|, m.argv, Strings(m.env) + Strings(m.apple));
    SkipNulsIs(b, p + 1, |Head(m)|);
    var s := m.argv[0];
    assert b[|Head(m)|] == (s + [0])[0];
    if s != [] { assert s[0] in s; }
  }

  lemma AppleExact(b: seq<Byte>, key: seq<Byte>, pos: nat, env: seq<seq<Byte>>, apple: seq<seq<Byte>>)
    requires Lie(b, key, pos, env) && Lie(b, key, pos + |Strings(env)|, apple)
    requires apple == [] ==> pos + |Strings(env)| == |b|
    ensures AppleFrom(b, key, pos) == pos + |Strings(env)| <==>
      (forall i :: 0 <= i < |env| ==> !StartsWith(env[i], key)) && (apple != [] ==> StartsWith(apple[0], key))
  {
    if i :| 0 <= i < |env| && StartsWith(env[i], key) {
      ScanStops(b, key, pos, env, i);
    } else {
      ScanPasses(b, key, pos, env);
    }
  }

  /** Three lists of strings after one another lie one after another. */
  lemma ListsLie(b: seq<Byte>, key: seq<Byte>, p: nat, argv: seq<seq<Byte>>, env: seq<seq<Byte>>, apple: seq<seq<Byte>>)
    requires NulFree(key) && AllNulFree(argv) && AllNulFree(env) && AllNulFree(apple)
    requires p <= |b| && b[p..] == Strings(argv) + (Strings(env) + Strings(apple))
    ensures var e := p + |Strings(argv)|; var a := e + |Strings(env)|;
      Lie(b, key, p, argv) && Lie(b, key, e, env) && Lie(b, key, a, apple) && a + |Strings(apple)| == |b|
  {
    var e := p + |Strings(argv)|;
    StringsLie(b, key, p, argv, Strings(env) + Strings(apple));
    SplitSuffix(b, p, Strings(argv), Strings(env) + Strings(apple));
    LastListsLie(b, key, e, env, apple);
  }

  lemma LastListsLie(b: seq<Byte>, key: seq<Byte>, e: nat, env: seq<seq<Byte>>, apple: seq<seq<Byte>>)
    requires NulFree(key) && AllNulFree(env) && AllNulFree(apple)
    requires e <= |b| && b[e..] == Strings(env) + Strings(apple)
    ensures var a := e + |Strings(env)|;
      Lie(b, key, e, env) && Lie(b, key, a, apple) && a + |Strings(apple)| == |b|
  {
    StringsLie(b, key, e, env, Strings(apple));
    SplitSuffix(b, e, Strings(env), Strings(apple));
    assert Strings(apple) == Strings(apple) + [];
    StringsLie(b, key, e + |Strings(env)|, apple, []);
  }

  /** Which offsets are found when the strings lie from `p` on. */
  lemma LocatedExact(b: seq<Byte>, p: nat, argv: seq<seq<Byte>>, env: seq<seq<Byte>>, apple: seq<seq<Byte>>)
    requires |b| >= 4 && argv != [] && Argc(b) == |argv|
    requires var e := p + |Strings(argv)|; var a := e + |Strings(env)|;
      Lie(b, KEY, p, argv) && Lie(b, KEY, e, env) && Lie(b, KEY, a, apple) && (apple == [] ==> a == |b|)
    ensures var e := p + |Strings(argv)|;
      Located(b) == Sections(p, e, e + |Strings(env)|) <==>
        && ArgvOffset(b) == p
        && (forall i :: 0 <= i < |env| ==> !StartsWith(env[i], KEY))
        && (apple != [] ==> StartsWith(apple[0], KEY))
  {
    var e := p + |Strings(argv)|;
    SkipsAll(b, KEY, p, argv);
    AppleExact(b, KEY, e, env, apple);
    FoundExact(b, p, e, e + |Strings(env)|);
  }

  lemma FoundExact(b: seq<Byte>, p: nat, e: nat, a: nat)
    requires |b| >= 4 && Argc(b) > 0 && p <= |b| && e <= |b| && SkipStrings(b, p, Argc(b)) == e
    ensures Located(b) == Sections(p, e, a) <==> ArgvOffset(b) == p && AppleFrom(b, KEY, e) == a
  {
  }

  /** For every image the three offsets are the starts of its sections exactly when argv[0] is not
      empty, no environment string looks like apple[0], and apple[0], if any, does. */
  lemma SplitExact(m: Image)
    requires ImageOk(m)
    ensures Located(Flatten(m)) == Starts(m) <==> Recognisable(m)
  {
    var b, h := Flatten(m), |Head(m)|;
    HeadAt(m);
    ArgvExact(m);
    StringsLocated(b, h, m.argv, m.env, m.apple);
  }

  lemma StringsLocated(b: seq<Byte>, p: nat, argv: seq<seq<Byte>>, env: seq<seq<Byte>>, apple: seq<seq<Byte>>)
    requires |b| >= 4 && argv != [] && Argc(b) == |argv|
    requires AllNulFree(argv) && AllNulFree(env) && AllNulFree(apple)
    requires p <= |b| && b[p..] == Strings(argv) + (Strings(env) + Strings(apple))
    ensures var e := p + |Strings(argv)|;
      Located(b) == Sections(p, e, e + |Strings(env)|) <==>
        && ArgvOffset(b) == p
        && (forall i :: 0 <= i < |env| ==> !StartsWith(env[i], KEY))
        && (apple != [] ==> StartsWith(apple[0], KEY))
  {
    KeyNulFree();
    ListsLie(b, KEY, p, argv, env, apple);
    LocatedExact(b, p, argv, env, apple);
  }

  lemma KeyNulFree()
    ensures NulFree(KEY)
  {
  }

  /** Splitting undoes flattening: the spans are the argument, environment and apple strings. */
  lemma SplitUndoesFlatten(m: Image)
    requires ImageOk(m) && Recognisable(m)
    ensures var b, r := Flatten(m), Located(Flatten(m));
      && r.Sections? && r.argv <= r.env <= r.apple <= |b|
      && b[r.argv..r.env] == Strings(m.argv) && b[r.env..r.apple] == Strings(m.env) && b[r.apple..] == Strings(m.apple)
  {
    SplitExact(m);
    SpansOfFlatten(m);
  }

  lemma SpansOfFlatten(m: Image)
    requires ImageOk(m)
    ensures var b, r := Flatten(m), Starts(m);
      && r.argv <= r.env <= r.apple <= |b|
      && b[r.argv..r.env] == Strings(m.argv) && b[r.env..r.apple] == Strings(m.env) && b[r.apple..] == Strings(m.apple)
  {
    var b, h := Flatten(m), |Head(m)|;
    SplitSuffix(b, h, Strings(m.argv), Strings(m.env) + Strings(m.apple));
    SplitSuffix(b, h + |Strings(m.argv)|, Strings(m.env), Strings(m.apple));
  }
}
