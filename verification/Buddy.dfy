/**
 The free-block counts of /proc/buddyinfo (kext/procfs_linux.c, procfs_dobuddyinfo): the free page
 count split greedily into blocks of 2^order pages, largest order first.
 */
module Buddy {

  const ORDERS := 11

  function BlockSize(order: nat): (blk: nat)
    ensures blk > 0
  {
    if order == 0 then 1 else 2 * BlockSize(order - 1)
  }

  /** Pages in the blocks of order `k` and above. */
  function Pages(count: seq<nat>, k: nat): nat
    decreases |count| - k
  {
    if k >= |count| then 0 else count[k] * BlockSize(k) + Pages(count, k + 1)
  }

  /** Blocks of order `k` and above. */
  function Blocks(count: seq<nat>, k: nat): nat
    decreases |count| - k
  {
    if k >= |count| then 0 else count[k] + Blocks(count, k + 1)
  }

  /** No two blocks below the largest order could be joined. */
  predicate Coalesced(count: seq<nat>, k: nat) {
    forall j :: k <= j < |count| - 1 ==> count[j] <= 1
  }

  /** What the blocks placed so far, above order `k`, and the pages remaining satisfy. */
  predicate Placed(free: nat, count: seq<nat>, k: nat, remaining: nat) {
    && k <= |count|
    && free == Pages(count, k) + remaining
    && (k < |count| ==> remaining < BlockSize(k))
    && Coalesced(count, k)
  }

  method FillCounts(free: nat) returns (count: array<nat>)
    ensures count.Length == ORDERS
    ensures Pages(count[..], 0) == free
    ensures Coalesced(count[..], 0)
  {
    count := new nat[ORDERS];
    var remaining := free;
    var order := count.Length - 1;
    while order >= 0
      invariant -1 <= order < count.Length
      invariant Placed(free, count[..], order + 1, remaining)
    {
      var blocks, rest := Divide(remaining, BlockSize(order));
      PlaceOrder(free, count[..], order, remaining, blocks, rest);
      count[order] := blocks;
      remaining := rest;
      order := order - 1;
    }
  }

  method Divide(n: nat, blk: nat) returns (q: nat, r: nat)
    requires blk > 0
    ensures n == q * blk + r && r < blk
  {
    q, r := n / blk, n % blk;
  }

  lemma AtMostOne(blocks: nat, blk: nat)
    ensures blocks * blk < 2 * blk ==> blocks <= 1
  {
    assert blocks > 1 ==> blocks * blk >= 2 * blk;
  }

  lemma PlaceOrder(free: nat, count: seq<nat>, order: nat, remaining: nat, blocks: nat, rest: nat)
    requires order < |count| && Placed(free, count, order + 1, remaining)
    requires remaining == blocks * BlockSize(order) + rest && rest < BlockSize(order)
    ensures Placed(free, count[order := blocks], order, rest)
  {
    PagesDependAbove(count, count[order := blocks], order + 1);
    AtMostOne(blocks, BlockSize(order));
  }

  lemma {:induction false} PagesDependAbove(c: seq<nat>, d: seq<nat>, k: nat)
    requires |c| == |d| && forall j :: k <= j < |c| ==> c[j] == d[j]
    ensures Pages(c, k) == Pages(d, k)
    decreases |c| - k
  {
    if k < |c| {
      PagesDependAbove(c, d, k + 1);
    }
  }

  /** Pages counted in units of the smallest block considered. */
  function Units(count: seq<nat>, k: nat): nat
    decreases |count| - k
  {
    if k >= |count| then 0 else count[k] + 2 * Units(count, k + 1)
  }

  lemma {:induction false} PagesAreUnits(count: seq<nat>, k: nat)
    ensures Pages(count, k) == BlockSize(k) * Units(count, k)
    decreases |count| - k
  {
    if k < |count| {
      PagesAreUnits(count, k + 1);
      var rest := Units(count, k + 1);
      assert BlockSize(k + 1) * rest == BlockSize(k) * (2 * rest);
    }
  }

  /** `d` is short of `c` by `spare` single blocks of order `k`, so it has no fewer blocks than `c` less those. */
  lemma {:induction false} NoFewer(c: seq<nat>, d: seq<nat>, k: nat, spare: nat)
    requires |c| == |d| && Coalesced(c, k)
    requires Units(c, k) == Units(d, k) + spare
    ensures Blocks(c, k) <= Blocks(d, k) + spare
    ensures spare == 0 && Blocks(c, k) == Blocks(d, k) ==> forall j :: k <= j < |c| ==> c[j] == d[j]
    decreases |c| - k
  {
    if k + 1 < |c| {
      assert c[k] <= 1;
      assert (d[k] + spare - c[k]) % 2 == 0;
      NoFewer(c, d, k + 1, (d[k] + spare - c[k]) / 2);
    }
  }

  /** A coalesced split uses the fewest blocks, and is the only one that does. */
  lemma FewestBlocks(c: seq<nat>, d: seq<nat>)
    requires |c| == |d| && Pages(c, 0) == Pages(d, 0) && Coalesced(c, 0)
    ensures Blocks(c, 0) <= Blocks(d, 0)
    ensures Blocks(c, 0) == Blocks(d, 0) <==> c == d
    ensures Coalesced(d, 0) ==> c == d
  {
    PagesAreUnits(c, 0);
    PagesAreUnits(d, 0);
    NoFewer(c, d, 0, 0);
    if Coalesced(d, 0) {
      NoFewer(d, c, 0, 0);
    }
  }
}
