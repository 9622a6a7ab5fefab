/**
 Replies longer than one payload. The daemon serves slices of a listing that it builds when asked
 for offset 0 (tools/procfsd.c, blob_slice and the request loop); the kernel asks for successive
 offsets until a short slice (kext/procfs_ctl.c, procfs_ctl_request_blob).

 Whether the k-th request fails, and with which errno, is the parameter `rc`.
 */
module Transfer {
  import opened Common

  datatype Result = Err(errno: int) | Ok(data: seq<Byte>)

  /** blob_slice: at most one payload from `off` on, nothing at or past the end. */
  function Slice(blob: seq<Byte>, off: nat): (s: seq<Byte>)
    ensures |s| <= MAX_PAYLOAD
    ensures |s| < MAX_PAYLOAD <==> |blob| < off + MAX_PAYLOAD
  {
    if off < |blob| then Clip(blob[off..], MAX_PAYLOAD) else []
  }

  lemma SliceExtends(blob: seq<Byte>, off: nat)
    requires off <= |blob|
    ensures off + |Slice(blob, off)| <= |blob|
    ensures blob[..off] + Slice(blob, off) == blob[..off + |Slice(blob, off)|]
    ensures |Slice(blob, off)| < MAX_PAYLOAD ==> off + |Slice(blob, off)| == |blob|
  {
  }

  /** A request for a listing, and the listing that the daemon would build for it now. */
  datatype ListingRequest = ListingRequest(kind: int, off: nat, listing: seq<Byte>)

  /** The listing of a kind that the daemon keeps, empty before the first one is built. */
  function Kept(blobs: map<int, seq<Byte>>, kind: int): seq<Byte> {
    if kind in blobs then blobs[kind] else []
  }

  /** The daemon's listings, one for each kind, kept from one request to the next. */
  class Daemon {
    var blobs: map<int, seq<Byte>>

    constructor ()
      ensures blobs == map[]
    {
      blobs := map[];
    }

    method Serve(q: ListingRequest) returns (chunk: seq<Byte>)
      modifies this
      ensures blobs == if q.off == 0 then old(blobs)[q.kind := q.listing] else old(blobs)
      ensures chunk == Slice(Kept(blobs, q.kind), q.off)
    {
      if q.off == 0 {
        blobs := blobs[q.kind := q.listing];
      }
      if q.kind in blobs {
        chunk := Slice(blobs[q.kind], q.off);
      } else {
        chunk := [];
      }
    }

    /** Requests of other readers that come in between. */
    method ServeOthers(others: seq<ListingRequest>, kind: int)
      modifies this
      ensures Kept(blobs, kind) == LastBuilt(others, kind, old(Kept(blobs, kind)))
    {
      for i := 0 to |others|
        invariant Kept(blobs, kind) == LastBuilt(others[..i], kind, old(Kept(blobs, kind)))
      {
        var chunk := Serve(others[i]);
        assert others[..i + 1][..i] == others[..i];
      }
      assert others[..|others|] == others;
    }
  }

  /** A reader starts over, so that the daemon rebuilds the listing. */
  predicate Restarts(q: ListingRequest, kind: int) {
    q.kind == kind && q.off == 0
  }

  /** The listing that the daemon keeps after these requests, having kept `kept` before them. */
  function LastBuilt(reqs: seq<ListingRequest>, kind: int, kept: seq<Byte>): seq<Byte> {
    if reqs == [] then kept
    else
      var last := reqs[|reqs| - 1];
      if Restarts(last, kind) then last.listing else LastBuilt(reqs[..|reqs| - 1], kind, kept)
  }

  /** One reader of a listing: what is built for its first request, and the requests others(k) that
      other readers make between its requests k and k + 1. */
  datatype Reading = Reading(kind: int, listing: seq<Byte>, others: nat -> seq<ListingRequest>)

  /** The listing in force when the reader makes its request number `k`: its own, unless others had it
      rebuilt since. */
  function InForce(g: Reading, k: nat): seq<Byte> {
    if k == 0 then g.listing else LastBuilt(g.others(k - 1), g.kind, InForce(g, k - 1))
  }

  /** What request number `k` is answered with. */
  function Chunk(g: Reading, k: nat): (s: seq<Byte>)
    ensures |s| <= MAX_PAYLOAD
  {
    Slice(InForce(g, k), k * MAX_PAYLOAD)
  }

  /** The chunks before number `k` are full. */
  ghost predicate FullUpTo(g: Reading, k: nat) {
    forall i: nat :: i < k ==> |Chunk(g, i)| == MAX_PAYLOAD
  }

  /** Chunk number `k` is the first short one, with which reading ends. */
  ghost predicate LastAt(g: Reading, k: nat) {
    FullUpTo(g, k) && |Chunk(g, k)| < MAX_PAYLOAD
  }

  /** The first `k` chunks one after another. */
  ghost function Joined(g: Reading, k: nat): seq<Byte> {
    if k == 0 then [] else Joined(g, k - 1) + Chunk(g, k - 1)
  }

  /** Request number `k`, should the reader come to make it, is the last: it fails or is answered short. */
  ghost predicate EndsAt(g: Reading, rc: nat -> int, k: nat) {
    rc(k) != 0 || |Chunk(g, k)| < MAX_PAYLOAD
  }

  /** procfs_ctl_request_blob against the daemon; there is some request that would end it. */
  method RequestBlob(d: Daemon, g: Reading, rc: nat -> int, ghost last: nat) returns (r: Result, requests: nat)
    requires EndsAt(g, rc, last)
    modifies d
    ensures requests > 0 && FullUpTo(g, requests - 1) && NoneFails(rc, requests - 1)
    ensures r.Ok? ==> rc(requests - 1) == 0 && LastAt(g, requests - 1) && r.data == Joined(g, requests)
    ensures r.Err? ==> r.errno == rc(requests - 1) != 0
  {
    var sb: seq<Byte> := [];
    var offset := 0;
    requests := 0;
    while true
      invariant offset == requests * MAX_PAYLOAD && requests <= last
      invariant FullUpTo(g, requests) && sb == Joined(g, requests)
      invariant requests > 0 ==> Kept(d.blobs, g.kind) == InForce(g, requests)
      invariant NoneFails(rc, requests)
      decreases last - requests
    {
      var e := rc(requests);
      requests := requests + 1;
      if e != 0 {
        return Err(e), requests;
      }
      var chunk := Exchange(d, g, requests - 1, offset);
      sb := sb + chunk;
      offset := offset + |chunk|;
      if |chunk| < MAX_PAYLOAD {
        break;
      }
    }
    r := Ok(sb);
  }

  /** Request number `k` and what others ask of the daemon before the next one. */
  method Exchange(d: Daemon, g: Reading, k: nat, offset: nat) returns (chunk: seq<Byte>)
    requires offset == k * MAX_PAYLOAD
    requires k > 0 ==> Kept(d.blobs, g.kind) == InForce(g, k)
    modifies d
    ensures chunk == Chunk(g, k)
    ensures Kept(d.blobs, g.kind) == InForce(g, k + 1)
  {
    chunk := d.Serve(ListingRequest(g.kind, offset, g.listing));
    d.ServeOthers(g.others(k), g.kind);
  }

  /** The chunks before number `k` are those of the reader's own listing. */
  ghost predicate AgreesUpTo(g: Reading, k: nat) {
    forall j: nat :: j < k ==> Chunk(g, j) == Slice(g.listing, j * MAX_PAYLOAD)
  }

  /** Chunk `k` of a listing: the rest of it if it is the last one, else a payload of it. */
  lemma OwnChunk(listing: seq<Byte>, k: nat)
    requires k * MAX_PAYLOAD <= |listing|
    ensures k <= |listing| / MAX_PAYLOAD
    ensures |listing| < (k + 1) * MAX_PAYLOAD ==>
              k == |listing| / MAX_PAYLOAD && Slice(listing, k * MAX_PAYLOAD) == listing[k * MAX_PAYLOAD..]
    ensures |listing| >= (k + 1) * MAX_PAYLOAD ==>
              && k < |listing| / MAX_PAYLOAD
              && Slice(listing, k * MAX_PAYLOAD) == listing[k * MAX_PAYLOAD..(k + 1) * MAX_PAYLOAD]
  {
  }

  lemma {:induction false} JoinedFull(g: Reading, k: nat)
    requires FullUpTo(g, k)
    ensures |Joined(g, k)| == k * MAX_PAYLOAD
    ensures k * MAX_PAYLOAD <= |g.listing| ==>
              (Joined(g, k) == g.listing[..k * MAX_PAYLOAD] <==> AgreesUpTo(g, k))
  {
    if k > 0 {
      JoinedFull(g, k - 1);
      assert |Chunk(g, k - 1)| == MAX_PAYLOAD;
      if k * MAX_PAYLOAD <= |g.listing| {
        OwnChunk(g.listing, k - 1);
        var front := g.listing[..k * MAX_PAYLOAD];
        SamePrefix(Joined(g, k - 1), Chunk(g, k - 1), front, (k - 1) * MAX_PAYLOAD);
        assert front[..(k - 1) * MAX_PAYLOAD] == g.listing[..(k - 1) * MAX_PAYLOAD];
      }
    }
  }

  lemma SamePrefix(a: seq<Byte>, b: seq<Byte>, c: seq<Byte>, n: nat)
    requires |a| == n <= |c|
    ensures a + b == c <==> a == c[..n] && b == c[n..]
  {
    assert c == c[..n] + c[n..];
    assert (a + b)[..n] == a && (a + b)[n..] == b;
  }

  lemma AgreesAt(g: Reading, n: nat, j: nat)
    requires AgreesUpTo(g, n) && j < n
    ensures Chunk(g, j) == Slice(g.listing, j * MAX_PAYLOAD)
  {
  }

  /** However often other readers have the listing rebuilt, a reader gets the listing built for its
      first request exactly when each of its chunks, cut from the listing then in force, is the one
      that its own listing has there. */
  lemma RebuiltExact(g: Reading, requests: nat)
    requires requests > 0 && LastAt(g, requests - 1)
    ensures Joined(g, requests) == g.listing <==>
            forall k: nat :: k <= |g.listing| / MAX_PAYLOAD ==>
              Slice(InForce(g, k), k * MAX_PAYLOAD) == Slice(g.listing, k * MAX_PAYLOAD)
    ensures Joined(g, requests) == g.listing ==> requests == |g.listing| / MAX_PAYLOAD + 1
  {
    var k, m := requests - 1, |g.listing| / MAX_PAYLOAD;
    JoinedFull(g, k);
    OwnChunk(g.listing, m);
    if k <= m {
      OwnChunk(g.listing, k);
      SamePrefix(Joined(g, k), Chunk(g, k), g.listing, k * MAX_PAYLOAD);
    }
    if AgreesUpTo(g, m + 1) {
      AgreesAt(g, m + 1, Min(k, m));
    }
    assert AgreesUpTo(g, m + 1) <==>
           forall j: nat :: j <= m ==> Slice(InForce(g, j), j * MAX_PAYLOAD) == Slice(g.listing, j * MAX_PAYLOAD)
    by {
      assert forall j: nat :: Chunk(g, j) == Slice(InForce(g, j), j * MAX_PAYLOAD);
    }
  }

  /** Nobody else starts reading the same listing before request number `n`. */
  ghost predicate Undisturbed(g: Reading, n: nat) {
    forall k: nat :: k < n ==> Quiet(g.others(k), g.kind)
  }

  predicate Quiet(reqs: seq<ListingRequest>, kind: int) {
    forall i :: 0 <= i < |reqs| ==> !Restarts(reqs[i], kind)
  }

  lemma {:induction false} QuietKeeps(reqs: seq<ListingRequest>, kind: int, kept: seq<Byte>)
    requires Quiet(reqs, kind)
    ensures LastBuilt(reqs, kind, kept) == kept
  {
    if reqs != [] {
      QuietKeeps(reqs[..|reqs| - 1], kind, kept);
    }
  }

  lemma {:induction false} StillInForce(g: Reading, k: nat)
    requires Undisturbed(g, k)
    ensures InForce(g, k) == g.listing
  {
    if k > 0 {
      StillInForce(g, k - 1);
      QuietKeeps(g.others(k - 1), g.kind, g.listing);
    }
  }

  /** Without a restart that is the listing, in floor(length / 2048) + 1 requests, whatever else is
      asked of the daemon meanwhile. */
  lemma UndisturbedWhole(g: Reading, requests: nat)
    requires requests > 0 && LastAt(g, requests - 1) && Undisturbed(g, |g.listing| / MAX_PAYLOAD)
    ensures Joined(g, requests) == g.listing
    ensures requests == |g.listing| / MAX_PAYLOAD + 1
  {
    forall k: nat | k <= |g.listing| / MAX_PAYLOAD
      ensures InForce(g, k) == g.listing
    {
      StillInForce(g, k);
    }
    RebuiltExact(g, requests);
  }

  /** A second reader that starts after the first chunk of a two-chunk listing: the first reader gets
      that chunk and the rest of the second listing, which is neither listing unless they overlap. */
  method ReadDuringRestart(d: Daemon, kind: int, a: seq<Byte>, b: seq<Byte>) returns (got: seq<Byte>)
    requires MAX_PAYLOAD < |a| < 2 * MAX_PAYLOAD && |b| == |a|
    modifies d
    ensures got == a[..MAX_PAYLOAD] + b[MAX_PAYLOAD..]
    ensures got == a <==> a[MAX_PAYLOAD..] == b[MAX_PAYLOAD..]
    ensures got == b <==> a[..MAX_PAYLOAD] == b[..MAX_PAYLOAD]
  {
    var g := Reading(kind, a, k => if k == 0 then [ListingRequest(kind, 0, b)] else []);
    OneRestart(g, b);
    var r, requests := RequestBlob(d, g, _ => 0, 1);
    got := r.data;
    TwoChunks(g, requests - 1);
    SamePrefix(a[..MAX_PAYLOAD], b[MAX_PAYLOAD..], a, MAX_PAYLOAD);
    SamePrefix(a[..MAX_PAYLOAD], b[MAX_PAYLOAD..], b, MAX_PAYLOAD);
  }

  lemma OneRestart(g: Reading, b: seq<Byte>)
    requires MAX_PAYLOAD < |g.listing| < 2 * MAX_PAYLOAD && |b| == |g.listing|
    requires g.others(0) == [ListingRequest(g.kind, 0, b)]
    ensures Chunk(g, 0) == g.listing[..MAX_PAYLOAD] && Chunk(g, 1) == b[MAX_PAYLOAD..]
  {
    assert InForce(g, 1) == LastBuilt(g.others(0), g.kind, InForce(g, 0)) == b;
  }

  lemma TwoChunks(g: Reading, k: nat)
    requires |Chunk(g, 0)| == MAX_PAYLOAD && |Chunk(g, 1)| < MAX_PAYLOAD && LastAt(g, k)
    ensures Joined(g, k + 1) == Chunk(g, 0) + Chunk(g, 1)
  {
    assert k == 1;
    assert Joined(g, 2) == Joined(g, 1) + Chunk(g, 1);
    assert Joined(g, 1) == [] + Chunk(g, 0);
  }
}
