/**
 Splitting a manifest's tenants over n in-process partitions by hash, repairing partitions
 the hash left empty, and splitting the target TPS. The hash is an arbitrary function.
 */
module Partition {

  datatype Result<+T> = Ok(value: T) | Error(message: string)

  /** A tenant by its id; the rest of the manifest row travels with it. */
  datatype Tenant = Tenant(id: string, row: int)

  type Chunks = seq<seq<Tenant>>

  function Bag(chunks: Chunks): multiset<Tenant> {
    if chunks == [] then multiset{} else Bag(chunks[..|chunks| - 1]) + multiset(chunks[|chunks| - 1])
  }

  function Total(chunks: Chunks): nat {
    if chunks == [] then 0 else Total(chunks[..|chunks| - 1]) + |chunks[|chunks| - 1]|
  }

  function Empties(chunks: Chunks): nat {
    if chunks == [] then 0 else Empties(chunks[..|chunks| - 1]) + if chunks[|chunks| - 1] == [] then 1 else 0
  }

  // ----- One chunk changed -----

  lemma {:induction false} Reorder(a: multiset<Tenant>, x: multiset<Tenant>, b: multiset<Tenant>, y: multiset<Tenant>, last: multiset<Tenant>)
    requires a + x == b + y
    ensures (a + last) + x == (b + last) + y
  {
    forall e
      ensures ((a + last) + x)[e] == ((b + last) + y)[e]
    {
      assert (a + x)[e] == (b + y)[e];
    }
  }

  lemma {:induction false} Cancel(a: multiset<Tenant>, b: multiset<Tenant>, x: multiset<Tenant>, y: multiset<Tenant>)
    requires a + x == b + (x + y)
    ensures a == b + y
  {
    forall e
      ensures a[e] == (b + y)[e]
    {
      assert (a + x)[e] == (b + (x + y))[e];
    }
  }

  lemma {:induction false} UpdateBag(chunks: Chunks, i: nat, c: seq<Tenant>)
    requires i < |chunks|
    ensures Bag(chunks[i := c]) + multiset(chunks[i]) == Bag(chunks) + multiset(c)
  {
    var n := |chunks| - 1;
    var changed := chunks[i := c];
    if i == n {
      assert changed[..n] == chunks[..n];
    } else {
      assert changed[..n] == chunks[..n][i := c] && changed[n] == chunks[n];
      UpdateBag(chunks[..n], i, c);
      Reorder(Bag(changed[..n]), multiset(chunks[i]), Bag(chunks[..n]), multiset(c), multiset(chunks[n]));
    }
  }

  lemma {:induction false} UpdateCounts(chunks: Chunks, i: nat, c: seq<Tenant>)
    requires i < |chunks|
    ensures Total(chunks[i := c]) + |chunks[i]| == Total(chunks) + |c|
    ensures Empties(chunks[i := c]) + (if chunks[i] == [] then 1 else 0) == Empties(chunks) + (if c == [] then 1 else 0)
  {
    var n := |chunks| - 1;
    if i == n {
      assert chunks[i := c][..n] == chunks[..n];
    } else {
      assert chunks[i := c][..n] == chunks[..n][i := c];
      UpdateCounts(chunks[..n], i, c);
    }
  }

  lemma {:induction false} NoneEmpty(chunks: Chunks)
    ensures Empties(chunks) == 0 <==> forall i :: 0 <= i < |chunks| ==> chunks[i] != []
  {
    if chunks != [] {
      NoneEmpty(chunks[..|chunks| - 1]);
    }
  }

  lemma {:induction false} TotalIsBagSize(chunks: Chunks)
    ensures Total(chunks) == |Bag(chunks)|
  {
    if chunks != [] {
      TotalIsBagSize(chunks[..|chunks| - 1]);
    }
  }

  /** Pigeonhole: chunks of at most one tenant, one of them empty, hold fewer tenants than there are chunks. */
  lemma {:induction false} Pigeonhole(chunks: Chunks)
    requires forall i :: 0 <= i < |chunks| ==> |chunks[i]| <= 1
    ensures Total(chunks) + Empties(chunks) == |chunks|
  {
    if chunks != [] {
      Pigeonhole(chunks[..|chunks| - 1]);
    }
  }

  /** Moving the last tenant of chunk `large` to chunk `empty`. */
  function Moved(chunks: Chunks, empty: nat, large: nat): Chunks
    requires empty < |chunks| && large < |chunks| && |chunks[large]| > 0
  {
    var t := chunks[large][|chunks[large]| - 1];
    chunks[large := chunks[large][..|chunks[large]| - 1]][empty := chunks[empty] + [t]]
  }

  lemma {:induction false} MoveConserves(chunks: Chunks, empty: nat, large: nat)
    requires empty < |chunks| && large < |chunks| && empty != large && chunks[empty] == [] && |chunks[large]| > 1
    ensures var r := Moved(chunks, empty, large);
            Bag(r) == Bag(chunks) && Total(r) == Total(chunks) && Empties(r) == Empties(chunks) - 1
  {
    var k := |chunks[large]| - 1;
    var t := chunks[large][k];
    var front := chunks[large][..k];
    assert chunks[large] == front + [t] && chunks[empty] + [t] == [t];
    MoveBag(chunks, empty, large, front, t);
    MoveCounts(chunks, empty, large, front, t);
  }

  lemma {:induction false} MoveCounts(chunks: Chunks, empty: nat, large: nat, front: seq<Tenant>, t: Tenant)
    requires empty < |chunks| && large < |chunks| && empty != large
    requires chunks[empty] == [] && chunks[large] == front + [t] && front != []
    ensures var r := chunks[large := front][empty := [t]];
            Total(r) == Total(chunks) && Empties(r) == Empties(chunks) - 1
  {
    UpdateCounts(chunks, large, front);
    UpdateCounts(chunks[large := front], empty, [t]);
  }

  lemma {:induction false} MoveBag(chunks: Chunks, empty: nat, large: nat, front: seq<Tenant>, t: Tenant)
    requires empty < |chunks| && large < |chunks| && empty != large
    requires chunks[empty] == [] && chunks[large] == front + [t]
    ensures Bag(chunks[large := front][empty := [t]]) == Bag(chunks)
  {
    var mid := chunks[large := front];
    UpdateBag(chunks, large, front);
    UpdateBag(mid, empty, [t]);
    assert multiset(chunks[large]) == multiset(front) + multiset{t};
    Cancel(Bag(chunks), Bag(mid), multiset(front), multiset{t});
  }

  // ----- Where the hash sends tenants -----

  /** Every tenant the hash sent to chunk k, in manifest order. */
  function HashChunk(tenants: seq<Tenant>, n: nat, hash: string -> nat, k: nat): seq<Tenant>
    requires n > 0
  {
    if tenants == [] then []
    else HashChunk(tenants[..|tenants| - 1], n, hash, k)
         + if hash(tenants[|tenants| - 1].id) % n == k then [tenants[|tenants| - 1]] else []
  }

  /** A tenant is sent to chunk k as often as it is listed when its hash is k modulo n and never otherwise, and the chunks follow the manifest's order. */
  lemma {:induction false} HashChunkMeans(a: seq<Tenant>, b: seq<Tenant>, n: nat, hash: string -> nat, k: nat, t: Tenant)
    requires n > 0
    ensures multiset(HashChunk(a, n, hash, k))[t] == if hash(t.id) % n == k then multiset(a)[t] else 0
    ensures HashChunk(a + b, n, hash, k) == HashChunk(a, n, hash, k) + HashChunk(b, n, hash, k)
  {
    if a != [] {
      var front, last := a[..|a| - 1], a[|a| - 1];
      assert a == front + [last];
      HashChunkMeans(front, [], n, hash, k, t);
    }
    HashConcat(a, b, n, hash, k);
  }

  lemma {:induction false} HashConcat(a: seq<Tenant>, b: seq<Tenant>, n: nat, hash: string -> nat, k: nat)
    requires n > 0
    ensures HashChunk(a + b, n, hash, k) == HashChunk(a, n, hash, k) + HashChunk(b, n, hash, k)
  {
    if b == [] {
      assert a + b == a;
    } else {
      HashConcat(a, b[..|b| - 1], n, hash, k);
      assert (a + b)[..|a + b| - 1] == a + b[..|b| - 1];
    }
  }

  lemma {:induction false} HashNext(tenants: seq<Tenant>, i: nat, n: nat, hash: string -> nat, k: nat)
    requires n > 0 && i < |tenants|
    ensures HashChunk(tenants[..i + 1], n, hash, k)
            == HashChunk(tenants[..i], n, hash, k) + if hash(tenants[i].id) % n == k then [tenants[i]] else []
  {
    assert tenants[..i + 1][..i] == tenants[..i];
  }

  /** Chunk by chunk, what the hash sends there. */
  ghost predicate Hashed(chunks: Chunks, tenants: seq<Tenant>, n: nat, hash: string -> nat)
    requires n > 0
  {
    |chunks| == n && forall k :: 0 <= k < n ==> chunks[k] == HashChunk(tenants, n, hash, k)
  }

  lemma {:induction false} HashedNext(chunks: Chunks, tenants: seq<Tenant>, i: nat, n: nat, hash: string -> nat, to: nat)
    requires n > 0 && i < |tenants| && Hashed(chunks, tenants[..i], n, hash) && to == hash(tenants[i].id) % n
    ensures Hashed(chunks[to := chunks[to] + [tenants[i]]], tenants[..i + 1], n, hash)
  {
    var r := chunks[to := chunks[to] + [tenants[i]]];
    forall k | 0 <= k < n
      ensures r[k] == HashChunk(tenants[..i + 1], n, hash, k)
    {
      HashNext(tenants, i, n, hash, k);
      assert chunks[k] + [] == chunks[k];
    }
  }

  lemma {:induction false} NothingInBag(n: nat)
    ensures Bag(seq(n, i => [])) == multiset{}
  {
    var c: Chunks := seq(n, i => []);
    if n > 0 {
      assert c[..n - 1] == seq(n - 1, i => []);
      NothingInBag(n - 1);
    }
  }

  lemma {:induction false} NothingHashed(chunks: Chunks, n: nat, hash: string -> nat)
    requires n > 0 && chunks == seq(n, i => [])
    ensures Bag(chunks) == multiset{} && Hashed(chunks, [], n, hash)
  {
    NothingInBag(n);
  }

  // ----- The imperative partitioner -----

  /** First empty chunk, or -1, and the first largest chunk. */
  method FindEmptyAndLargest(chunks: Chunks) returns (empty: int, large: nat)
    requires |chunks| > 0
    ensures -1 <= empty < |chunks| && large < |chunks|
    ensures empty >= 0 ==> chunks[empty] == [] && forall i :: 0 <= i < empty ==> chunks[i] != []
    ensures empty < 0 ==> forall i :: 0 <= i < |chunks| ==> chunks[i] != []
    ensures forall i :: 0 <= i < |chunks| ==> |chunks[i]| <= |chunks[large]|
    ensures forall i :: 0 <= i < large ==> |chunks[i]| < |chunks[large]|
  {
    empty, large := -1, 0;
    for i := 0 to |chunks|
      invariant -1 <= empty < i || (empty == -1 && i == 0)
      invariant large < |chunks| && (large < i || large == 0)
      invariant empty >= 0 ==> chunks[empty] == [] && forall j :: 0 <= j < empty ==> chunks[j] != []
      invariant empty < 0 ==> forall j :: 0 <= j < i ==> chunks[j] != []
      invariant forall j :: 0 <= j < i ==> |chunks[j]| <= |chunks[large]|
      invariant forall j :: 0 <= j < large ==> |chunks[j]| < |chunks[large]|
    {
      if |chunks[i]| == 0 && empty < 0 {
        empty := i;
      }
      if |chunks[i]| > |chunks[large]| {
        large := i;
      }
    }
  }

  ghost predicate FirstEmpty(chunks: Chunks, i: nat) {
    i < |chunks| && chunks[i] == [] && forall j :: 0 <= j < i ==> chunks[j] != []
  }

  /** No chunk is emptied, and the first empty one is filled. */
  ghost predicate Fills(chunks: Chunks, r: Chunks) {
    && |r| == |chunks|
    && (forall i :: 0 <= i < |chunks| && chunks[i] != [] ==> r[i] != [])
    && (forall i: nat :: FirstEmpty(chunks, i) ==> r[i] != [])
  }

  lemma {:induction false} MoveFills(chunks: Chunks, empty: nat, large: nat)
    requires FirstEmpty(chunks, empty) && large < |chunks| && |chunks[large]| > 1
    ensures Fills(chunks, Moved(chunks, empty, large))
  {
  }

  /** One move from the first largest chunk to the first empty one, if there is a tenant to spare. */
  method RedistributeOneTenant(chunks: Chunks, ghost hashed: Chunks) returns (r: Chunks, moved: bool)
    requires |chunks| > 0 && RepairOf(chunks, hashed)
    ensures RepairOf(r, hashed)
    ensures |r| == |chunks| && Bag(r) == Bag(chunks) && Total(r) == Total(chunks)
    ensures moved == (Empties(chunks) > 0 && exists i :: 0 <= i < |chunks| && |chunks[i]| > 1)
    ensures !moved ==> r == chunks
    ensures moved ==> Empties(r) == Empties(chunks) - 1
    ensures moved ==> Fills(chunks, r)
  {
    var empty, large := FindEmptyAndLargest(chunks);
    NoneEmpty(chunks);
    if empty < 0 || large == empty || |chunks[large]| <= 1 {
      assert forall i :: 0 <= i < |chunks| ==> |chunks[i]| <= 1 || empty < 0;
      return chunks, false;
    }
    MoveConserves(chunks, empty, large);
    MoveIsRepair(chunks, hashed, empty, large);
    MoveFills(chunks, empty, large);
    var k := |chunks[large]| - 1;
    var t := chunks[large][k];
    r := chunks[large := chunks[large][..k]];
    r := r[empty := r[empty] + [t]];
    assert r == Moved(chunks, empty, large);
    moved := true;
  }

  method HashTenants(tenants: seq<Tenant>, n: nat, hash: string -> nat) returns (chunks: Chunks)
    requires n > 0
    ensures Bag(chunks) == multiset(tenants) && Total(chunks) == |tenants|
    ensures Hashed(chunks, tenants, n, hash)
  {
    chunks := seq(n, i => []);
    NothingHashed(chunks, n, hash);
    assert tenants[..0] == [];
    for i := 0 to |tenants|
      invariant Spread(chunks, tenants[..i], n, hash)
    {
      var idx := hash(tenants[i].id) % n;
      SpreadNext(chunks, tenants, i, n, hash, idx);
      chunks := chunks[idx := chunks[idx] + [tenants[i]]];
    }
    assert tenants[..|tenants|] == tenants;
    TotalIsBagSize(chunks);
  }

  ghost predicate Spread(chunks: Chunks, tenants: seq<Tenant>, n: nat, hash: string -> nat)
    requires n > 0
  {
    Hashed(chunks, tenants, n, hash) && Bag(chunks) == multiset(tenants)
  }

  lemma {:induction false} BagNext(tenants: seq<Tenant>, i: nat)
    requires i < |tenants|
    ensures multiset(tenants[..i + 1]) == multiset(tenants[..i]) + multiset{tenants[i]}
  {
    assert tenants[..i + 1] == tenants[..i] + [tenants[i]];
  }

  lemma {:induction false} SpreadNext(chunks: Chunks, tenants: seq<Tenant>, i: nat, n: nat, hash: string -> nat, k: nat)
    requires n > 0 && i < |tenants| && Spread(chunks, tenants[..i], n, hash) && k == hash(tenants[i].id) % n
    ensures Spread(chunks[k := chunks[k] + [tenants[i]]], tenants[..i + 1], n, hash)
  {
    HashedNext(chunks, tenants, i, n, hash, k);
    AppendToBag(chunks, k, tenants[i]);
    BagNext(tenants, i);
  }

  lemma {:induction false} AppendToBag(chunks: Chunks, i: nat, t: Tenant)
    requires i < |chunks|
    ensures Bag(chunks[i := chunks[i] + [t]]) == Bag(chunks) + multiset{t}
  {
    UpdateBag(chunks, i, chunks[i] + [t]);
    assert multiset(chunks[i] + [t]) == multiset(chunks[i]) + multiset{t};
    Cancel(Bag(chunks[i := chunks[i] + [t]]), Bag(chunks), multiset(chunks[i]), multiset{t});
  }

  /** Only repairs separate `now` from `hashed`: a chunk the hash filled keeps a non-empty prefix, one it left empty has at most one tenant. */
  ghost predicate RepairOf(now: Chunks, hashed: Chunks) {
    && |now| == |hashed|
    && forall k :: 0 <= k < |now| ==>
         if hashed[k] == [] then |now[k]| <= 1 else now[k] != [] && now[k] <= hashed[k]
  }

  lemma {:induction false} MoveIsRepair(now: Chunks, hashed: Chunks, empty: nat, large: nat)
    requires RepairOf(now, hashed)
    requires empty < |now| && large < |now| && now[empty] == [] && |now[large]| > 1
    ensures RepairOf(Moved(now, empty, large), hashed)
  {
  }

  /**
   Every tenant lands in exactly one partition and no partition is empty. Where the hash
   sent tenants, a partition keeps a non-empty prefix of what it was sent; where the hash
   sent none, it holds exactly one moved tenant; so the moves are as many as the hash's
   empty partitions.
   */
  method PartitionManifest(tenants: seq<Tenant>, n: int, hash: string -> nat)
    returns (result: Result<Chunks>, moves: nat)
    ensures result.Ok? <==> 0 < n <= |tenants|
    ensures result.Ok? ==> |result.value| == n && Bag(result.value) == multiset(tenants)
    ensures result.Ok? ==> forall k :: 0 <= k < n ==>
              var sent := HashChunk(tenants, n, hash, k);
              if sent == [] then |result.value[k]| == 1 else result.value[k] != [] && result.value[k] <= sent
    ensures result.Ok? ==> moves == Empties(seq(n, k requires 0 <= k < n => HashChunk(tenants, n, hash, k)))
  {
    moves := 0;
    if n <= 0 {
      return Error("partition count must be > 0"), 0;
    }
    if n > |tenants| {
      return Error("partition count > tenant count"), 0;
    }
    var chunks := HashTenants(tenants, n, hash);
    assert chunks == seq(n, k requires 0 <= k < n => HashChunk(tenants, n, hash, k));
    chunks, moves := Repair(chunks);
    return Ok(chunks), moves;
  }

  /** Scan the chunks in order and repair whenever the scan meets an empty one. */
  method Repair(hashed: Chunks) returns (chunks: Chunks, moves: nat)
    requires Total(hashed) >= |hashed| > 0
    ensures RepairOf(chunks, hashed) && Bag(chunks) == Bag(hashed)
    ensures forall i :: 0 <= i < |chunks| ==> chunks[i] != []
    ensures moves == Empties(hashed)
  {
    chunks, moves := hashed, 0;
    for i := 0 to |hashed|
      invariant RepairOf(chunks, hashed) && Bag(chunks) == Bag(hashed) && Total(chunks) == Total(hashed)
      invariant forall j :: 0 <= j < i ==> chunks[j] != []
      invariant moves + Empties(chunks) == Empties(hashed)
    {
      if |chunks[i]| == 0 {
        RoomToMove(chunks);
        var moved;
        assert FirstEmpty(chunks, i);
        chunks, moved := RedistributeOneTenant(chunks, hashed);
        moves := moves + 1;
      }
    }
    NoneEmpty(chunks);
  }

  /** With at least as many tenants as chunks, an empty chunk means some other chunk can spare one. */
  lemma {:induction false} RoomToMove(chunks: Chunks)
    requires Total(chunks) >= |chunks|
    ensures Empties(chunks) > 0 ==> exists i :: 0 <= i < |chunks| && |chunks[i]| > 1
    ensures (exists i :: 0 <= i < |chunks| && chunks[i] == []) ==> Empties(chunks) > 0
  {
    NoneEmpty(chunks);
    if forall i :: 0 <= i < |chunks| ==> |chunks[i]| <= 1 {
      Pigeonhole(chunks);
    }
  }

  // ----- TPS shares -----

  function SumOf(xs: seq<int>): int {
    if xs == [] then 0 else SumOf(xs[..|xs| - 1]) + xs[|xs| - 1]
  }

  function Max(a: int, b: int): int {
    if a > b then a else b
  }

  function Min(a: int, b: int): int {
    if a < b then a else b
  }

  function Share(base: int, rem: int, i: int): int {
    var s := base + if i < rem then 1 else 0;
    if s == 0 then 1 else s
  }

  lemma {:induction false} SumSnoc(xs: seq<int>, x: int)
    ensures SumOf(xs + [x]) == SumOf(xs) + x
  {
    assert (xs + [x])[..|xs|] == xs;
  }

  /** What the first k shares add up to. */
  function FirstShares(base: int, rem: int, k: int): int {
    if base > 0 then k * base + Min(k, rem) else k
  }

  lemma {:induction false} NextShare(base: int, rem: int, k: nat)
    requires base >= 0 && rem >= 0
    ensures FirstShares(base, rem, k + 1) == FirstShares(base, rem, k) + Share(base, rem, k)
  {
    assert (k + 1) * base == k * base + base;
  }

  lemma {:induction false} SharesSum(base: int, rem: int, k: nat)
    requires base >= 0 && rem >= 0
    ensures SumOf(seq(k, i => Share(base, rem, i))) == FirstShares(base, rem, k)
  {
    if k > 0 {
      SharesSum(base, rem, k - 1);
      NextShare(base, rem, k - 1);
      var front := seq(k - 1, i => Share(base, rem, i));
      assert seq(k, i => Share(base, rem, i)) == front + [Share(base, rem, k - 1)];
      SumSnoc(front, Share(base, rem, k - 1));
    }
  }

  lemma {:induction false} Division(total: int, n: int)
    requires total > 0 && n > 0
    ensures total == n * (total / n) + total % n && 0 <= total % n < n
    ensures total / n >= 0 && (total / n > 0 <==> total >= n)
  {
    assert total / n <= 0 ==> n * (total / n) <= 0;
    assert total / n > 0 ==> n * (total / n) >= n;
  }

  /** Positive total: every share at least 1, any two within 1, together max(total, n). Otherwise all zero. */
  method SplitTPS(total: int, n: nat) returns (out: seq<int>)
    ensures |out| == n
    ensures total <= 0 ==> forall i :: 0 <= i < n ==> out[i] == 0
    ensures total > 0 ==> forall i :: 0 <= i < n ==> out[i] >= 1
    ensures total > 0 ==> forall i, j :: 0 <= i <= j < n ==> out[j] <= out[i] <= out[j] + 1
    ensures total > 0 && n > 0 ==> SumOf(out) == Max(total, n)
  {
    out := seq(n, i => 0);
    if n <= 0 {
      return;
    }
    if total <= 0 {
      return;
    }
    var base := total / n;
    var rem := total % n;
    Division(total, n);
    for i := 0 to n
      invariant |out| == n && forall j :: 0 <= j < i ==> out[j] == Share(base, rem, j)
    {
      out := out[i := base];
      if i < rem {
        out := out[i := out[i] + 1];
      }
      if out[i] == 0 {
        out := out[i := 1];
      }
    }
    assert out == seq(n, i => Share(base, rem, i));
    SharesSum(base, rem, n);
  }
}
