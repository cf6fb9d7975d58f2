/** Merkleization and hand-built inclusion proofs, over any pair hash.

The reference is the "Merkleization" section of the SSZ specification: the root of a power of two of leaves is the hash
of the roots of its halves, a list is padded with zero chunks to its limit and its length is mixed in. */
module Merkle {
  import opened Prelude

  /** A chunk type with its pair hash, its zero chunk and the chunk of a length. */
  datatype Hasher<!T> = Hasher(pair: (T, T) -> T, zero: T, length: nat -> T)

  function Pow(d: nat): (p: nat)
    ensures p > 0
  {
    if d == 0 then 1 else 2 * Pow(d - 1)
  }

  lemma PowFacts(d: nat)
    ensures d == 0 ==> Pow(d) == 1
    ensures d > 0 ==> Pow(d) == 2 * Pow(d - 1) && Pow(d) >= 2
  {
  }

  /** The reference root: halves, recursively. */
  function Root<T>(h: Hasher<T>, leaves: seq<T>, d: nat): T
    requires |leaves| == Pow(d)
  {
    if d == 0 then leaves[0]
    else h.pair(Root(h, leaves[..Pow(d - 1)], d - 1), Root(h, leaves[Pow(d - 1)..], d - 1))
  }

  /** Zeros up to the limit. */
  function Padded<T>(nodes: seq<T>, filler: T, d: nat): (r: seq<T>)
    requires |nodes| <= Pow(d)
    ensures |r| == Pow(d)
    ensures forall i :: 0 <= i < |r| ==> r[i] == if i < |nodes| then nodes[i] else filler
  {
    nodes + seq(Pow(d) - |nodes|, i => filler)
  }

  /** The reference root of a list of limit `2^d`. */
  function ListRoot<T>(h: Hasher<T>, leaves: seq<T>, d: nat): T
    requires |leaves| <= Pow(d)
  {
    h.pair(Root(h, Padded(leaves, h.zero, d), d), h.length(|leaves|))
  }

  // ----- Level by level -------------------------------------------------------------------------------------

  /** One level up. */
  function Level<T>(h: Hasher<T>, nodes: seq<T>): (r: seq<T>)
    ensures |r| == |nodes| / 2
    ensures forall i :: 0 <= i < |r| ==> r[i] == h.pair(nodes[2 * i], nodes[2 * i + 1])
  {
    seq(|nodes| / 2, i requires 0 <= i < |nodes| / 2 => h.pair(nodes[2 * i], nodes[2 * i + 1]))
  }

  lemma LevelConcat<T>(h: Hasher<T>, a: seq<T>, b: seq<T>)
    requires |a| % 2 == 0
    ensures Level(h, a + b) == Level(h, a) + Level(h, b)
  {
  }

  /** Replacing the leaves by their parents keeps the root. */
  lemma {:induction false} RootOfLevel<T>(h: Hasher<T>, nodes: seq<T>, d: nat)
    requires |nodes| == Pow(d + 1)
    ensures |Level(h, nodes)| == Pow(d) && Root(h, nodes, d + 1) == Root(h, Level(h, nodes), d)
  {
    hide Pow, Level;
    PowFacts(d + 1);
    PowFacts(d);
    var half := Pow(d);
    var a, b := nodes[..half], nodes[half..];
    if d == 0 {
      assert Root(h, a, 0) == nodes[0] && Root(h, b, 0) == nodes[1];
    } else {
      RootOfLevel(h, a, d - 1);
      RootOfLevel(h, b, d - 1);
      assert nodes == a + b;
      LevelConcat(h, a, b);
      assert Level(h, nodes)[..Pow(d - 1)] == Level(h, a) && Level(h, nodes)[Pow(d - 1)..] == Level(h, b);
    }
  }

  method NextLevel<T>(h: Hasher<T>, nodes: seq<T>) returns (next: seq<T>)
    ensures next == Level(h, nodes)
  {
    next := [];
    for i := 0 to |nodes| / 2
      invariant |next| == i && forall j :: 0 <= j < i ==> next[j] == Level(h, nodes)[j]
    {
      next := next + [h.pair(nodes[2 * i], nodes[2 * i + 1])];
    }
  }

  /** `merkleizeFixed` is the reference root. */
  method MerkleizeFixed<T>(h: Hasher<T>, leaves: seq<T>, ghost d: nat) returns (root: T)
    requires |leaves| == Pow(d)
    ensures root == Root(h, leaves, d)
  {
    hide Pow, Level;
    var nodes := leaves;
    ghost var left := d;
    while |nodes| > 1
      invariant |nodes| == Pow(left) && Root(h, nodes, left) == Root(h, leaves, d)
      decreases left
    {
      PowFacts(left);
      RootOfLevel(h, nodes, left - 1);
      nodes := NextLevel(h, nodes);
      left := left - 1;
    }
    PowFacts(left);
    return nodes[0];
  }

  // ----- Zero subtrees --------------------------------------------------------------------------------------

  function Zero<T>(h: Hasher<T>, d: nat): T {
    if d == 0 then h.zero else h.pair(Zero(h, d - 1), Zero(h, d - 1))
  }

  /** A padded level is the padding, with the next zero, of the level. */
  lemma PaddedLevel<T>(h: Hasher<T>, nodes: seq<T>, level: nat, d: nat)
    requires |nodes| <= Pow(d + 1) && |nodes| % 2 == 0
    ensures |Level(h, nodes)| <= Pow(d)
    ensures Level(h, Padded(nodes, Zero(h, level), d + 1)) == Padded(Level(h, nodes), Zero(h, level + 1), d)
  {
  }

  /** A node list that is a single padded node: the root of a level gives the root below it. */
  lemma PadsUp<T>(h: Hasher<T>, nodes: seq<T>, level: nat, d: nat)
    requires |nodes| <= Pow(d + 1) && |nodes| % 2 == 0
    ensures |Level(h, nodes)| <= Pow(d)
    ensures Root(h, Padded(nodes, Zero(h, level), d + 1), d + 1) ==
            Root(h, Padded(Level(h, nodes), Zero(h, level + 1), d), d)
  {
    hide Pow, Level, Padded, Root;
    PaddedLevel(h, nodes, level, d);
    RootOfLevel(h, Padded(nodes, Zero(h, level), d + 1), d);
  }

  lemma PadOne<T>(h: Hasher<T>, nodes: seq<T>, level: nat, d: nat)
    requires |nodes| < Pow(d)
    ensures Padded(nodes + [Zero(h, level)], Zero(h, level), d) == Padded(nodes, Zero(h, level), d)
  {
  }

  /** `zeroHash` is the root of a subtree of zero chunks. */
  method ZeroHash<T>(h: Hasher<T>, depth: nat) returns (root: T)
    ensures root == Root(h, Padded([], h.zero, depth), depth)
  {
    root := h.zero;
    for i := 0 to depth
      invariant root == Zero(h, i)
    {
      root := h.pair(root, root);
    }
    ZeroIsPadded(h, 0, depth);
  }

  lemma {:induction false} ZeroIsPadded<T>(h: Hasher<T>, level: nat, d: nat)
    ensures Root(h, Padded([], Zero(h, level), d), d) == Zero(h, level + d)
    decreases d
  {
    if d > 0 {
      PadsUp(h, [], level, d - 1);
      assert Level(h, []) == [];
      ZeroIsPadded(h, level + 1, d - 1);
    }
  }

  /** The depth of the smallest tree that holds `limit` leaves. */
  function LimitDepth(limit: nat): nat {
    if limit <= 1 then 0 else 1 + LimitDepth((limit + 1) / 2)
  }

  lemma {:induction false} LimitDepthMeaning(limit: nat)
    ensures limit <= Pow(LimitDepth(limit)) && (LimitDepth(limit) > 0 ==> Pow(LimitDepth(limit) - 1) < limit)
  {
    hide Pow;
    PowFacts(LimitDepth(limit));
    if limit > 1 {
      var half := (limit + 1) / 2;
      LimitDepthMeaning(half);
      PowFacts(LimitDepth(half));
    }
  }

  lemma {:induction false} PowMonotone(a: nat, b: nat)
    requires a <= b
    ensures Pow(a) <= Pow(b)
  {
    hide Pow;
    PowFacts(b);
    if a < b { PowMonotone(a, b - 1); }
  }

  /** The depth is the only one with both bounds. */
  lemma DepthIsUnique(limit: nat, d: nat)
    requires limit <= Pow(d) && (d > 0 ==> Pow(d - 1) < limit)
    ensures d == LimitDepth(limit)
  {
    hide Pow, LimitDepth;
    var e := LimitDepth(limit);
    LimitDepthMeaning(limit);
    if e < d { PowMonotone(e, d - 1); }
    if d < e { PowMonotone(d, e - 1); }
  }

  /** `emptyListRoot`: the root of the empty list of that limit, rounded up to a power of two.  Past 2^63 the 64-bit
      shift would never reach the limit. */
  method EmptyListRoot<T>(h: Hasher<T>, limit: nat) returns (root: T)
    requires h.length(0) == h.zero && limit <= 0x8000_0000_0000_0000
    ensures root == ListRoot(h, [], LimitDepth(limit))
  {
    hide Pow, LimitDepth;
    PowFacts(0);
    var depth, size := 0, 1;
    while size < limit
      invariant size == Pow(depth) && (depth > 0 ==> Pow(depth - 1) < limit)
      decreases limit - size
    {
      depth, size := depth + 1, 2 * size;
      PowFacts(depth);
    }
    DepthIsUnique(limit, depth);
    var zeros := ZeroHash(h, depth);
    return h.pair(zeros, h.zero);
  }

  /** The zero subtree of every level. */
  method Zeros<T>(h: Hasher<T>, depth: nat) returns (zeros: seq<T>)
    ensures |zeros| == depth + 1 && forall j :: 0 <= j <= depth ==> zeros[j] == Zero(h, j)
  {
    zeros := [h.zero];
    for i := 1 to depth + 1
      invariant |zeros| == i && forall j :: 0 <= j < i ==> zeros[j] == Zero(h, j)
    {
      zeros := zeros + [h.pair(zeros[i - 1], zeros[i - 1])];
    }
  }

  function PaddedRoot<T>(h: Hasher<T>, nodes: seq<T>, level: nat, d: nat): T
    requires |nodes| <= Pow(d)
  {
    Root(h, Padded(nodes, Zero(h, level), d), d)
  }

  /** Halve a used level, completed by one zero if odd. */
  lemma HalvingKeepsRoot<T>(h: Hasher<T>, nodes: seq<T>, level: nat, d: nat)
    requires |nodes| <= Pow(d + 1)
    ensures var full := if |nodes| % 2 == 0 then nodes else nodes + [Zero(h, level)];
            && |Level(h, full)| <= Pow(d)
            && PaddedRoot(h, nodes, level, d + 1) == PaddedRoot(h, Level(h, full), level + 1, d)
  {
    hide Pow, Level, Padded, Root;
    PowFacts(d + 1);
    if |nodes| % 2 == 0 {
      PadsUp(h, nodes, level, d);
    } else {
      PadOne(h, nodes, level, d + 1);
      PadsUp(h, nodes + [Zero(h, level)], level, d);
    }
  }

  /** `merkleizeList`: only the used part of the tree is built, and the result is the padded root with the length. */
  method MerkleizeList<T>(h: Hasher<T>, leaves: seq<T>, depth: nat) returns (root: T)
    requires |leaves| <= Pow(depth)
    ensures root == ListRoot(h, leaves, depth)
  {
    hide Pow, Level, Padded, Root, PaddedRoot, Zero;
    var zeros := Zeros(h, depth);
    ghost var want := PaddedRoot(h, leaves, 0, depth);
    var nodes, level := leaves, 0;
    while |nodes| > 1
      invariant 0 <= level <= depth && |nodes| <= Pow(depth - level)
      invariant PaddedRoot(h, nodes, level, depth - level) == want
      invariant nodes == [] ==> level == 0 && leaves == []
      decreases |nodes|
    {
      PowFacts(depth - level);
      HalvingKeepsRoot(h, nodes, level, depth - level - 1);
      if |nodes| % 2 != 0 { nodes := nodes + [zeros[level]]; }
      nodes := NextLevel(h, nodes);
      level := level + 1;
    }
    root := zeros[0];
    if |nodes| == 1 { root := nodes[0]; }
    assert 1 <= Pow(depth - level) && PaddedRoot(h, [root], level, depth - level) == want by {
      PowFacts(depth - level);
      if |nodes| == 1 { assert nodes == [root]; } else { OneZero(h, depth); }
    }
    while level < depth
      invariant 0 <= level <= depth && 1 <= Pow(depth - level)
      invariant PaddedRoot(h, [root], level, depth - level) == want
    {
      HalvingKeepsRoot(h, [root], level, depth - level - 1);
      PairUp(h, root, zeros[level]);
      root := h.pair(root, zeros[level]);
      level := level + 1;
      PowFacts(depth - level);
    }
    SinglePadded(h, root, level);
    root := h.pair(root, h.length(|leaves|));
    WantIsReference(h, leaves, depth);
  }

  lemma PairUp<T>(h: Hasher<T>, left: T, right: T)
    ensures Level(h, [left] + [right]) == [h.pair(left, right)]
  {
  }

  lemma SinglePadded<T>(h: Hasher<T>, root: T, level: nat)
    ensures Pow(0) == 1 && PaddedRoot(h, [root], level, 0) == root
  {
  }

  lemma WantIsReference<T>(h: Hasher<T>, leaves: seq<T>, depth: nat)
    requires |leaves| <= Pow(depth)
    ensures ListRoot(h, leaves, depth) == h.pair(PaddedRoot(h, leaves, 0, depth), h.length(|leaves|))
  {
  }

  lemma OneZero<T>(h: Hasher<T>, depth: nat)
    requires 1 <= Pow(depth)
    ensures Zero(h, 0) == h.zero && PaddedRoot(h, [h.zero], 0, depth) == PaddedRoot(h, [], 0, depth)
  {
    hide Pow, Root;
    assert Padded([h.zero], h.zero, depth) == Padded([], h.zero, depth);
  }

  // ----- Inclusion proofs -----------------------------------------------------------------------------------

  /** What a verifier computes from a leaf, its index and the siblings on the way up. */
  function Fold<T>(h: Hasher<T>, node: T, index: nat, proof: seq<T>): T
    decreases |proof|
  {
    if proof == [] then node
    else Fold(h, if index % 2 == 0 then h.pair(node, proof[0]) else h.pair(proof[0], node), index / 2, proof[1..])
  }

  function Sibling(index: nat): nat {
    if index % 2 == 0 then index + 1 else index - 1
  }

  /** The siblings of a leaf, level by level. */
  function Branch<T>(h: Hasher<T>, nodes: seq<T>, index: nat, d: nat): (proof: seq<T>)
    requires |nodes| == Pow(d) && index < |nodes|
    ensures |proof| == d
    decreases d
  {
    if d == 0 then [] else [nodes[Sibling(index)]] + Branch(h, Level(h, nodes), index / 2, d - 1)
  }

  lemma {:induction false} BranchFolds<T>(h: Hasher<T>, nodes: seq<T>, index: nat, d: nat)
    requires |nodes| == Pow(d) && index < |nodes|
    ensures Fold(h, nodes[index], index, Branch(h, nodes, index, d)) == Root(h, nodes, d)
    decreases d
  {
    hide Pow, Level, Root;
    PowFacts(d);
    if d == 0 {
      RootOfOne(h, nodes);
    } else {
      var up, rest := Level(h, nodes), Branch(h, Level(h, nodes), index / 2, d - 1);
      RootOfLevel(h, nodes, d - 1);
      BranchFolds(h, up, index / 2, d - 1);
      FoldOne(h, nodes, index, rest);
    }
  }

  lemma RootOfOne<T>(h: Hasher<T>, nodes: seq<T>)
    requires |nodes| == Pow(0)
    ensures Root(h, nodes, 0) == nodes[0]
  {
  }

  /** One sibling takes a node to its parent. */
  lemma FoldOne<T>(h: Hasher<T>, nodes: seq<T>, index: nat, rest: seq<T>)
    requires index < |nodes| && |nodes| % 2 == 0
    ensures Sibling(index) < |nodes| && index / 2 < |Level(h, nodes)|
    ensures Fold(h, nodes[index], index, [nodes[Sibling(index)]] + rest) ==
            Fold(h, Level(h, nodes)[index / 2], index / 2, rest)
  {
    hide Level;
    var half, proof := index / 2, [nodes[Sibling(index)]] + rest;
    assert proof[1..] == rest;
    assert Level(h, nodes)[half] == h.pair(nodes[2 * half], nodes[2 * half + 1]);
    assert index == 2 * half || index == 2 * half + 1;
  }

  lemma BranchStep<T>(h: Hasher<T>, nodes: seq<T>, index: nat, d: nat, before: seq<T>)
    requires d > 0 && |nodes| == Pow(d) && index < |nodes|
    ensures Sibling(index) < |nodes| && |Level(h, nodes)| == Pow(d - 1) && index / 2 < Pow(d - 1)
    ensures before + Branch(h, nodes, index, d) ==
            before + [nodes[Sibling(index)]] + Branch(h, Level(h, nodes), index / 2, d - 1)
  {
  }

  /** The proof loops of the builders. */
  method BuildBranch<T>(h: Hasher<T>, leaves: seq<T>, leaf: nat, depth: nat) returns (proof: seq<T>)
    requires |leaves| == Pow(depth) && leaf < |leaves|
    ensures |proof| == depth && proof == Branch(h, leaves, leaf, depth)
    ensures Fold(h, leaves[leaf], leaf, proof) == Root(h, leaves, depth)
  {
    hide Pow, Level, Fold, Root;
    BranchFolds(h, leaves, leaf, depth);
    proof := [];
    var nodes, index := leaves, leaf;
    for level := 0 to depth
      invariant |nodes| == Pow(depth - level) && 0 <= index < |nodes|
      invariant proof + Branch(h, nodes, index, depth - level) == Branch(h, leaves, leaf, depth)
    {
      PowFacts(depth - level);
      BranchStep(h, nodes, index, depth - level, proof);
      proof := proof + [nodes[Sibling(index)]];
      nodes := NextLevel(h, nodes);
      index := index / 2;
    }
  }

  lemma {:induction false} FoldConcat<T>(h: Hasher<T>, node: T, low: nat, high: nat, a: seq<T>, b: seq<T>)
    requires low < Pow(|a|)
    ensures Fold(h, node, Pow(|a|) * high + low, a + b) == Fold(h, Fold(h, node, low, a), high, b)
    decreases |a|
  {
    if a == [] {
      assert a + b == b;
    } else {
      var index := Pow(|a|) * high + low;
      var half := Pow(|a| - 1) * high;
      assert Pow(|a|) * high == 2 * half;
      assert index % 2 == low % 2 && index / 2 == half + low / 2;
      assert (a + b)[1..] == a[1..] + b;
      var up := if low % 2 == 0 then h.pair(node, a[0]) else h.pair(a[0], node);
      FoldConcat(h, up, low / 2, high, a[1..], b);
    }
  }

  /** List siblings, then the length, then the siblings above the list: together they take an element to the top. */
  lemma ProofsChain<T>(h: Hasher<T>, items: seq<T>, index: nat, d: nat, leaves: seq<T>, leaf: nat, e: nat, at: nat)
    requires |items| <= Pow(d) && index < |items| && at == Pow(d) * (2 * leaf) + index
    requires |leaves| == Pow(e) && leaf < |leaves| && leaves[leaf] == ListRoot(h, items, d)
    ensures var list, above := Branch(h, Padded(items, h.zero, d), index, d), Branch(h, leaves, leaf, e);
            Fold(h, items[index], at, list + [h.length(|items|)] + above) == Root(h, leaves, e)
  {
    hide Pow, Branch, Root, Padded, Fold;
    var nodes := Padded(items, h.zero, d);
    var list := Branch(h, nodes, index, d);
    var length, above := [h.length(|items|)], Branch(h, leaves, leaf, e);
    BranchFolds(h, nodes, index, d);
    BranchFolds(h, leaves, leaf, e);
    FoldConcat(h, items[index], index, 2 * leaf, list, length + above);
    assert list + (length + above) == list + length + above;
    FoldLeft(h, Root(h, nodes, d), leaf, h.length(|items|), above);
  }

  /** The length is hashed in from the right. */
  lemma FoldLeft<T>(h: Hasher<T>, node: T, index: nat, sibling: T, rest: seq<T>)
    ensures Fold(h, node, 2 * index, [sibling] + rest) == Fold(h, h.pair(node, sibling), index, rest)
  {
    assert ([sibling] + rest)[1..] == rest;
  }

  const LIST_DEPTH := 12
  const BODY_DEPTH := 4

  /** The position of the commitment list among the sixteen body leaves. */
  const COMMITMENTS_LEAF := 11

  lemma SmallPowers()
    ensures Pow(BODY_DEPTH) == 16 && Pow(LIST_DEPTH) == 4096
  {
  }

  /** The body roots outside the commitment list; Electra bodies carry a thirteenth, the requests root. */
  datatype Body<T> = Body(
    randao: T, eth1: T, graffiti: T, sync: T, payload: T, requests: Option<T>, commitments: seq<T>)

  /** The sixteen leaves of a body tree, each list by its reference root: the unused lists have limits 16, and 1 and 8
      in Electra or 2 and 128 before it. */
  function BodyLeaves<T>(h: Hasher<T>, body: Body<T>): (leaves: seq<T>)
    requires |body.commitments| <= Pow(LIST_DEPTH)
    ensures |leaves| == 16 && leaves[COMMITMENTS_LEAF] == ListRoot(h, body.commitments, LIST_DEPTH)
  {
    var slashings := ListRoot(h, [], if body.requests.Some? then 0 else 1);
    var attestations := ListRoot(h, [], if body.requests.Some? then 3 else 7);
    var empty := ListRoot(h, [], 4);
    [body.randao, body.eth1, body.graffiti, empty, slashings, attestations, empty, empty, body.sync, body.payload,
     empty, ListRoot(h, body.commitments, LIST_DEPTH), if body.requests.Some? then body.requests.value else h.zero,
     h.zero, h.zero, h.zero]
  }

  /** Of four leaves: the left pair before the right one. */
  lemma RootOfFour<T>(h: Hasher<T>, a: T, b: T, c: T, d: T)
    ensures Pow(2) == 4 && Root(h, [a, b, c, d], 2) == h.pair(h.pair(a, b), h.pair(c, d))
  {
    var leaves := [a, b, c, d];
    assert leaves[..2] == [a, b] && leaves[2..] == [c, d];
    assert [a, b][..1] == [a] && [a, b][1..] == [b] && [c, d][..1] == [c] && [c, d][1..] == [d];
    assert Pow(0) == 1 && Pow(1) == 2;
    assert Root(h, [a, b], 1) == h.pair(a, b) && Root(h, [c, d], 1) == h.pair(c, d);
  }

  /** Of a list of two with a limit of four: zeros after the items, and the length mixed in last. */
  lemma ListRootOfTwo<T>(h: Hasher<T>, a: T, b: T)
    ensures Pow(2) == 4 && ListRoot(h, [a, b], 2) == h.pair(h.pair(h.pair(a, b), h.pair(h.zero, h.zero)), h.length(2))
  {
    RootOfFour(h, a, b, h.zero, h.zero);
    assert Padded([a, b], h.zero, 2) == [a, b, h.zero, h.zero];
  }

  /** The leaves by the field numbers of the consensus specification: the signatures, the two slashing lists, the
      attestations, deposits, exits and credential changes, all of them empty lists of their limits, and the rest. */
  ghost predicate ByField<T>(h: Hasher<T>, body: Body<T>, leaves: seq<T>)
    requires |body.commitments| <= Pow(LIST_DEPTH)
  {
    var electra := body.requests.Some?;
    && |leaves| == 16 && leaves[0] == body.randao && leaves[1] == body.eth1 && leaves[2] == body.graffiti
    && leaves[3] == ListRoot(h, [], LimitDepth(16))
    && leaves[4] == ListRoot(h, [], LimitDepth(if electra then 1 else 2))
    && leaves[5] == ListRoot(h, [], LimitDepth(if electra then 8 else 128))
    && leaves[6] == ListRoot(h, [], LimitDepth(16)) && leaves[7] == ListRoot(h, [], LimitDepth(16))
    && leaves[8] == body.sync && leaves[9] == body.payload && leaves[10] == ListRoot(h, [], LimitDepth(16))
    && leaves[11] == ListRoot(h, body.commitments, 12)
    && leaves[12] == (if electra then body.requests.value else h.zero)
    && leaves[13] == h.zero && leaves[14] == h.zero && leaves[15] == h.zero
  }

  lemma SmallDepths()
    ensures LimitDepth(1) == 0 && LimitDepth(2) == 1 && LimitDepth(8) == 3
    ensures LimitDepth(16) == 4 && LimitDepth(128) == 7
  {
    assert LimitDepth(2) == 1 && LimitDepth(4) == 2 && LimitDepth(8) == 3 && LimitDepth(16) == 4;
    assert LimitDepth(32) == 5 && LimitDepth(64) == 6 && LimitDepth(128) == 7;
  }

  /** The leaves built by `kzgCommitmentsInclusionProof` and `denebKZGCommitmentsInclusionProof`. */
  method BuildBodyLeaves<T>(h: Hasher<T>, body: Body<T>) returns (leaves: seq<T>)
    requires h.length(0) == h.zero && |body.commitments| <= Pow(LIST_DEPTH)
    ensures leaves == BodyLeaves(h, body) && ByField(h, body, leaves)
  {
    SmallDepths();
    hide Pow, ListRoot, LimitDepth;
    var electra := body.requests.Some?;
    var root := MerkleizeList(h, body.commitments, LIST_DEPTH);
    var empty := EmptyListRoot(h, 16);
    var slashings := EmptyListRoot(h, if electra then 1 else 2);
    var attestations := EmptyListRoot(h, if electra then 8 else 128);
    var used := [body.randao, body.eth1, body.graffiti, empty, slashings, attestations, empty, empty, body.sync,
                 body.payload, empty, root];
    if electra { used := used + [body.requests.value]; }
    leaves := used + seq(16 - |used|, i => h.zero);
  }

  /** Refused unless the hand-built tree has the library's root; then the four siblings of the commitment list. */
  method CommitmentsProof<T(==)>(h: Hasher<T>, body: Body<T>, want: T) returns (proof: Option<seq<T>>)
    requires h.length(0) == h.zero && |body.commitments| <= Pow(LIST_DEPTH)
    ensures Pow(BODY_DEPTH) == 16
    ensures proof.Some? <==> Root(h, BodyLeaves(h, body), BODY_DEPTH) == want
    ensures proof.Some? ==> proof.value == Branch(h, BodyLeaves(h, body), COMMITMENTS_LEAF, BODY_DEPTH)
    ensures proof.Some? ==> Fold(h, ListRoot(h, body.commitments, LIST_DEPTH), COMMITMENTS_LEAF, proof.value) == want
  {
    SmallPowers();
    hide Pow, ListRoot, Root, Branch, Fold, BodyLeaves;
    var leaves := BuildBodyLeaves(h, body);
    var bodyRoot := MerkleizeFixed(h, leaves, BODY_DEPTH);
    if bodyRoot != want { return None; }
    var branch := BuildBranch(h, leaves, COMMITMENTS_LEAF, BODY_DEPTH);
    return Some(branch);
  }

  /** `blobCommitmentInclusionProof`: for every commitment of every body whose tree has the library's root, seventeen
      siblings that take the commitment at its subtree index to that root; anything else is refused. */
  method BlobCommitmentProof<T(==)>(h: Hasher<T>, body: Body<T>, index: nat, want: T) returns (proof: Option<seq<T>>)
    requires h.length(0) == h.zero && |body.commitments| <= Pow(LIST_DEPTH)
    ensures Pow(BODY_DEPTH) == 16
    ensures proof.Some? <==> index < |body.commitments| && Root(h, BodyLeaves(h, body), BODY_DEPTH) == want
    ensures proof.Some? ==>
              |proof.value| == 17 &&
              Fold(h, body.commitments[index], 4096 * (2 * COMMITMENTS_LEAF) + index, proof.value) == want
  {
    SmallPowers();
    hide Pow, Fold, Root, Branch, ListRoot, BodyLeaves;
    if index >= |body.commitments| { return None; }
    var nodes := body.commitments + seq(4096 - |body.commitments|, i => h.zero);
    assert nodes == Padded(body.commitments, h.zero, LIST_DEPTH);
    var list := BuildBranch(h, nodes, index, LIST_DEPTH);
    var top := CommitmentsProof(h, body, want);
    if top.None? { return None; }
    ProofsChain(h, body.commitments, index, LIST_DEPTH, BodyLeaves(h, body), COMMITMENTS_LEAF, BODY_DEPTH,
                4096 * (2 * COMMITMENTS_LEAF) + index);
    return Some(list + [h.length(|body.commitments|)] + top.value);
  }
}
