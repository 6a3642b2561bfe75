/** Merkle trees: the level-by-level construction, its top-down meaning, binding, and paths. */
module Merkle {
  import opened Prelude
  import opened ByteStrings
  import opened Crypto

  /** One level up: pair neighbours, the last node with itself when their number is odd. */
  function Parents(env: Env, level: seq<Bytes>): (r: seq<Bytes>)
    ensures |r| == (|level| + 1) / 2
    ensures forall i :: 0 <= i < |r| ==> r[i] == Parent(env, level, i)
  {
    seq((|level| + 1) / 2, i requires 0 <= i < (|level| + 1) / 2 => Parent(env, level, i))
  }

  function Right(level: seq<Bytes>, i: nat): Bytes
    requires 2 * i < |level|
  {
    if 2 * i + 1 < |level| then level[2 * i + 1] else level[2 * i]
  }

  function Parent(env: Env, level: seq<Bytes>, i: nat): Hash
    requires 2 * i < |level|
  {
    env.doubleHash(level[2 * i] + Right(level, i))
  }

  function Root(env: Env, level: seq<Bytes>): Bytes
    decreases |level|
  {
    if |level| == 0 then ZeroBytes(32)
    else if |level| == 1 then level[0]
    else Root(env, Parents(env, level))
  }

  /** All levels from the leaves to the root; none is padded. */
  function Levels(env: Env, level: seq<Bytes>): seq<seq<Bytes>>
    requires |level| > 0
    decreases |level|
  {
    if |level| == 1 then [level] else [level] + Levels(env, Parents(env, level))
  }

  method NextLevel(env: Env, level: seq<Bytes>) returns (next: seq<Bytes>)
    requires |level| > 1
    ensures next == Parents(env, level)
  {
    var tree := level;
    if |tree| % 2 != 0 {
      tree := tree + [tree[|tree| - 1]];
    }
    next := [];
    var i := 0;
    while i < |tree|
      invariant 0 <= i <= |tree| && i % 2 == 0
      invariant |next| == i / 2
      invariant forall j :: 0 <= j < |next| ==> next[j] == Parent(env, level, j)
    {
      var combined := tree[i] + tree[i + 1];
      next := next + [env.doubleHash(combined)];
      i := i + 2;
    }
  }

  method BuildMerkleRoot(env: Env, txHashes: seq<Bytes>) returns (root: Bytes)
    ensures root == Root(env, txHashes)
    ensures |txHashes| > 0 ==> root == TopDown(env, txHashes, Height(|txHashes|))
  {
    if |txHashes| > 0 {
      TopDownIsRoot(env, txHashes);
    }
    if |txHashes| == 0 {
      return ZeroBytes(32);
    }
    var tree := txHashes;
    while |tree| > 1
      invariant |tree| > 0
      invariant Root(env, tree) == Root(env, txHashes)
      decreases |tree|
    {
      tree := NextLevel(env, tree);
    }
    root := tree[0];
  }

  method BuildMerkleTree(env: Env, txHashes: seq<Bytes>) returns (tree: Option<seq<seq<Bytes>>>)
    ensures tree == if |txHashes| == 0 then None else Some(Levels(env, txHashes))
  {
    if |txHashes| == 0 {
      return None;
    }
    var currentLevel := txHashes;
    var levels := [currentLevel];
    while |currentLevel| > 1
      invariant |currentLevel| > 0 && |levels| > 0
      invariant levels[..|levels| - 1] + Levels(env, currentLevel) == Levels(env, txHashes)
      invariant levels[|levels| - 1] == currentLevel
      decreases |currentLevel|
    {
      ghost var below := levels[..|levels| - 1];
      ghost var was := currentLevel;
      currentLevel := NextLevel(env, currentLevel);
      assert below + Levels(env, was) == (below + [was]) + Levels(env, currentLevel);
      levels := levels + [currentLevel];
      assert levels[..|levels| - 1] == below + [was];
    }
    assert levels[..|levels| - 1] + [currentLevel] == levels;
    tree := Some(levels);
  }

  /** ---------- Shape ---------- */

  /** The least h with n <= 2^h. */
  function Height(n: nat): (h: nat)
    ensures n <= Pow(2, h)
    ensures h > 0 ==> Pow(2, h - 1) < n
    ensures n > 1 ==> h > 0 && Height((n + 1) / 2) == h - 1
  {
    if n <= 1 then 0 else 1 + Height((n + 1) / 2)
  }

  /** q = ceil(n / d). */
  predicate IsCeiling(q: int, n: int, d: int) {
    (q - 1) * d < n <= q * d
  }

  lemma CeilingDoubles(q: int, n: nat, d: int)
    requires IsCeiling(q, (n + 1) / 2, d)
    ensures IsCeiling(q, n, 2 * d)
  {
    var u, v := (q - 1) * d, q * d;
    assert (q - 1) * (2 * d) == 2 * u && q * (2 * d) == 2 * v;
  }

  /** There are Height(n) + 1 levels, from the leaves up to the root alone. */
  lemma {:induction false} LevelsCount(env: Env, leaves: seq<Bytes>)
    requires |leaves| > 0
    ensures |Levels(env, leaves)| == Height(|leaves|) + 1
    ensures Levels(env, leaves)[0] == leaves
    ensures Levels(env, leaves)[|Levels(env, leaves)| - 1] == [Root(env, leaves)]
    decreases |leaves|
  {
    if |leaves| > 1 {
      LevelsCount(env, Parents(env, leaves));
    } else {
      assert leaves == [leaves[0]];
    }
  }

  /** Level k has ceil(n / 2^k) nodes. */
  lemma {:induction false} LevelSize(env: Env, leaves: seq<Bytes>, k: nat)
    requires |leaves| > 0 && k < |Levels(env, leaves)|
    ensures IsCeiling(|Levels(env, leaves)[k]|, |leaves|, Pow(2, k))
    decreases k
  {
    if k > 0 {
      var up := Parents(env, leaves);
      assert Levels(env, leaves)[k] == Levels(env, up)[k - 1];
      LevelSize(env, up, k - 1);
      CeilingDoubles(|Levels(env, up)[k - 1]|, |leaves|, Pow(2, k - 1));
    } else {
      assert Levels(env, leaves)[0] == leaves;
    }
  }

  /** ---------- Top-down meaning ---------- */

  /** A non-empty list that fits under a tree of height h. */
  predicate Fits(leaves: seq<Bytes>, h: nat) {
    0 < |leaves| <= Pow(2, h)
  }

  function LeftHalf(leaves: seq<Bytes>, h: nat): (r: seq<Bytes>)
    requires h > 0 && Fits(leaves, h)
    ensures Fits(r, h - 1)
  {
    if |leaves| <= Pow(2, h - 1) then leaves else leaves[..Pow(2, h - 1)]
  }

  function RightHalf(leaves: seq<Bytes>, h: nat): (r: seq<Bytes>)
    requires h > 0 && Fits(leaves, h)
    ensures Fits(r, h - 1)
  {
    if |leaves| <= Pow(2, h - 1) then leaves else leaves[Pow(2, h - 1)..]
  }

  /** A tree of height h over at most 2^h leaves, split at the power of two below;
      an empty right half repeats the left one. */
  function TopDown(env: Env, leaves: seq<Bytes>, h: nat): Bytes
    requires Fits(leaves, h)
  {
    if h == 0 then leaves[0]
    else env.doubleHash(TopDown(env, LeftHalf(leaves, h), h - 1) + TopDown(env, RightHalf(leaves, h), h - 1))
  }

  /** Pairing a list level by level respects its split into halves. */
  lemma ParentsOfHalves(env: Env, leaves: seq<Bytes>, h: nat)
    requires h > 1 && Fits(leaves, h)
    ensures Fits(Parents(env, leaves), h - 1)
    ensures LeftHalf(Parents(env, leaves), h - 1) == Parents(env, LeftHalf(leaves, h))
    ensures RightHalf(Parents(env, leaves), h - 1) == Parents(env, RightHalf(leaves, h))
  {
    var quarter, half := Pow(2, h - 2), Pow(2, h - 1);
    assert half == 2 * quarter;
    if |leaves| > half {
      var up, l, r := Parents(env, leaves), Parents(env, leaves[..half]), Parents(env, leaves[half..]);
      assert |l| == quarter && |up| == quarter + |r|;
      forall i | 0 <= i < quarter ensures up[i] == l[i] { }
      forall i | 0 <= i < |r| ensures up[quarter + i] == r[i] {
        assert Right(leaves, quarter + i) == Right(leaves[half..], i);
      }
    }
  }

  /** Building one level first does not change the top-down value. */
  lemma {:induction false} TopDownStep(env: Env, leaves: seq<Bytes>, h: nat)
    requires h > 0 && Fits(leaves, h)
    ensures Fits(Parents(env, leaves), h - 1)
    ensures TopDown(env, leaves, h) == TopDown(env, Parents(env, leaves), h - 1)
    decreases h
  {
    if h == 1 {
      assert Pow(2, 0) == 1 && Pow(2, 1) == 2;
      assert TopDown(env, LeftHalf(leaves, 1), 0) == leaves[0];
      assert TopDown(env, RightHalf(leaves, 1), 0) == Right(leaves, 0);
    } else {
      ParentsOfHalves(env, leaves, h);
      TopDownStep(env, LeftHalf(leaves, h), h - 1);
      TopDownStep(env, RightHalf(leaves, h), h - 1);
    }
  }

  /** The bottom-up loop computes the top-down tree of the least sufficient height. */
  lemma {:induction false} TopDownIsRoot(env: Env, leaves: seq<Bytes>)
    requires |leaves| > 0
    ensures Root(env, leaves) == TopDown(env, leaves, Height(|leaves|))
    decreases |leaves|
  {
    if |leaves| > 1 {
      TopDownStep(env, leaves, Height(|leaves|));
      TopDownIsRoot(env, Parents(env, leaves));
    }
  }

  /** Appending a copy of the last element to an odd list of at least three leaves the root unchanged. */
  lemma DuplicateLastKeepsRoot(env: Env, leaves: seq<Bytes>)
    requires |leaves| >= 3 && |leaves| % 2 == 1
    ensures Root(env, leaves + [leaves[|leaves| - 1]]) == Root(env, leaves)
  {
    assert Parents(env, leaves + [leaves[|leaves| - 1]]) == Parents(env, leaves);
  }

  /** ---------- Binding ---------- */

  /** The 2^h leaves the tree of height h is really built over. */
  function Padded(leaves: seq<Bytes>, h: nat): (r: seq<Bytes>)
    requires Fits(leaves, h)
    ensures |r| == Pow(2, h)
  {
    if h == 0 then leaves
    else Padded(LeftHalf(leaves, h), h - 1) + Padded(RightHalf(leaves, h), h - 1)
  }

  lemma PrefixConcat(l: seq<Bytes>, r: seq<Bytes>, more: seq<Bytes>)
    requires r <= more
    ensures l + r <= l + more
  {
  }

  /** Padding only ever adds behind the list. */
  lemma {:induction false} PaddedExtends(leaves: seq<Bytes>, h: nat)
    requires Fits(leaves, h)
    ensures leaves <= Padded(leaves, h)
  {
    if h > 0 {
      var l, r := LeftHalf(leaves, h), RightHalf(leaves, h);
      PaddedExtends(l, h - 1);
      PaddedExtends(r, h - 1);
      var pl, pr := Padded(l, h - 1), Padded(r, h - 1);
      assert Padded(leaves, h) == pl + pr;
      if |leaves| > Pow(2, h - 1) {
        assert l == pl && leaves == l + r;
        PrefixConcat(l, r, pr);
      } else {
        assert leaves == l;
        assert l <= pl <= pl + pr;
      }
    }
  }

  /** The byte string hashed at the top of a tree of height h. */
  function NodePreimage(env: Env, leaves: seq<Bytes>, h: nat): Bytes
    requires h > 0 && Fits(leaves, h)
  {
    TopDown(env, LeftHalf(leaves, h), h - 1) + TopDown(env, RightHalf(leaves, h), h - 1)
  }

  /** x and y are a collision of the hash function. */
  predicate Collide(env: Env, x: Bytes, y: Bytes) {
    x != y && env.doubleHash(x) == env.doubleHash(y)
  }

  predicate TopsCollide(env: Env, a: seq<Bytes>, b: seq<Bytes>, h: nat)
    requires h > 0 && Fits(a, h) && Fits(b, h)
  {
    Collide(env, NodePreimage(env, a, h), NodePreimage(env, b, h))
  }

  /** At no position of two trees of height h are different byte strings hashed to one digest. */
  predicate NoCollision(env: Env, a: seq<Bytes>, b: seq<Bytes>, h: nat)
    requires Fits(a, h) && Fits(b, h)
    decreases h
  {
    if h == 0 then true
    else
      && !TopsCollide(env, a, b, h)
      && NoCollision(env, LeftHalf(a, h), LeftHalf(b, h), h - 1)
      && NoCollision(env, RightHalf(a, h), RightHalf(b, h), h - 1)
  }

  predicate AllHashes(leaves: seq<Bytes>) {
    forall i :: 0 <= i < |leaves| ==> |leaves[i]| == 32
  }

  lemma TopDownIsHash(env: Env, leaves: seq<Bytes>, h: nat)
    requires Fits(leaves, h) && AllHashes(leaves)
    ensures |TopDown(env, leaves, h)| == 32
  {
  }

  lemma SplitNode(env: Env, leaves: seq<Bytes>, h: nat)
    requires h > 0 && Fits(leaves, h) && AllHashes(leaves)
    ensures AllHashes(LeftHalf(leaves, h)) && AllHashes(RightHalf(leaves, h))
    ensures |NodePreimage(env, leaves, h)| == 64
    ensures NodePreimage(env, leaves, h)[..32] == TopDown(env, LeftHalf(leaves, h), h - 1)
    ensures NodePreimage(env, leaves, h)[32..] == TopDown(env, RightHalf(leaves, h), h - 1)
  {
    TopDownIsHash(env, LeftHalf(leaves, h), h - 1);
    TopDownIsHash(env, RightHalf(leaves, h), h - 1);
  }

  /** Equal roots without collisions: the subtrees on both sides have equal roots. */
  lemma BindingStep(env: Env, a: seq<Bytes>, b: seq<Bytes>, h: nat)
    requires h > 0 && Fits(a, h) && Fits(b, h) && AllHashes(a) && AllHashes(b)
    requires NoCollision(env, a, b, h)
    requires TopDown(env, a, h) == TopDown(env, b, h)
    ensures TopDown(env, LeftHalf(a, h), h - 1) == TopDown(env, LeftHalf(b, h), h - 1)
    ensures TopDown(env, RightHalf(a, h), h - 1) == TopDown(env, RightHalf(b, h), h - 1)
  {
    SplitNode(env, a, h);
    SplitNode(env, b, h);
    assert NodePreimage(env, a, h) == NodePreimage(env, b, h);
  }

  /** Equal heights and equal roots mean equal padded leaves, unless the trees exhibit a collision. */
  lemma {:induction false} Binding(env: Env, a: seq<Bytes>, b: seq<Bytes>, h: nat)
    requires Fits(a, h) && Fits(b, h) && AllHashes(a) && AllHashes(b)
    requires NoCollision(env, a, b, h)
    requires TopDown(env, a, h) == TopDown(env, b, h)
    ensures Padded(a, h) == Padded(b, h)
    decreases h
  {
    if h == 0 {
      assert a == [a[0]] && b == [b[0]];
    } else {
      BindingStep(env, a, b, h);
      SplitNode(env, a, h);
      SplitNode(env, b, h);
      Binding(env, LeftHalf(a, h), LeftHalf(b, h), h - 1);
      Binding(env, RightHalf(a, h), RightHalf(b, h), h - 1);
    }
  }

  lemma SamePrefix(a: seq<Bytes>, b: seq<Bytes>, p: seq<Bytes>)
    requires a <= p && b <= p && |a| == |b|
    ensures a == b
  {
  }

  /** The root of the loop commits to the list, up to padding and tree height; equally long
      lists with equal roots are equal. */
  lemma RootBinds(env: Env, a: seq<Bytes>, b: seq<Bytes>)
    requires |a| > 0 && |b| > 0 && AllHashes(a) && AllHashes(b)
    requires Height(|a|) == Height(|b|)
    requires NoCollision(env, a, b, Height(|a|))
    requires Root(env, a) == Root(env, b)
    ensures Padded(a, Height(|a|)) == Padded(b, Height(|b|))
    ensures |a| == |b| ==> a == b
  {
    TopDownIsRoot(env, a);
    TopDownIsRoot(env, b);
    Binding(env, a, b, Height(|a|));
    if |a| == |b| {
      PaddedExtends(a, Height(|a|));
      PaddedExtends(b, Height(|b|));
      SamePrefix(a, b, Padded(a, Height(|a|)));
    }
  }

  /** ---------- Inclusion paths ---------- */

  /** The neighbour a node is paired with; a last node without one is its own. */
  function Sibling(level: seq<Bytes>, i: nat): Bytes
    requires i < |level|
  {
    if i % 2 == 1 then level[i - 1] else if i + 1 < |level| then level[i + 1] else level[i]
  }

  /** Fold a leaf at position i with the siblings read off the levels. */
  function FoldPath(env: Env, tree: seq<seq<Bytes>>, i: nat, x: Bytes): Bytes {
    if |tree| <= 1 || i >= |tree[0]| then x
    else if i % 2 == 0 then
      FoldPath(env, tree[1..], i / 2, env.doubleHash(x + Sibling(tree[0], i)))
    else
      FoldPath(env, tree[1..], i / 2, env.doubleHash(Sibling(tree[0], i) + x))
  }

  /** Every leaf folds to the root along its path. */
  lemma {:induction false} PathLeadsToRoot(env: Env, leaves: seq<Bytes>, i: nat)
    requires i < |leaves|
    ensures FoldPath(env, Levels(env, leaves), i, leaves[i]) == Root(env, leaves)
    decreases |leaves|
  {
    if |leaves| > 1 {
      var up := Parents(env, leaves);
      var parent := env.doubleHash(
        if i % 2 == 0 then leaves[i] + Sibling(leaves, i) else Sibling(leaves, i) + leaves[i]);
      assert 2 * (i / 2) == i - i % 2;
      assert up[i / 2] == Parent(env, leaves, i / 2) == parent;
      PathLeadsToRoot(env, up, i / 2);
      FoldStep(env, leaves, Levels(env, up), i);
    }
  }

  lemma FoldStep(env: Env, level: seq<Bytes>, above: seq<seq<Bytes>>, i: nat)
    requires i < |level| && |above| > 0
    ensures FoldPath(env, [level] + above, i, level[i]) ==
      FoldPath(env, above, i / 2, env.doubleHash(
        if i % 2 == 0 then level[i] + Sibling(level, i) else Sibling(level, i) + level[i]))
  {
    assert ([level] + above)[1..] == above;
  }
}
