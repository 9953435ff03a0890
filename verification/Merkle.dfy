/** The Merkle tree of a block, kept as one flat array, and Merkle branches: legacy/src/core.cpp. */
module Merkle {

  type Hash(==, !new)

  /** The hash of two hashes. */
  type Pair = (Hash, Hash) -> Hash

  // -------------------------------------------------------------------------
  // Rows
  // -------------------------------------------------------------------------

  /** The row above: neighbours are hashed together, and a last one without a neighbour with itself. */
  function Up(h: Pair, row: seq<Hash>): (up: seq<Hash>)
    ensures |up| == (|row| + 1) / 2
  {
    if row == [] then []
    else if |row| == 1 then [h(row[0], row[0])]
    else [h(row[0], row[1])] + Up(h, row[2..])
  }

  /** All rows from this one up, one after the other. */
  function Flat(h: Pair, row: seq<Hash>): seq<Hash>
    decreases |row|
  {
    if |row| <= 1 then row else row + Flat(h, Up(h, row))
  }

  function Root(h: Pair, row: seq<Hash>): Hash
    requires row != []
    decreases |row|
  {
    if |row| == 1 then row[0] else Root(h, Up(h, row))
  }

  function Depth(n: nat): nat {
    if n <= 1 then 0 else 1 + Depth((n + 1) / 2)
  }

  lemma {:induction false} FlatEndsInRoot(h: Pair, row: seq<Hash>)
    requires row != []
    ensures Flat(h, row) != [] && Flat(h, row)[|Flat(h, row)| - 1] == Root(h, row)
    decreases |row|
  {
    if |row| > 1 {
      FlatEndsInRoot(h, Up(h, row));
    }
  }

  // -------------------------------------------------------------------------
  // The reference: a tree described from the top, by height and position
  // -------------------------------------------------------------------------

  function Width(n: nat, height: nat): nat {
    if height == 0 then n else (Width(n, height - 1) + 1) / 2
  }

  /** The hash over the leaves below a position; a missing right child is replaced by the left one. */
  function Node(h: Pair, leaves: seq<Hash>, height: nat, pos: nat): Hash
    requires pos < Width(|leaves|, height)
    decreases height
  {
    if height == 0 then leaves[pos]
    else
      var left := Node(h, leaves, height - 1, 2 * pos);
      if 2 * pos + 1 < Width(|leaves|, height - 1) then h(left, Node(h, leaves, height - 1, 2 * pos + 1))
      else h(left, left)
  }

  lemma {:induction false} UpAt(h: Pair, row: seq<Hash>, i: nat)
    requires i < (|row| + 1) / 2
    ensures Up(h, row)[i] == h(row[2 * i], row[if 2 * i + 1 < |row| then 2 * i + 1 else 2 * i])
  {
    if i > 0 {
      UpAt(h, row[2..], i - 1);
    }
  }

  lemma NodeAbove(h: Pair, leaves: seq<Hash>, height: nat, pos: nat)
    requires height > 0 && pos < Width(|leaves|, height)
    ensures var right := if 2 * pos + 1 < Width(|leaves|, height - 1) then 2 * pos + 1 else 2 * pos;
      Node(h, leaves, height, pos) == h(Node(h, leaves, height - 1, 2 * pos), Node(h, leaves, height - 1, right))
  {
  }

  /** Where a row begins in the flat array. */
  function Offset(n: nat, height: nat): nat {
    if height == 0 then 0 else Offset(n, height - 1) + Width(n, height - 1)
  }

  lemma {:induction false} Halved(n: nat, height: nat)
    ensures Width((n + 1) / 2, height) == Width(n, height + 1)
    ensures n + Offset((n + 1) / 2, height) == Offset(n, height + 1)
  {
    if height > 0 {
      Halved(n, height - 1);
    }
  }

  /** Every position of the tree has its hash at its place in the flat array. */
  lemma {:induction false} FlatIsTree(h: Pair, leaves: seq<Hash>, height: nat, pos: nat)
    requires height <= Depth(|leaves|) && pos < Width(|leaves|, height)
    ensures Offset(|leaves|, height) + pos < |Flat(h, leaves)|
    ensures Flat(h, leaves)[Offset(|leaves|, height) + pos] == Node(h, leaves, height, pos)
    decreases height
  {
    if height > 0 {
      var up := Up(h, leaves);
      Halved(|leaves|, height - 1);
      FlatIsTree(h, up, height - 1, pos);
      NodeOfUp(h, leaves, up, height - 1, pos);
      assert Flat(h, leaves)[|leaves| + (Offset(|up|, height - 1) + pos)] == Flat(h, up)[Offset(|up|, height - 1) + pos];
    }
  }

  /** Equal children have equal parents. */
  lemma SameParents(h: Pair, a: seq<Hash>, b: seq<Hash>, m: nat, n: nat, pos: nat)
    requires Width(|a|, m) == Width(|b|, n) && pos < (Width(|a|, m) + 1) / 2
    requires Node(h, a, m, 2 * pos) == Node(h, b, n, 2 * pos)
    requires 2 * pos + 1 < Width(|a|, m) ==> Node(h, a, m, 2 * pos + 1) == Node(h, b, n, 2 * pos + 1)
    ensures Node(h, a, m + 1, pos) == Node(h, b, n + 1, pos)
  {
    NodeAbove(h, a, m + 1, pos);
    NodeAbove(h, b, n + 1, pos);
  }

  lemma LeafOfUp(h: Pair, leaves: seq<Hash>, pos: nat)
    requires pos < (|leaves| + 1) / 2
    ensures Node(h, Up(h, leaves), 0, pos) == Node(h, leaves, 1, pos)
  {
    NodeAbove(h, leaves, 1, pos);
    UpAt(h, leaves, pos);
  }

  /** Building the tree over the second row is building the tree over the leaves. */
  lemma {:induction false} NodeOfUp(h: Pair, leaves: seq<Hash>, up: seq<Hash>, height: nat, pos: nat)
    requires up == Up(h, leaves)
    requires pos < Width(|leaves|, height + 1) == Width(|up|, height)
    ensures Node(h, up, height, pos) == Node(h, leaves, height + 1, pos)
  {
    if height == 0 {
      LeafOfUp(h, leaves, pos);
    } else {
      Halved(|leaves|, height - 1);
      NodeOfUp(h, leaves, up, height - 1, 2 * pos);
      if 2 * pos + 1 < Width(|up|, height - 1) {
        NodeOfUp(h, leaves, up, height - 1, 2 * pos + 1);
      }
      SameParents(h, up, leaves, height - 1, height, pos);
    }
  }

  lemma {:induction false} TopIsOne(n: nat)
    requires n > 0
    ensures Width(n, Depth(n)) == 1
  {
    if n > 1 {
      TopIsOne((n + 1) / 2);
      Halved(n, Depth(n) - 1);
    }
  }

  /** The array has nothing else. */
  lemma {:induction false} FlatLength(h: Pair, leaves: seq<Hash>)
    requires leaves != []
    ensures |Flat(h, leaves)| == Offset(|leaves|, Depth(|leaves|)) + 1
    decreases |leaves|
  {
    if |leaves| > 1 {
      FlatLength(h, Up(h, leaves));
      Halved(|leaves|, Depth(|leaves|) - 1);
    }
  }

  /** The root is the top of the tree. */
  lemma {:induction false} RootIsTop(h: Pair, leaves: seq<Hash>)
    requires leaves != []
    ensures Width(|leaves|, Depth(|leaves|)) == 1
    ensures Root(h, leaves) == Node(h, leaves, Depth(|leaves|), 0)
    decreases |leaves|
  {
    TopIsOne(|leaves|);
    if |leaves| > 1 {
      var up := Up(h, leaves);
      RootIsTop(h, up);
      NodeOfUp(h, leaves, up, Depth(|up|), 0);
    }
  }

  /** The left hash goes first, and a hash without a neighbour is paired with itself. */
  lemma SmallRoots(h: Pair, a: Hash, b: Hash, c: Hash)
    ensures Root(h, [a]) == a && Root(h, [a, b]) == h(a, b) && Root(h, [a, b, c]) == h(h(a, b), h(c, c))
  {
    var two, three := [a, b], [a, b, c];
    assert two[2..] == [] && three[2..] == [c];
    assert Up(h, two) == [h(a, b)];
    assert Up(h, three) == [h(a, b), h(c, c)];
    var above := [h(a, b), h(c, c)];
    assert above[2..] == [];
    var top := [h(h(a, b), h(c, c))];
    assert Up(h, above) == top;
    assert Root(h, three) == Root(h, above) == Root(h, top);
  }

  // -------------------------------------------------------------------------
  // Branches
  // -------------------------------------------------------------------------

  function Sibling(i: nat): nat { if i % 2 == 0 then i + 1 else i - 1 }

  function Min(a: int, b: int): int { if a < b then a else b }

  function Branch(h: Pair, row: seq<Hash>, i: nat): seq<Hash>
    decreases |row|
  {
    if |row| <= 1 then [] else [row[Min(Sibling(i), |row| - 1)]] + Branch(h, Up(h, row), i / 2)
  }

  /** One step up, the other side being given. */
  function Step(h: Pair, hash: Hash, other: Hash, i: int): Hash {
    if i % 2 == 1 then h(other, hash) else h(hash, other)
  }

  function Fold(h: Pair, hash: Hash, branch: seq<Hash>, i: int): Hash
    decreases |branch|
  {
    if branch == [] then hash else Fold(h, Step(h, hash, branch[0], i), branch[1..], i / 2)
  }

  lemma FoldAbove(h: Pair, hash: Hash, other: Hash, rest: seq<Hash>, i: int)
    ensures Fold(h, hash, [other] + rest, i) == Fold(h, Step(h, hash, other, i), rest, i / 2)
  {
    assert ([other] + rest)[1..] == rest;
  }

  /** The sibling of the left child is the right one, or the left one itself at the end of the row. */
  lemma SiblingOfLeft(row: seq<Hash>, j: nat)
    requires 2 * j < |row|
    ensures Min(Sibling(2 * j), |row| - 1) == if 2 * j + 1 < |row| then 2 * j + 1 else 2 * j
    ensures 2 * j % 2 == 0
  {
  }

  lemma SiblingOfRight(row: seq<Hash>, j: nat)
    requires 2 * j + 1 < |row|
    ensures Min(Sibling(2 * j + 1), |row| - 1) == 2 * j
    ensures (2 * j + 1) % 2 == 1
  {
  }

  lemma StepLeft(h: Pair, row: seq<Hash>, j: nat)
    requires 2 * j < |row|
    ensures Step(h, row[2 * j], row[Min(Sibling(2 * j), |row| - 1)], 2 * j)
      == h(row[2 * j], row[if 2 * j + 1 < |row| then 2 * j + 1 else 2 * j])
  {
    SiblingOfLeft(row, j);
  }

  lemma StepRight(h: Pair, row: seq<Hash>, j: nat)
    requires 2 * j + 1 < |row|
    ensures Step(h, row[2 * j + 1], row[Min(Sibling(2 * j + 1), |row| - 1)], 2 * j + 1) == h(row[2 * j], row[2 * j + 1])
  {
    SiblingOfRight(row, j);
  }

  lemma StepIsPair(h: Pair, row: seq<Hash>, i: nat, j: nat)
    requires i < |row| && (i == 2 * j || i == 2 * j + 1)
    ensures Step(h, row[i], row[Min(Sibling(i), |row| - 1)], i)
      == h(row[2 * j], row[if 2 * j + 1 < |row| then 2 * j + 1 else 2 * j])
  {
    if i == 2 * j {
      StepLeft(h, row, j);
    } else {
      StepRight(h, row, j);
    }
  }

  lemma StepIsUp(h: Pair, row: seq<Hash>, i: nat)
    requires i < |row| && |row| > 1
    ensures Step(h, row[i], row[Min(Sibling(i), |row| - 1)], i) == Up(h, row)[i / 2]
  {
    StepIsPair(h, row, i, i / 2);
    UpAt(h, row, i / 2);
  }

  /** The branch of any leaf leads from that leaf to the root. */
  lemma {:induction false} BranchLeadsToRoot(h: Pair, row: seq<Hash>, i: nat)
    requires i < |row|
    ensures |Branch(h, row, i)| == Depth(|row|)
    ensures Fold(h, row[i], Branch(h, row, i), i) == Root(h, row)
    decreases |row|
  {
    if |row| > 1 {
      var up := Up(h, row);
      var other := row[Min(Sibling(i), |row| - 1)];
      StepIsUp(h, row, i);
      BranchLeadsToRoot(h, up, i / 2);
      FoldAbove(h, row[i], other, Branch(h, up, i / 2), i);
    }
  }

  ghost predicate Injective(h: Pair) {
    forall a, b, c, d :: h(a, b) == h(c, d) ==> a == c && b == d
  }

  lemma UnStep(h: Pair, row: seq<Hash>, i: nat, hash: Hash, other: Hash)
    requires Injective(h) && i < |row| && |row| > 1 && Step(h, hash, other, i) == Up(h, row)[i / 2]
    ensures hash == row[i] && other == row[Min(Sibling(i), |row| - 1)]
  {
    var j := i / 2;
    UpAt(h, row, j);
    if i == 2 * j {
      SiblingOfLeft(row, j);
    } else {
      SiblingOfRight(row, j);
    }
  }

  /** Nothing else leads to the root: a branch as long as the tree is deep that folds to the root starts from the
      leaf at that index, and is that leaf's branch. */
  lemma {:induction false} OnlyBranchLeadsToRoot(h: Pair, row: seq<Hash>, i: nat, hash: Hash, branch: seq<Hash>)
    requires Injective(h) && i < |row| && |branch| == Depth(|row|)
    requires Fold(h, hash, branch, i) == Root(h, row)
    ensures hash == row[i] && branch == Branch(h, row, i)
    decreases |row|
  {
    if |row| > 1 {
      var other, rest := branch[0], branch[1..];
      assert branch == [other] + rest;
      FoldAbove(h, hash, other, rest, i);
      OnlyBranchLeadsToRoot(h, Up(h, row), i / 2, Step(h, hash, other, i), rest);
      UnStep(h, row, i, hash, other);
    }
  }

  /** Lists of the same length with the same root are the same. */
  lemma RootIsInjective(h: Pair, a: seq<Hash>, b: seq<Hash>)
    requires Injective(h) && |a| == |b| > 0 && Root(h, a) == Root(h, b)
    ensures a == b
  {
    forall i | 0 <= i < |a|
      ensures a[i] == b[i]
    {
      BranchLeadsToRoot(h, a, i);
      OnlyBranchLeadsToRoot(h, b, i, a[i], Branch(h, a, i));
    }
  }

  // -------------------------------------------------------------------------
  // Lists of different lengths with the same root
  // -------------------------------------------------------------------------

  /** The right child, or the left one where there is no right one. */
  function RightOf(n: nat, height: nat, pos: nat): (right: nat)
    requires height > 0 && pos < Width(n, height)
    ensures right < Width(n, height - 1) && 2 * pos < Width(n, height - 1)
  {
    if 2 * pos + 1 < Width(n, height - 1) then 2 * pos + 1 else 2 * pos
  }

  /** The leaf that going down from a position leads to, right where the path says so. */
  function LeafBelow(n: nat, height: nat, pos: nat, path: seq<bool>): (leaf: nat)
    requires pos < Width(n, height) && |path| == height
    ensures leaf < n
    decreases height
  {
    if height == 0 then pos
    else LeafBelow(n, height - 1, if path[0] then RightOf(n, height, pos) else 2 * pos, path[1..])
  }

  /** A path leads to equal leaves. */
  ghost predicate SameLeaf(a: seq<Hash>, b: seq<Hash>, height: nat, p: nat, q: nat, path: seq<bool>)
    requires p < Width(|a|, height) && q < Width(|b|, height) && |path| == height
  {
    a[LeafBelow(|a|, height, p, path)] == b[LeafBelow(|b|, height, q, path)]
  }

  /** Every path does. */
  ghost predicate SameLeaves(a: seq<Hash>, b: seq<Hash>, height: nat, p: nat, q: nat)
    requires p < Width(|a|, height) && q < Width(|b|, height)
  {
    forall path: seq<bool> :: |path| == height ==> SameLeaf(a, b, height, p, q, path)
  }

  lemma SameLeafBelow(a: seq<Hash>, b: seq<Hash>, height: nat, p: nat, q: nat, turn: bool, path: seq<bool>)
    requires p < Width(|a|, height + 1) && q < Width(|b|, height + 1) && |path| == height
    ensures SameLeaf(a, b, height + 1, p, q, [turn] + path) <==>
      if turn then SameLeaf(a, b, height, RightOf(|a|, height + 1, p), RightOf(|b|, height + 1, q), path)
      else SameLeaf(a, b, height, 2 * p, 2 * q, path)
  {
    assert ([turn] + path)[1..] == path;
  }

  lemma SameLeavesBelow(a: seq<Hash>, b: seq<Hash>, height: nat, p: nat, q: nat)
    requires p < Width(|a|, height + 1) && q < Width(|b|, height + 1)
    ensures SameLeaves(a, b, height + 1, p, q) <==>
      && SameLeaves(a, b, height, 2 * p, 2 * q)
      && SameLeaves(a, b, height, RightOf(|a|, height + 1, p), RightOf(|b|, height + 1, q))
  {
    var r, t := RightOf(|a|, height + 1, p), RightOf(|b|, height + 1, q);
    if SameLeaves(a, b, height + 1, p, q) {
      forall path: seq<bool> | |path| == height
        ensures SameLeaf(a, b, height, 2 * p, 2 * q, path) && SameLeaf(a, b, height, r, t, path)
      {
        SameLeafBelow(a, b, height, p, q, false, path);
        SameLeafBelow(a, b, height, p, q, true, path);
      }
    }
    if SameLeaves(a, b, height, 2 * p, 2 * q) && SameLeaves(a, b, height, r, t) {
      forall path: seq<bool> | |path| == height + 1
        ensures SameLeaf(a, b, height + 1, p, q, path)
      {
        var turn, rest := path[0], path[1..];
        assert path == [turn] + rest;
        SameLeafBelow(a, b, height, p, q, turn, rest);
      }
    }
  }

  /** Two positions have the same hash exactly when their subtrees unfold to the same leaves. */
  lemma {:induction false} NodesCollide(h: Pair, a: seq<Hash>, b: seq<Hash>, height: nat, p: nat, q: nat)
    requires Injective(h) && p < Width(|a|, height) && q < Width(|b|, height)
    ensures Node(h, a, height, p) == Node(h, b, height, q) <==> SameLeaves(a, b, height, p, q)
    decreases height
  {
    if height == 0 {
      var here: seq<bool> := [];
      assert SameLeaf(a, b, 0, p, q, here) <==> a[p] == b[q];
    } else {
      NodeAbove(h, a, height, p);
      NodeAbove(h, b, height, q);
      NodesCollide(h, a, b, height - 1, 2 * p, 2 * q);
      NodesCollide(h, a, b, height - 1, RightOf(|a|, height, p), RightOf(|b|, height, q));
      SameLeavesBelow(a, b, height - 1, p, q);
    }
  }

  /** No leaf is the hash of two hashes. */
  ghost predicate OnlyLeaves(h: Pair, leaves: seq<Hash>) {
    forall i, x, y :: 0 <= i < |leaves| ==> leaves[i] != h(x, y)
  }

  /** If the one tree is deeper, the other's first leaf is one of its inner hashes. */
  lemma {:induction false} DeeperTree(h: Pair, a: seq<Hash>, b: seq<Hash>, m: nat, n: nat)
    requires Injective(h) && m < n && 0 < Width(|a|, m) && 0 < Width(|b|, n)
    requires Node(h, a, m, 0) == Node(h, b, n, 0)
    ensures |a| > 0 && exists x, y :: a[0] == h(x, y)
  {
    NodeAbove(h, b, n, 0);
    if m > 0 {
      NodeAbove(h, a, m, 0);
      DeeperTree(h, a, b, m - 1, n - 1);
    }
  }

  /** Exactly when two lists of any lengths have the same root: their trees are equally deep and unfold, with the
      repetitions, to the same leaves. */
  lemma RootsCollide(h: Pair, a: seq<Hash>, b: seq<Hash>)
    requires Injective(h) && OnlyLeaves(h, a) && OnlyLeaves(h, b) && a != [] && b != []
    ensures Width(|a|, Depth(|a|)) == 1 && Width(|b|, Depth(|b|)) == 1
    ensures Root(h, a) == Root(h, b) <==> Depth(|a|) == Depth(|b|) && SameLeaves(a, b, Depth(|a|), 0, 0)
  {
    RootIsTop(h, a);
    RootIsTop(h, b);
    var m, n := Depth(|a|), Depth(|b|);
    if m == n {
      NodesCollide(h, a, b, m, 0, 0);
    } else if Root(h, a) == Root(h, b) {
      if m < n {
        DeeperTree(h, a, b, m, n);
      } else {
        DeeperTree(h, b, a, n, m);
      }
    }
  }

  /** Repeating the last of an odd number of leaves changes nothing. */
  lemma RepeatedTail(h: Pair, row: seq<Hash>)
    requires |row| > 1 && |row| % 2 == 1
    ensures var longer := row + [row[|row| - 1]]; longer != row && Root(h, longer) == Root(h, row)
  {
    var longer := row + [row[|row| - 1]];
    assert |Up(h, longer)| == |Up(h, row)|;
    forall i | 0 <= i < |Up(h, row)|
      ensures Up(h, longer)[i] == Up(h, row)[i]
    {
      UpAt(h, row, i);
      UpAt(h, longer, i);
    }
    assert Up(h, longer) == Up(h, row);
  }

  // -------------------------------------------------------------------------
  // The block's own methods
  // -------------------------------------------------------------------------

  /** The rows below `row` and `row` itself, which begins at `j`, have been written. */
  ghost predicate IsReached(h: Pair, leaves: seq<Hash>, tree: seq<Hash>, j: nat, row: seq<Hash>) {
    && j <= |tree| && tree[j..] == row
    && Flat(h, leaves) == tree[..j] + Flat(h, row)
  }

  lemma NextRow(h: Pair, leaves: seq<Hash>, tree: seq<Hash>, j: nat, row: seq<Hash>)
    requires IsReached(h, leaves, tree, j, row) && |row| > 1
    ensures IsReached(h, leaves, tree + Up(h, row), j + |row|, Up(h, row))
  {
    Regroup(Flat(h, leaves), tree, j, row, Up(h, row), Flat(h, Up(h, row)));
  }

  lemma Regroup(flat: seq<Hash>, tree: seq<Hash>, j: nat, row: seq<Hash>, up: seq<Hash>, above: seq<Hash>)
    requires j <= |tree| && tree[j..] == row && flat == tree[..j] + (row + above)
    ensures (tree + up)[j + |row|..] == up && flat == (tree + up)[..j + |row|] + above
  {
    assert (tree + up)[..j + |row|] == tree[..j] + row;
  }

  class Block {
    const h: Pair
    const zero: Hash
    /** The transactions' hashes. */
    const vtx: seq<Hash>
    var vMerkleTree: seq<Hash>

    /** The array is either not built yet or built. */
    ghost predicate Valid()
      reads this
    {
      vMerkleTree == [] || vMerkleTree == Flat(h, vtx)
    }

    constructor (h: Pair, zero: Hash, vtx: seq<Hash>)
      ensures Valid() && this.h == h && this.zero == zero && this.vtx == vtx && vMerkleTree == []
    {
      this.h, this.zero, this.vtx, vMerkleTree := h, zero, vtx, [];
    }

    /** Appends the row above the one that begins at `j`. */
    method AppendRow(j: nat, nSize: nat, ghost row: seq<Hash>)
      requires nSize == |row| > 1 && |vMerkleTree| == j + nSize && vMerkleTree[j..] == row
      modifies this
      ensures vMerkleTree == old(vMerkleTree) + Up(h, row)
    {
      ghost var up := Up(h, row);
      var i := 0;
      while i < nSize
        invariant 0 <= i <= nSize + 1 && i % 2 == 0
        invariant vMerkleTree == old(vMerkleTree) + up[..i / 2]
      {
        var i2 := Min(i + 1, nSize - 1);
        assert vMerkleTree[j + i] == row[i] && vMerkleTree[j + i2] == row[i2];
        vMerkleTree := vMerkleTree + [h(vMerkleTree[j + i], vMerkleTree[j + i2])];
        UpAt(h, row, i / 2);
        i := i + 2;
      }
    }

    method BuildMerkleTree() returns (root: Hash)
      modifies this
      ensures vMerkleTree == Flat(h, vtx)
      ensures root == if vtx == [] then zero else Root(h, vtx)
    {
      vMerkleTree := [];
      for k := 0 to |vtx|
        invariant vMerkleTree == vtx[..k]
      {
        vMerkleTree := vMerkleTree + [vtx[k]];
      }
      var j := 0;
      var nSize := |vtx|;
      ghost var row := vtx;
      while nSize > 1
        invariant nSize == |row| && IsReached(h, vtx, vMerkleTree, j, row)
        decreases nSize
      {
        ghost var before := vMerkleTree;
        AppendRow(j, nSize, row);
        NextRow(h, vtx, before, j, row);
        row := Up(h, row);
        j := j + nSize;
        nSize := (nSize + 1) / 2;
      }
      assert vMerkleTree == vMerkleTree[..j] + row;
      if vtx != [] {
        FlatEndsInRoot(h, vtx);
      }
      root := if |vMerkleTree| == 0 then zero else vMerkleTree[|vMerkleTree| - 1];
    }

    /** The hashes needed beside a leaf to reach the root, building the tree first if that was not done. */
    method GetMerkleBranch(nIndex: nat) returns (branch: seq<Hash>)
      requires Valid()
      modifies this
      ensures Valid() && branch == Branch(h, vtx, nIndex)
    {
      if |vMerkleTree| == 0 {
        var _ := BuildMerkleTree();
      }
      branch := CollectBranch(h, vtx, vMerkleTree, nIndex);
    }
  }

  /** Goes up through the rows of the flat array. */
  method CollectBranch(h: Pair, leaves: seq<Hash>, tree: seq<Hash>, nIndex: nat) returns (branch: seq<Hash>)
    requires tree == Flat(h, leaves)
    ensures branch == Branch(h, leaves, nIndex)
  {
    branch := [];
    var index, j, nSize := nIndex, 0, |leaves|;
    ghost var row := leaves;
    while nSize > 1
      invariant nSize == |row| && j <= |tree| && tree[j..] == Flat(h, row)
      invariant Branch(h, leaves, nIndex) == branch + Branch(h, row, index)
      decreases nSize
    {
      var i := Min(Sibling(index), nSize - 1);
      InFlat(h, row, tree, j, i);
      BranchAbove(h, row, index, branch);
      branch := branch + [tree[j + i]];
      row := Up(h, row);
      index := index / 2;
      j := j + nSize;
      nSize := (nSize + 1) / 2;
    }
    assert Branch(h, row, index) == [];
  }

  lemma BranchAbove(h: Pair, row: seq<Hash>, i: nat, before: seq<Hash>)
    requires |row| > 1
    ensures before + Branch(h, row, i) == before + [row[Min(Sibling(i), |row| - 1)]] + Branch(h, Up(h, row), i / 2)
  {
  }

  lemma InFlat(h: Pair, row: seq<Hash>, tree: seq<Hash>, j: nat, i: nat)
    requires i < |row| && |row| > 1 && j <= |tree| && tree[j..] == Flat(h, row)
    ensures j + |row| <= |tree| && tree[j + i] == row[i]
    ensures tree[j + |row|..] == Flat(h, Up(h, row))
  {
    var rest := tree[j..];
    assert rest == row + Flat(h, Up(h, row));
    assert tree[j + i] == rest[i];
    assert tree[j + |row|..] == rest[|row|..];
  }

  /** `nIndex` is -1 for a transaction that is in no block. */
  method CheckMerkleBranch(h: Pair, zero: Hash, hash: Hash, branch: seq<Hash>, nIndex: int) returns (r: Hash)
    ensures r == if nIndex == -1 then zero else Fold(h, hash, branch, nIndex)
  {
    if nIndex == -1 {
      return zero;
    }
    r := hash;
    var i, index := 0, nIndex;
    while i < |branch|
      invariant 0 <= i <= |branch|
      invariant Fold(h, hash, branch, nIndex) == Fold(h, r, branch[i..], index)
    {
      assert branch[i..][1..] == branch[i + 1..];
      if index % 2 == 1 {
        r := h(branch[i], r);
      } else {
        r := h(r, branch[i]);
      }
      index := index / 2;
      i := i + 1;
    }
  }

  /** A branch proves membership: what `GetMerkleBranch` gives is accepted, and nothing is accepted at that index but
      the leaf with that branch. */
  method ProveMembership(h: Pair, zero: Hash, vtx: seq<Hash>, i: nat, hash: Hash, other: seq<Hash>)
    returns (root: Hash, checked: Hash, checkedOther: Hash)
    requires i < |vtx|
    ensures Width(|vtx|, Depth(|vtx|)) == 1 && root == checked == Node(h, vtx, Depth(|vtx|), 0)
    ensures Injective(h) && |other| == Depth(|vtx|) ==>
      (checkedOther == root <==> hash == vtx[i] && other == Branch(h, vtx, i))
  {
    var block := new Block(h, zero, vtx);
    root := block.BuildMerkleTree();
    var branch := block.GetMerkleBranch(i);
    checked := CheckMerkleBranch(h, zero, vtx[i], branch, i);
    checkedOther := CheckMerkleBranch(h, zero, hash, other, i);
    RootIsTop(h, vtx);
    BranchLeadsToRoot(h, vtx, i);
    if Injective(h) && |other| == Depth(|vtx|) && checkedOther == root {
      OnlyBranchLeadsToRoot(h, vtx, i, hash, other);
    }
  }
}
