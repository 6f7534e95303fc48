/** Binary Merkle trees over any chunks and any compression function.  Since no function into fixed-size
    chunks is injective, binding is stated with an explicit pair of distinct inputs that collide. */
module MerkleTree {
  import opened Entities

  /** Two inputs of the compression function. */
  datatype Clash<C> = Clash(left: (C, C), right: (C, C))

  /** The inputs are distinct and have the same output. */
  predicate Genuine<C(==)>(hash: (C, C) -> C, c: Clash<C>) {
    c.left != c.right && hash(c.left.0, c.left.1) == hash(c.right.0, c.right.1)
  }

  /** What binding means: the inputs are the same or a pair was found, and a pair found does collide. */
  predicate Bound<C(==)>(hash: (C, C) -> C, same: bool, clash: Option<Clash<C>>) {
    if clash.Some? then Genuine(hash, clash.value) else same
  }

  function Or<T>(a: Option<T>, b: Option<T>): Option<T> {
    if a.Some? then a else b
  }

  function Pow2(n: nat): nat {
    if n == 0 then 1 else 2 * Pow2(n - 1)
  }

  lemma Doubled(x: nat, y: nat, product: nat)
    requires product == x * y
    ensures 2 * product == (2 * x) * y
  {
  }

  lemma {:induction false} Pow2Add(a: nat, b: nat)
    ensures Pow2(a + b) == Pow2(a) * Pow2(b)
  {
    if a > 0 {
      Pow2Add(a - 1, b);
      Doubled(Pow2(a - 1), Pow2(b), Pow2(a - 1 + b));
    }
  }

  /** Root of a subtree of zero chunks. */
  function ZeroHash<C>(hash: (C, C) -> C, zero: C, depth: nat): C {
    if depth == 0 then zero else hash(ZeroHash(hash, zero, depth - 1), ZeroHash(hash, zero, depth - 1))
  }

  function Half(leaves: nat, depth: nat): (k: nat)
    requires depth > 0 && leaves <= Pow2(depth)
    ensures k <= leaves && k <= Pow2(depth - 1) && leaves - k <= Pow2(depth - 1)
  {
    if leaves <= Pow2(depth - 1) then leaves else Pow2(depth - 1)
  }

  /** Merkle root of the leaves, padded with zero chunks to 2^depth of them. */
  function Root<C>(hash: (C, C) -> C, zero: C, leaves: seq<C>, depth: nat): C
    requires |leaves| <= Pow2(depth)
    decreases depth
  {
    if leaves == [] then ZeroHash(hash, zero, depth)
    else if depth == 0 then leaves[0]
    else var sides := Sides(hash, zero, leaves, depth); hash(sides.0, sides.1)
  }

  /** The two inputs of the hash at the top of a tree. */
  function Sides<C>(hash: (C, C) -> C, zero: C, leaves: seq<C>, depth: nat): (C, C)
    requires depth > 0 && |leaves| <= Pow2(depth)
    decreases depth, 0
  {
    var k := Half(|leaves|, depth);
    (Root(hash, zero, leaves[..k], depth - 1), Root(hash, zero, leaves[k..], depth - 1))
  }

  /** Padding is by zero chunks: writing one more of them out does not change the root. */
  lemma {:induction false} ZeroPadding<C>(hash: (C, C) -> C, zero: C, leaves: seq<C>, depth: nat)
    requires |leaves| < Pow2(depth)
    ensures Root(hash, zero, leaves + [zero], depth) == Root(hash, zero, leaves, depth)
    decreases depth
  {
    if depth > 0 {
      var more := leaves + [zero];
      var half := Pow2(depth - 1);
      if |leaves| < half {
        ZeroPadding(hash, zero, leaves, depth - 1);
        assert more[..|more|] == more && more[|more|..] == [];
        assert leaves[..|leaves|] == leaves && leaves[|leaves|..] == [];
      } else {
        ZeroPadding(hash, zero, leaves[half..], depth - 1);
        assert more[..half] == leaves[..half] && more[half..] == leaves[half..] + [zero];
      }
    }
  }

  /** The leaf at an index, zero chunks beyond the end. */
  function LeafAt<C>(zero: C, leaves: seq<C>, i: nat): C {
    if i < |leaves| then leaves[i] else zero
  }

  /** The same tree level by level: a node above the leaves hashes the two below it, the left one first. */
  function NodeAt<C>(hash: (C, C) -> C, zero: C, leaves: seq<C>, level: nat, i: nat): C
    decreases level
  {
    if level == 0 then LeafAt(zero, leaves, i)
    else hash(NodeAt(hash, zero, leaves, level - 1, 2 * i), NodeAt(hash, zero, leaves, level - 1, 2 * i + 1))
  }

  function LeftHalf<C>(leaves: seq<C>, half: nat): seq<C> {
    if |leaves| <= half then leaves else leaves[..half]
  }

  function RightHalf<C>(leaves: seq<C>, half: nat): seq<C> {
    if |leaves| <= half then [] else leaves[half..]
  }

  lemma RootOfHalves<C>(hash: (C, C) -> C, zero: C, leaves: seq<C>, depth: nat)
    requires depth > 0 && |leaves| <= Pow2(depth)
    ensures var left, right := LeftHalf(leaves, Pow2(depth - 1)), RightHalf(leaves, Pow2(depth - 1));
            Root(hash, zero, leaves, depth)
            == hash(Root(hash, zero, left, depth - 1), Root(hash, zero, right, depth - 1))
  {
    if leaves != [] {
      var k := Half(|leaves|, depth);
      assert leaves[..|leaves|] == leaves && leaves[|leaves|..] == [];
      assert leaves[..k] == LeftHalf(leaves, Pow2(depth - 1)) && leaves[k..] == RightHalf(leaves, Pow2(depth - 1));
    }
  }

  lemma {:induction false} NodesOfLeft<C>(hash: (C, C) -> C, zero: C, leaves: seq<C>, half: nat, level: nat, i: nat)
    requires (i + 1) * Pow2(level) <= half
    ensures NodeAt(hash, zero, LeftHalf(leaves, half), level, i) == NodeAt(hash, zero, leaves, level, i)
    decreases level
  {
    if level > 0 {
      assert (2 * i + 2) * Pow2(level - 1) == (i + 1) * Pow2(level);
      assert (2 * i + 1) * Pow2(level - 1) <= (2 * i + 2) * Pow2(level - 1);
      NodesOfLeft(hash, zero, leaves, half, level - 1, 2 * i);
      NodesOfLeft(hash, zero, leaves, half, level - 1, 2 * i + 1);
    }
  }

  lemma {:induction false} NodesOfRight<C>(hash: (C, C) -> C, zero: C, leaves: seq<C>, half: nat, level: nat, i: nat,
                                           skipped: nat)
    requires half == skipped * Pow2(level)
    ensures NodeAt(hash, zero, RightHalf(leaves, half), level, i) == NodeAt(hash, zero, leaves, level, i + skipped)
    decreases level
  {
    if level > 0 {
      assert (2 * skipped) * Pow2(level - 1) == skipped * Pow2(level);
      NodesOfRight(hash, zero, leaves, half, level - 1, 2 * i, 2 * skipped);
      NodesOfRight(hash, zero, leaves, half, level - 1, 2 * i + 1, 2 * skipped);
      assert 2 * (i + skipped) == 2 * i + 2 * skipped && 2 * (i + skipped) + 1 == 2 * i + 1 + 2 * skipped;
    }
  }

  lemma {:induction false} ZeroNodes<C>(hash: (C, C) -> C, zero: C, level: nat, i: nat)
    ensures NodeAt(hash, zero, [], level, i) == ZeroHash(hash, zero, level)
    decreases level
  {
    if level > 0 {
      ZeroNodes(hash, zero, level - 1, 2 * i);
      ZeroNodes(hash, zero, level - 1, 2 * i + 1);
    }
  }

  /** The root is the top node of the tree of levels, whose leaf i is at index i. */
  lemma {:induction false} RootIsTopNode<C>(hash: (C, C) -> C, zero: C, leaves: seq<C>, depth: nat)
    requires |leaves| <= Pow2(depth)
    ensures Root(hash, zero, leaves, depth) == NodeAt(hash, zero, leaves, depth, 0)
    decreases depth
  {
    if leaves == [] {
      ZeroNodes(hash, zero, depth, 0);
    } else if depth > 0 {
      var half := Pow2(depth - 1);
      RootOfHalves(hash, zero, leaves, depth);
      RootIsTopNode(hash, zero, LeftHalf(leaves, half), depth - 1);
      RootIsTopNode(hash, zero, RightHalf(leaves, half), depth - 1);
      NodesOfLeft(hash, zero, leaves, half, depth - 1, 0);
      NodesOfRight(hash, zero, leaves, half, depth - 1, 0, 1);
    }
  }

  /** Two leaves are hashed in their order. */
  lemma RootOfTwo<C>(hash: (C, C) -> C, zero: C, a: C, b: C)
    ensures Root(hash, zero, [a, b], 1) == hash(a, b)
  {
    assert Pow2(1) == 2;
    RootOfHalves(hash, zero, [a, b], 1);
    assert [a, b][..1] == [a] && [a, b][1..] == [b];
  }

  /** Where two equally long lists of leaves with the same root collide, if they differ. */
  function FindClash<C(==)>(hash: (C, C) -> C, zero: C, a: seq<C>, b: seq<C>, depth: nat): Option<Clash<C>>
    requires |a| == |b| <= Pow2(depth)
    decreases depth
  {
    if a == [] || depth == 0 then None
    else if Sides(hash, zero, a, depth) != Sides(hash, zero, b, depth) then
      Some(Clash(Sides(hash, zero, a, depth), Sides(hash, zero, b, depth)))
    else
      var k := Half(|a|, depth);
      Or(FindClash(hash, zero, a[..k], b[..k], depth - 1), FindClash(hash, zero, a[k..], b[k..], depth - 1))
  }

  /** The same for a list of elements, from its first element and the rest. */
  lemma RejoinFirst<C, E>(hash: (C, C) -> C, a: seq<E>, b: seq<E>, first: Option<Clash<C>>, rest: Option<Clash<C>>)
    requires |a| == |b| > 0
    requires Bound(hash, a[0] == b[0], first) && Bound(hash, a[1..] == b[1..], rest)
    ensures Bound(hash, a == b, Or(first, rest))
  {
    assert a == [a[0]] + a[1..] && b == [b[0]] + b[1..];
  }

  lemma Rejoin<C>(hash: (C, C) -> C, a: seq<C>, b: seq<C>, k: nat, left: Option<Clash<C>>, right: Option<Clash<C>>)
    requires k <= |a| == |b|
    requires Bound(hash, a[..k] == b[..k], left) && Bound(hash, a[k..] == b[k..], right)
    ensures Bound(hash, a == b, Or(left, right))
  {
    assert a == a[..k] + a[k..] && b == b[..k] + b[k..];
  }

  /** Equal roots bind the leaves, or exhibit a collision. */
  lemma {:induction false} RootBinds<C>(hash: (C, C) -> C, zero: C, a: seq<C>, b: seq<C>, depth: nat)
    requires |a| == |b| <= Pow2(depth)
    requires Root(hash, zero, a, depth) == Root(hash, zero, b, depth)
    ensures Bound(hash, a == b, FindClash(hash, zero, a, b, depth))
    decreases depth
  {
    if a == [] {
    } else if depth == 0 {
      assert a == [a[0]] && b == [b[0]];
    } else if Sides(hash, zero, a, depth) == Sides(hash, zero, b, depth) {
      var k := Half(|a|, depth);
      var al, ar, bl, br := a[..k], a[k..], b[..k], b[k..];
      RootBinds(hash, zero, al, bl, depth - 1);
      RootBinds(hash, zero, ar, br, depth - 1);
      Rejoin(hash, a, b, k, FindClash(hash, zero, al, bl, depth - 1), FindClash(hash, zero, ar, br, depth - 1));
    }
  }

  /** A list's root mixes in its length, as one more chunk. */
  function ListRoot<C>(hash: (C, C) -> C, zero: C, leaves: seq<C>, depth: nat, length: C): C
    requires |leaves| <= Pow2(depth)
  {
    hash(Root(hash, zero, leaves, depth), length)
  }

  function FindListClash<C(==)>(hash: (C, C) -> C, zero: C, a: seq<C>, n: C, b: seq<C>, m: C,
                                depth: nat): Option<Clash<C>>
    requires |a| <= Pow2(depth) && |b| <= Pow2(depth)
    requires n == m ==> |a| == |b|
  {
    var left, right := (Root(hash, zero, a, depth), n), (Root(hash, zero, b, depth), m);
    if left != right then Some(Clash(left, right)) else FindClash(hash, zero, a, b, depth)
  }

  /** Equal list roots bind the length and the leaves, or exhibit a collision. */
  lemma ListRootBinds<C>(hash: (C, C) -> C, zero: C, a: seq<C>, n: C, b: seq<C>, m: C, depth: nat)
    requires |a| <= Pow2(depth) && |b| <= Pow2(depth)
    requires n == m ==> |a| == |b|
    requires ListRoot(hash, zero, a, depth, n) == ListRoot(hash, zero, b, depth, m)
    ensures Bound(hash, n == m && a == b, FindListClash(hash, zero, a, n, b, m, depth))
  {
    if Root(hash, zero, a, depth) == Root(hash, zero, b, depth) && n == m { RootBinds(hash, zero, a, b, depth); }
  }
}
