/** The bitwise tries that hold the large free chunks, one per tree bin. Every trie node is the head of
    a ring of chunks of its size. The ghost map `ht` gives, for each node, the number of low size bits
    that still distinguish the sizes below it; the root of bin i has height Height(i). */
module Tries {
  import opened Words
  import opened TreeIndex
  import opened Layout

  /** The tree words of all chunks, and the words of the tree bins. */
  datatype Tree = Tree(child0: map<int, int>, child1: map<int, int>, parent: map<int, int>,
                       index: map<int, int>, roots: seq<int>)

  function Child(t: Tree, x: int, b: nat): int {
    if b == 0 then Rd(t.child0, x) else Rd(t.child1, x)
  }

  ghost predicate LargeSize(s: int) {
    MIN_LARGE_SIZE <= s < WORD && s % 32 == 0
  }

  ghost predicate Sized(ht: map<int, nat>, size: map<int, int>) {
    forall x :: x in ht ==> x >= HEAP_LOW && x in size && LargeSize(size[x])
  }

  /** u sits one level below q, on side b, with all higher size bits shared. */
  ghost predicate Below(ht: map<int, nat>, size: map<int, int>, q: int, b: nat, u: int)
    requires Sized(ht, size)
  {
    && q in ht && u in ht
    && ht[u] + 1 == ht[q]
    && Index(size[u]) == Index(size[q])
    && Bit(size[u], ht[u]) == b
    && Shr(size[u], ht[q]) == Shr(size[q], ht[q])
  }

  ghost predicate UpOK(t: Tree, ht: map<int, nat>, size: map<int, int>, x: int)
    requires Sized(ht, size) && x in ht && |t.roots| == NTREEBINS
  {
    var i := Index(size[x]);
    && i < NTREEBINS && 5 <= ht[x] <= Height(i)
    && Rd(t.index, x) == i
    && (ht[x] == Height(i) ==> Rd(t.parent, x) == TreeBinAt(i) && t.roots[i] == x)
    && (ht[x] != Height(i) ==>
          && Below(ht, size, Rd(t.parent, x), Bit(size[x], ht[x]), x)
          && Child(t, Rd(t.parent, x), Bit(size[x], ht[x])) == x)
  }

  ghost predicate DownOK(t: Tree, ht: map<int, nat>, size: map<int, int>, x: int, b: nat)
    requires Sized(ht, size) && x in ht
  {
    var c := Child(t, x, b);
    c != 0 ==> Below(ht, size, x, b, c) && Rd(t.parent, c) == x
  }

  ghost predicate NodeOK(t: Tree, ht: map<int, nat>, size: map<int, int>, x: int)
    requires Sized(ht, size) && x in ht && |t.roots| == NTREEBINS
  {
    UpOK(t, ht, size, x) && DownOK(t, ht, size, x, 0) && DownOK(t, ht, size, x, 1)
  }

  ghost predicate RootOK(t: Tree, ht: map<int, nat>, size: map<int, int>, i: nat)
    requires Sized(ht, size) && i < NTREEBINS && |t.roots| == NTREEBINS
  {
    t.roots[i] != 0 ==> t.roots[i] in ht && Index(size[t.roots[i]]) == i && ht[t.roots[i]] == Height(i)
  }

  /** The block of sizes a node's subtree may hold. */
  ghost function Cell(ht: map<int, nat>, size: map<int, int>, x: int): (int, int, int)
    requires Sized(ht, size) && x in ht
  {
    (Index(size[x]), ht[x], Shr(size[x], ht[x]))
  }

  ghost predicate OnePerCell(ht: map<int, nat>, size: map<int, int>)
    requires Sized(ht, size)
  {
    forall x, y {:trigger Cell(ht, size, x), Cell(ht, size, y)} ::
      x in ht && y in ht && Cell(ht, size, x) == Cell(ht, size, y) ==> x == y
  }

  ghost predicate OnePerSize(ht: map<int, nat>, size: map<int, int>)
    requires Sized(ht, size)
  {
    forall x, y :: x in ht && y in ht && size[x] == size[y] ==> x == y
  }

  ghost predicate TrieOK(t: Tree, ht: map<int, nat>, size: map<int, int>) {
    && |t.roots| == NTREEBINS
    && Sized(ht, size)
    && (forall x {:trigger NodeOK(t, ht, size, x)} :: x in ht ==> NodeOK(t, ht, size, x))
    && (forall i: nat {:trigger RootOK(t, ht, size, i)} :: i < NTREEBINS ==> RootOK(t, ht, size, i))
    && OnePerCell(ht, size)
    && OnePerSize(ht, size)
  }

  /** y lies in the subtree rooted at x. */
  ghost predicate Sub(ht: map<int, nat>, size: map<int, int>, x: int, y: int)
    requires Sized(ht, size) && x in ht && y in ht
  {
    Index(size[y]) == Index(size[x]) && ht[y] <= ht[x] && Shr(size[y], ht[x]) == Shr(size[x], ht[x])
  }

  /** Every node has an ancestor at every height between its own and its root's. */
  lemma {:induction false} Ancestor(t: Tree, ht: map<int, nat>, size: map<int, int>, y: int, e: nat) returns (a: int)
    requires TrieOK(t, ht, size) && y in ht && Index(size[y]) < NTREEBINS && ht[y] <= e <= Height(Index(size[y]))
    ensures a in ht && ht[a] == e && Sub(ht, size, a, y)
    decreases e - ht[y]
  {
    if ht[y] == e {
      a := y;
    } else {
      assert NodeOK(t, ht, size, y);
      var q := Rd(t.parent, y);
      a := Ancestor(t, ht, size, q, e);
      ShrAgreeUp(size[y], size[q], ht[q], e);
    }
  }

  /** A bin that holds any node has a root, and every node of the bin is below it. */
  lemma RootExists(t: Tree, ht: map<int, nat>, size: map<int, int>, y: int)
    requires TrieOK(t, ht, size) && y in ht
    ensures Index(size[y]) < NTREEBINS
    ensures t.roots[Index(size[y])] in ht && Sub(ht, size, t.roots[Index(size[y])], y)
  {
    assert NodeOK(t, ht, size, y);
    var a := Ancestor(t, ht, size, y, Height(Index(size[y])));
    assert NodeOK(t, ht, size, a);
  }

  lemma SubHeight(t: Tree, ht: map<int, nat>, size: map<int, int>, x: int, y: int)
    requires TrieOK(t, ht, size) && x in ht && y in ht && Sub(ht, size, x, y) && y != x
    ensures 5 <= ht[y] < ht[x]
  {
    hide Index, Shr, Height;
    assert NodeOK(t, ht, size, y);
    assert ht[y] == ht[x] ==> Cell(ht, size, x) == Cell(ht, size, y);
  }

  lemma ParentInCell(t: Tree, ht: map<int, nat>, size: map<int, int>, x: int, a: int)
    requires TrieOK(t, ht, size) && x in ht && a in ht && ht[a] + 1 == ht[x]
    requires Index(size[a]) == Index(size[x]) && Shr(size[a], ht[x]) == Shr(size[x], ht[x])
    ensures Child(t, x, Bit(size[a], ht[a])) == a
  {
    hide Index, Shr, Height;
    assert NodeOK(t, ht, size, a) && NodeOK(t, ht, size, x);
    assert Cell(ht, size, Rd(t.parent, a)) == Cell(ht, size, x);
  }

  /** A proper descendant is below the child its size bit selects. */
  lemma SubSplit(t: Tree, ht: map<int, nat>, size: map<int, int>, x: int, y: int)
    requires TrieOK(t, ht, size) && x in ht && y in ht && Sub(ht, size, x, y) && y != x
    ensures 5 <= ht[y] < ht[x]
    ensures var c := Child(t, x, Bit(size[y], ht[x] - 1));
            c in ht && Sub(ht, size, c, y)
  {
    SubHeight(t, ht, size, x, y);
    assert NodeOK(t, ht, size, x);
    var a := Ancestor(t, ht, size, y, ht[x] - 1);
    ShrAgreeUp(size[a], size[y], ht[a], ht[x]);
    ParentInCell(t, ht, size, x, a);
  }

  /** The children of a node are strictly ordered: everything on the left is smaller than anything on the right. */
  lemma SidesOrdered(ht: map<int, nat>, size: map<int, int>, x: int, y: int, z: int)
    requires Sized(ht, size) && x in ht && y in ht && z in ht && ht[x] > 0
    requires Sub(ht, size, x, y) && Sub(ht, size, x, z)
    requires Bit(size[y], ht[x] - 1) == 0 && Bit(size[z], ht[x] - 1) == 1
    ensures size[y] < size[z]
  {
    if size[z] <= size[y] { ShrMonotone(size[z], size[y], ht[x] - 1); }
  }

  /** Words of chunks outside the trie are free to change. */
  ghost predicate SameWords(t: Tree, t': Tree, ht: map<int, nat>, except: set<int>) {
    forall x :: x in ht && x !in except ==>
      && Rd(t.child0, x) == Rd(t'.child0, x) && Rd(t.child1, x) == Rd(t'.child1, x)
      && Rd(t.parent, x) == Rd(t'.parent, x) && Rd(t.index, x) == Rd(t'.index, x)
  }

  lemma TrieFrame(t: Tree, t': Tree, ht: map<int, nat>, size: map<int, int>, size': map<int, int>)
    requires TrieOK(t, ht, size) && SameWords(t, t', ht, {}) && t.roots == t'.roots
    requires forall x :: x in ht ==> x in size' && size'[x] == size[x]
    ensures TrieOK(t', ht, size')
  {
    forall x | x in ht
      ensures NodeOK(t', ht, size', x)
    {
      assert NodeOK(t, ht, size, x);
    }
    forall i: nat | i < NTREEBINS
      ensures RootOK(t', ht, size', i)
    {
      assert RootOK(t, ht, size, i);
    }
    forall x, y | x in ht && y in ht && Cell(ht, size', x) == Cell(ht, size', y)
      ensures x == y
    {
      assert Cell(ht, size, x) == Cell(ht, size, y);
    }
  }

  /** The first chunk of an empty tree bin. */
  function WithRoot(t: Tree, x: int, i: nat): Tree
    requires i < |t.roots|
  {
    Tree(t.child0[x := 0], t.child1[x := 0], t.parent[x := TreeBinAt(i)], t.index[x := i], t.roots[i := x])
  }

  lemma AddCell(ht: map<int, nat>, size: map<int, int>, x: int, h: nat, s: int)
    requires Sized(ht, size) && OnePerCell(ht, size) && OnePerSize(ht, size)
    requires x >= HEAP_LOW && x !in ht && LargeSize(s)
    requires forall y :: y in ht ==> size[y] != s
    requires forall y :: y in ht && Index(size[y]) == Index(s) && ht[y] == h ==> Shr(size[y], ht[y]) != Shr(s, h)
    ensures Sized(ht[x := h], size[x := s]) && OnePerCell(ht[x := h], size[x := s])
    ensures OnePerSize(ht[x := h], size[x := s])
  {
    hide Index, Shr;
    var ht', size' := ht[x := h], size[x := s];
    forall y, z | y in ht' && z in ht' && Cell(ht', size', y) == Cell(ht', size', z)
      ensures y == z
    {
      if y != x && z != x { assert Cell(ht, size, y) == Cell(ht, size, z); }
    }
  }

  lemma AddRootNode(t: Tree, ht: map<int, nat>, size: map<int, int>, x: int, s: int, y: int)
    requires TrieOK(t, ht, size) && x >= HEAP_LOW && x !in ht && LargeSize(s)
    requires Index(s) < NTREEBINS && t.roots[Index(s)] == 0 && (y in ht || y == x)
    requires y in ht ==> Index(size[y]) != Index(s)
    requires Sized(ht[x := Height(Index(s))], size[x := s])
    ensures NodeOK(WithRoot(t, x, Index(s)), ht[x := Height(Index(s))], size[x := s], y)
  {
    hide Index, Shr, Bit, Height, LeftShift;
    if y != x { assert NodeOK(t, ht, size, y); }
  }

  lemma AddRoot(t: Tree, ht: map<int, nat>, size: map<int, int>, x: int, s: int)
    requires TrieOK(t, ht, size) && x >= HEAP_LOW && x !in ht && LargeSize(s)
    requires Index(s) < NTREEBINS && t.roots[Index(s)] == 0
    ensures TrieOK(WithRoot(t, x, Index(s)), ht[x := Height(Index(s))], size[x := s])
  {
    var i := Index(s);
    var h := Height(i);
    forall y | y in ht
      ensures Index(size[y]) != i
    {
      RootExists(t, ht, size, y);
    }
    AddCell(ht, size, x, h, s);
    var t', ht', size' := WithRoot(t, x, i), ht[x := h], size[x := s];
    forall y | y in ht'
      ensures NodeOK(t', ht', size', y)
    {
      AddRootNode(t, ht, size, x, s, y);
    }
    forall j: nat | j < NTREEBINS
      ensures RootOK(t', ht', size', j)
    {
      assert RootOK(t, ht, size, j);
    }
  }

  /** A new leaf in an empty child slot. */
  function WithChild(t: Tree, q: int, b: nat, x: int, i: nat): Tree {
    var c0, c1 := t.child0[x := 0], t.child1[x := 0];
    Tree(if b == 0 then c0[q := x] else c0, if b == 0 then c1 else c1[q := x],
         t.parent[x := q], t.index[x := i], t.roots)
  }

  /** Position of a walk for key s: node q is on the path of s, and no node above q has size s. */
  ghost predicate OnPath(ht: map<int, nat>, size: map<int, int>, q: int, s: int)
    requires Sized(ht, size)
  {
    && q in ht && LargeSize(s)
    && Index(s) == Index(size[q]) && Shr(s, ht[q]) == Shr(size[q], ht[q])
    && forall y :: y in ht && size[y] == s ==> ht[y] <= ht[q]
  }

  lemma PathStart(t: Tree, ht: map<int, nat>, size: map<int, int>, s: int)
    requires TrieOK(t, ht, size) && LargeSize(s) && Index(s) < NTREEBINS && t.roots[Index(s)] != 0
    ensures OnPath(ht, size, t.roots[Index(s)], s)
  {
    var r := t.roots[Index(s)];
    assert RootOK(t, ht, size, Index(s));
    SameBinAgrees(s, size[r]);
    forall y | y in ht && size[y] == s
      ensures ht[y] <= ht[r]
    {
      assert NodeOK(t, ht, size, y);
    }
  }

  /** The walk continues into the child chosen by the next bit of s. */
  lemma PathStep(t: Tree, ht: map<int, nat>, size: map<int, int>, q: int, s: int)
    requires TrieOK(t, ht, size) && OnPath(ht, size, q, s) && size[q] != s
    ensures ht[q] > 5
    ensures var c := Child(t, q, Bit(s, ht[q] - 1));
            c != 0 ==> OnPath(ht, size, c, s) && ht[c] == ht[q] - 1
  {
    assert NodeOK(t, ht, size, q);
    if ht[q] == 5 { ShrFive(s, size[q]); }
    var c := Child(t, q, Bit(s, ht[q] - 1));
    if c != 0 {
      forall y | y in ht && size[y] == s
        ensures ht[y] <= ht[c]
      {
        assert ht[y] == ht[q] ==> Cell(ht, size, y) == Cell(ht, size, q);
      }
    }
  }

  /** Where the walk falls off the trie there is no node of size s, and no node in the cell of the free slot. */
  lemma PathEnd(t: Tree, ht: map<int, nat>, size: map<int, int>, q: int, s: int)
    requires TrieOK(t, ht, size) && OnPath(ht, size, q, s) && size[q] != s && ht[q] > 5
    requires Child(t, q, Bit(s, ht[q] - 1)) == 0
    ensures forall y :: y in ht ==> size[y] != s
    ensures forall y :: y in ht && Index(size[y]) == Index(s) && ht[y] == ht[q] - 1 ==>
            Shr(size[y], ht[y]) != Shr(s, ht[y])
  {
    forall y | y in ht
      ensures size[y] != s
    {
      if size[y] == s { SubSplit(t, ht, size, q, y); }
    }
    forall y | y in ht && Index(size[y]) == Index(s) && ht[y] == ht[q] - 1
      ensures Shr(size[y], ht[y]) != Shr(s, ht[y])
    {
      if Shr(size[y], ht[y]) == Shr(s, ht[y]) {
        ShrAgreeUp(size[y], s, ht[y], ht[q]);
        SubSplit(t, ht, size, q, y);
      }
    }
  }

  lemma AddChildSelf(t: Tree, ht: map<int, nat>, size: map<int, int>, q: int, x: int, s: int)
    requires TrieOK(t, ht, size) && OnPath(ht, size, q, s) && ht[q] > 5
    requires x >= HEAP_LOW && x !in ht
    requires Sized(ht[x := ht[q] - 1], size[x := s])
    ensures NodeOK(WithChild(t, q, Bit(s, ht[q] - 1), x, Index(s)), ht[x := ht[q] - 1], size[x := s], x)
  {
    hide Index, Shr, Bit, Height, LeftShift, OnePerCell, OnePerSize;
    assert NodeOK(t, ht, size, q);
  }

  lemma AddChildParent(t: Tree, ht: map<int, nat>, size: map<int, int>, q: int, x: int, s: int)
    requires TrieOK(t, ht, size) && OnPath(ht, size, q, s) && ht[q] > 5
    requires x >= HEAP_LOW && x !in ht
    requires Sized(ht[x := ht[q] - 1], size[x := s])
    ensures NodeOK(WithChild(t, q, Bit(s, ht[q] - 1), x, Index(s)), ht[x := ht[q] - 1], size[x := s], q)
  {
    hide Index, Shr, Bit, Height, LeftShift, OnePerCell, OnePerSize;
    assert NodeOK(t, ht, size, q);
  }

  lemma AddChildNode(t: Tree, ht: map<int, nat>, size: map<int, int>, q: int, x: int, s: int)
    requires TrieOK(t, ht, size) && OnPath(ht, size, q, s) && ht[q] > 5
    requires x >= HEAP_LOW && x !in ht
    requires Sized(ht[x := ht[q] - 1], size[x := s])
    ensures var t' := WithChild(t, q, Bit(s, ht[q] - 1), x, Index(s));
            NodeOK(t', ht[x := ht[q] - 1], size[x := s], x) && NodeOK(t', ht[x := ht[q] - 1], size[x := s], q)
  {
    AddChildSelf(t, ht, size, q, x, s);
    AddChildParent(t, ht, size, q, x, s);
    hide *;
  }

  lemma AddChildOther(t: Tree, ht: map<int, nat>, size: map<int, int>, q: int, x: int, s: int, y: int)
    requires TrieOK(t, ht, size) && OnPath(ht, size, q, s) && ht[q] > 5
    requires Child(t, q, Bit(s, ht[q] - 1)) == 0
    requires x >= HEAP_LOW && x !in ht && y in ht && y != q
    requires Sized(ht[x := ht[q] - 1], size[x := s])
    ensures NodeOK(WithChild(t, q, Bit(s, ht[q] - 1), x, Index(s)), ht[x := ht[q] - 1], size[x := s], y)
  {
    hide Index, Shr, Bit, Height, LeftShift;
    assert NodeOK(t, ht, size, y);
  }

  lemma AddChild(t: Tree, ht: map<int, nat>, size: map<int, int>, q: int, x: int, s: int)
    requires TrieOK(t, ht, size) && OnPath(ht, size, q, s) && size[q] != s && ht[q] > 5
    requires Child(t, q, Bit(s, ht[q] - 1)) == 0
    requires x >= HEAP_LOW && x !in ht
    ensures TrieOK(WithChild(t, q, Bit(s, ht[q] - 1), x, Index(s)), ht[x := ht[q] - 1], size[x := s])
  {
    var b, h := Bit(s, ht[q] - 1), ht[q] - 1;
    var t', ht', size' := WithChild(t, q, b, x, Index(s)), ht[x := h], size[x := s];
    PathEnd(t, ht, size, q, s);
    AddCell(ht, size, x, h, s);
    forall y | y in ht'
      ensures NodeOK(t', ht', size', y)
    {
      if y == x || y == q {
        AddChildNode(t, ht, size, q, x, s);
      } else {
        AddChildOther(t, ht, size, q, x, s, y);
      }
    }
    forall j: nat | j < NTREEBINS
      ensures RootOK(t', ht', size', j)
    {
      assert RootOK(t, ht, size, j);
    }
  }

  /** Exactly one word links to a node: its bin's root word, or one child word of its parent. */
  lemma LinkTo(t: Tree, ht: map<int, nat>, size: map<int, int>, x: int)
    requires TrieOK(t, ht, size) && x in ht
    ensures Index(size[x]) < NTREEBINS && Rd(t.index, x) == Index(size[x])
    ensures t.roots[Index(size[x])] == x <==> ht[x] == Height(Index(size[x]))
    ensures t.roots[Index(size[x])] == x ==> Rd(t.parent, x) == TreeBinAt(Index(size[x]))
    ensures t.roots[Index(size[x])] != x ==> var p, b := Rd(t.parent, x), Bit(size[x], ht[x]);
            Below(ht, size, p, b, x) && Child(t, p, b) == x && Child(t, p, 1 - b) != x
  {
    assert NodeOK(t, ht, size, x);
    assert RootOK(t, ht, size, Index(size[x]));
    if t.roots[Index(size[x])] != x {
      assert NodeOK(t, ht, size, Rd(t.parent, x));
    }
  }

  /** Clearing the one link that leads to leaf x. */
  function WithoutLeaf(t: Tree, x: int, p: int, i: nat): Tree
    requires i < |t.roots|
  {
    if t.roots[i] == x then t.(roots := t.roots[i := 0])
    else if Rd(t.child0, p) == x then t.(child0 := t.child0[p := 0])
    else t.(child1 := t.child1[p := 0])
  }

  lemma RemoveCell(ht: map<int, nat>, size: map<int, int>, x: int)
    requires Sized(ht, size) && OnePerCell(ht, size) && OnePerSize(ht, size)
    ensures Sized(ht - {x}, size) && OnePerCell(ht - {x}, size) && OnePerSize(ht - {x}, size)
  {
    hide Index, Shr;
    forall y, z | y in ht - {x} && z in ht - {x} && Cell(ht - {x}, size, y) == Cell(ht - {x}, size, z)
      ensures y == z
    {
      assert Cell(ht, size, y) == Cell(ht, size, z);
    }
  }

  lemma RemoveLeafNode(t: Tree, ht: map<int, nat>, size: map<int, int>, x: int, y: int)
    requires TrieOK(t, ht, size) && x in ht && Child(t, x, 0) == 0 && Child(t, x, 1) == 0 && Index(size[x]) < NTREEBINS
    requires y in ht && y != x && Sized(ht - {x}, size)
    ensures NodeOK(WithoutLeaf(t, x, Rd(t.parent, x), Index(size[x])), ht - {x}, size, y)
  {
    hide Index, Shr, Bit, Height, LeftShift;
    LinkTo(t, ht, size, x);
    assert NodeOK(t, ht, size, y);
  }

  lemma RemoveLeaf(t: Tree, ht: map<int, nat>, size: map<int, int>, x: int)
    requires TrieOK(t, ht, size) && x in ht && Child(t, x, 0) == 0 && Child(t, x, 1) == 0
    ensures Index(size[x]) < NTREEBINS
    ensures TrieOK(WithoutLeaf(t, x, Rd(t.parent, x), Index(size[x])), ht - {x}, size)
    ensures TrieOK(WithoutLeaf(t, x, Rd(t.parent, x), Index(size[x])), ht - {x}, size - {x})
  {
    assert NodeOK(t, ht, size, x);
    var t' := WithoutLeaf(t, x, Rd(t.parent, x), Index(size[x]));
    forall y | y in ht && y != x
      ensures NodeOK(t', ht - {x}, size, y)
    {
      RemoveLeafNode(t, ht, size, x, y);
    }
    forall j: nat | j < NTREEBINS
      ensures RootOK(t', ht - {x}, size, j)
    {
      assert RootOK(t, ht, size, j);
    }
    RemoveCell(ht, size, x);
    TrieFrame(t', t', ht - {x}, size, size - {x});
  }

  /** r takes over the place of x: the link to x, x's parent word, and x's non-null children. */
  function Replaced(t: Tree, x: int, r: int, i: nat): Tree
    requires i < |t.roots|
  {
    var p := Rd(t.parent, x);
    var roots := if t.roots[i] == x then t.roots[i := r] else t.roots;
    var c0 := if t.roots[i] != x && Rd(t.child0, p) == x then t.child0[p := r] else t.child0;
    var c1 := if t.roots[i] != x && Rd(t.child0, p) != x then t.child1[p := r] else t.child1;
    var l, m := Rd(c0, x), Rd(c1, x);
    var up := t.parent[r := p];
    var upl := if l != 0 then up[l := r] else up;
    Tree(if l != 0 then c0[r := l] else c0,
         if m != 0 then c1[r := m] else c1,
         if m != 0 then upl[m := r] else upl, t.index, roots)
  }

  /** r may stand in for x: outside the trie, without children, and in x's cell. */
  ghost predicate CanReplace(t: Tree, ht: map<int, nat>, size: map<int, int>, x: int, r: int)
    requires Sized(ht, size)
  {
    && x in ht && r !in ht && r >= HEAP_LOW && r in size && LargeSize(size[r])
    && Index(size[r]) == Index(size[x]) < NTREEBINS && Shr(size[r], ht[x]) == Shr(size[x], ht[x])
    && Rd(t.index, r) == Index(size[r]) && Child(t, r, 0) == 0 && Child(t, r, 1) == 0
    && (forall y :: y in ht && y != x ==> size[y] != size[r])
  }

  lemma ReplaceCell(t: Tree, ht: map<int, nat>, size: map<int, int>, x: int, r: int)
    requires TrieOK(t, ht, size) && CanReplace(t, ht, size, x, r)
    ensures Sized((ht - {x})[r := ht[x]], size)
    ensures OnePerCell((ht - {x})[r := ht[x]], size) && OnePerSize((ht - {x})[r := ht[x]], size)
  {
    hide Index, Shr;
    var ht' := (ht - {x})[r := ht[x]];
    forall y, z | y in ht' && z in ht' && Cell(ht', size, y) == Cell(ht', size, z)
      ensures y == z
    {
      var y', z' := if y == r then x else y, if z == r then x else z;
      assert Cell(ht, size, y') == Cell(ht, size, z');
    }
  }

  /** What each word reads after the replacement. */
  lemma ReplacedWords(t: Tree, x: int, r: int, i: nat, y: int)
    requires i < |t.roots| && Rd(t.child0, r) == 0 && Rd(t.child1, r) == 0 && r != 0
    requires Rd(t.parent, x) != x && Rd(t.parent, x) != r && x != r
    requires Rd(t.child0, x) != r && Rd(t.child1, x) != r
    ensures var t', p, root := Replaced(t, x, r, i), Rd(t.parent, x), t.roots[i] == x;
            && Rd(t'.child0, y) == (if y == r then Rd(t.child0, x)
                                    else if !root && y == p && Rd(t.child0, p) == x then r else Rd(t.child0, y))
            && Rd(t'.child1, y) == (if y == r then Rd(t.child1, x)
                                    else if !root && y == p && Rd(t.child0, p) != x then r else Rd(t.child1, y))
    ensures var t', p, root := Replaced(t, x, r, i), Rd(t.parent, x), t.roots[i] == x;
            && Rd(t'.parent, y) == (if y == r then p
                                    else if y != 0 && (y == Rd(t.child0, x) || y == Rd(t.child1, x)) then r
                                      else Rd(t.parent, y))
            && t'.index == t.index
            && t'.roots == if root then t.roots[i := r] else t.roots
  {
    var t', p, root := Replaced(t, x, r, i), Rd(t.parent, x), t.roots[i] == x;
    var c0 := if !root && Rd(t.child0, p) == x then t.child0[p := r] else t.child0;
    var c1 := if !root && Rd(t.child0, p) != x then t.child1[p := r] else t.child1;
    assert Rd(c0, x) == Rd(t.child0, x) && Rd(c1, x) == Rd(t.child1, x);
    assert t'.child0 == if Rd(c0, x) != 0 then c0[r := Rd(c0, x)] else c0;
    assert t'.child1 == if Rd(c1, x) != 0 then c1[r := Rd(c1, x)] else c1;
  }

  /** The facts about x and its neighbours that the replacement relies on. */
  lemma ReplaceFacts(t: Tree, ht: map<int, nat>, size: map<int, int>, x: int, r: int)
    requires TrieOK(t, ht, size) && CanReplace(t, ht, size, x, r)
    ensures Rd(t.parent, x) != x && Rd(t.parent, x) != r && x != r && Rd(t.child0, x) != r && Rd(t.child1, x) != r
    ensures Rd(t.child0, r) == 0 && Rd(t.child1, r) == 0
    ensures Bit(size[r], ht[x]) == Bit(size[x], ht[x]) && Shr(size[r], ht[x] + 1) == Shr(size[x], ht[x] + 1)
  {
    LinkTo(t, ht, size, x);
    assert NodeOK(t, ht, size, x);
    ShrAgreeUp(size[r], size[x], ht[x], ht[x] + 1);
  }

  lemma ReplaceSelf(t: Tree, ht: map<int, nat>, size: map<int, int>, x: int, r: int)
    requires TrieOK(t, ht, size) && CanReplace(t, ht, size, x, r)
    requires Sized((ht - {x})[r := ht[x]], size)
    ensures NodeOK(Replaced(t, x, r, Index(size[x])), (ht - {x})[r := ht[x]], size, r)
  {
    hide Index, Shr, Bit, Height, LeftShift, Replaced;
    ReplaceFacts(t, ht, size, x, r);
    LinkTo(t, ht, size, x);
    assert NodeOK(t, ht, size, x);
    var i := Index(size[x]);
    ReplacedWords(t, x, r, i, r);
    ReplacedWords(t, x, r, i, Rd(t.parent, x));
    ReplacedWords(t, x, r, i, Rd(t.child0, x));
    ReplacedWords(t, x, r, i, Rd(t.child1, x));
  }

  lemma ReplaceUp(t: Tree, ht: map<int, nat>, size: map<int, int>, x: int, r: int, y: int)
    requires TrieOK(t, ht, size) && CanReplace(t, ht, size, x, r) && y in ht && y != x
    requires Sized((ht - {x})[r := ht[x]], size)
    ensures UpOK(Replaced(t, x, r, Index(size[x])), (ht - {x})[r := ht[x]], size, y)
  {
    hide Index, Shr, Bit, Height, LeftShift, Replaced;
    ReplaceFacts(t, ht, size, x, r);
    LinkTo(t, ht, size, x);
    LinkTo(t, ht, size, y);
    assert NodeOK(t, ht, size, y) && NodeOK(t, ht, size, x);
    var i := Index(size[x]);
    ReplacedWords(t, x, r, i, y);
    ReplacedWords(t, x, r, i, Rd(t.parent, y));
    ReplacedWords(t, x, r, i, r);
  }

  lemma ReplaceDown(t: Tree, ht: map<int, nat>, size: map<int, int>, x: int, r: int, y: int, b: nat)
    requires TrieOK(t, ht, size) && CanReplace(t, ht, size, x, r) && y in ht && y != x && b <= 1
    requires Sized((ht - {x})[r := ht[x]], size)
    ensures DownOK(Replaced(t, x, r, Index(size[x])), (ht - {x})[r := ht[x]], size, y, b)
  {
    hide Index, Shr, Bit, Height, LeftShift, Replaced, OnePerCell, OnePerSize, RootOK;
    ReplaceFacts(t, ht, size, x, r);
    LinkTo(t, ht, size, x);
    assert NodeOK(t, ht, size, x) && NodeOK(t, ht, size, y);
    var i := Index(size[x]);
    ReplacedWords(t, x, r, i, y);
    ReplacedWords(t, x, r, i, Child(t, y, b));
    ReplacedWords(t, x, r, i, r);
  }

  lemma ReplaceNode(t: Tree, ht: map<int, nat>, size: map<int, int>, x: int, r: int)
    requires TrieOK(t, ht, size) && CanReplace(t, ht, size, x, r)
    ensures TrieOK(Replaced(t, x, r, Index(size[x])), (ht - {x})[r := ht[x]], size)
    ensures TrieOK(Replaced(t, x, r, Index(size[x])), (ht - {x})[r := ht[x]], size - {x})
  {
    var t', ht' := Replaced(t, x, r, Index(size[x])), (ht - {x})[r := ht[x]];
    assert NodeOK(t, ht, size, x);
    ReplaceCell(t, ht, size, x, r);
    forall y | y in ht'
      ensures NodeOK(t', ht', size, y)
    {
      if y == r {
        ReplaceSelf(t, ht, size, x, r);
      } else {
        ReplaceUp(t, ht, size, x, r, y);
        ReplaceDown(t, ht, size, x, r, y, 0);
        ReplaceDown(t, ht, size, x, r, y, 1);
      }
    }
    forall j: nat | j < NTREEBINS
      ensures RootOK(t', ht', size, j)
    {
      assert RootOK(t, ht, size, j);
    }
    TrieFrame(t', t', ht', size, size - {x});
  }
}
