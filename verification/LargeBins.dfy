/** insert_large_chunk and unlink_large_chunk on the whole bin structure. */
module LargeBins {
  import opened Words
  import opened Bitmaps
  import opened Layout
  import opened TreeIndex
  import opened Rings
  import opened Tries
  import opened Bins

  /** The first chunk of an empty tree bin. */
  ghost function FirstLarge(v: View, x: int, s: int): View
    requires 0 <= s && Index(s) < |v.tree.roots| && Index(s) < NTREEBINS
  {
    var i := Index(s);
    v.(treemap := Mark(v.treemap, i), fd := v.fd[x := x], bk := v.bk[x := x], tree := WithRoot(v.tree, x, i),
       rings := v.rings[x := [x]], home := v.home[x := x], ht := v.ht[x := Height(i)], size := v.size[x := s])
  }

  /** A chunk of a new size: a leaf below q. */
  ghost function LeafLarge(v: View, q: int, x: int, s: int): View
    requires 0 <= s && q in v.ht && v.ht[q] > 0
  {
    v.(fd := v.fd[x := x], bk := v.bk[x := x],
       tree := WithChild(v.tree, q, Bit(s, v.ht[q] - 1), x, Index(s)),
       rings := v.rings[x := [x]], home := v.home[x := x], ht := v.ht[x := v.ht[q] - 1], size := v.size[x := s])
  }

  /** A chunk whose size already has a trie node t: linked in behind t. */
  ghost function ChainedLarge(v: View, t: int, x: int, s: int): View
    requires 0 <= s && t in v.rings && |v.rings[t]| > 0
  {
    var f := Rd(v.fd, t);
    v.(fd := v.fd[t := x][x := f], bk := v.bk[f := x][x := t],
       tree := Tree(v.tree.child0[x := 0], v.tree.child1[x := 0], v.tree.parent[x := 0],
                    v.tree.index[x := Index(s)], v.tree.roots),
       rings := v.rings[t := [t, x] + v.rings[t][1..]], home := v.home[x := t], size := v.size[x := s])
  }

  lemma SingleRing(fd: map<int, int>, bk: map<int, int>, rings: map<int, seq<int>>, home: map<int, int>, x: int)
    requires RingsOK(fd, bk, rings, home) && x !in home
    ensures RingsOK(fd[x := x], bk[x := x], rings[x := [x]], home[x := x])
  {
    var s := [x];
    assert Ring(fd[x := x], bk[x := x], s);
    AddRing(fd, bk, fd[x := x], bk[x := x], rings, home, s);
    assert HomeIn(home, s, x) == home[x := x];
  }

  ghost predicate TreeWordsKept(t: Tree, t': Tree, c: int) {
    && Rd(t.child0, c) == Rd(t'.child0, c) && Rd(t.child1, c) == Rd(t'.child1, c)
    && Rd(t.parent, c) == Rd(t'.parent, c)
  }

  /** Members after a new trie node x was added; among old chunks only the parent q had a tree word changed. */
  lemma NewNodeMembers(v: View, v': View, x: int, s: int, q: int)
    requires MembersOK(v) && x >= HEAP_LOW && x !in v.size && x !in v.ht
    requires SizeOK(s) && !IsSmall(s) && Index(s) < NTREEBINS
    requires v'.size == v.size[x := s] && v'.home == v.home[x := x] && v'.ht.Keys == v.ht.Keys + {x}
    requires q < HEAP_LOW || q in v.ht
    requires v'.rings == v.rings[x := [x]]
    requires Rd(v'.tree.index, x) == Index(s)
    requires forall c :: c != x && c != q ==> TreeWordsKept(v.tree, v'.tree, c)
    requires forall c :: c != x ==> Rd(v.tree.index, c) == Rd(v'.tree.index, c)
    ensures MembersOK(v')
  {
    hide Index, Rd;
    forall c | c in v'.size
      ensures MemberOK(v', c)
    {
      if c != x {
        assert MemberOK(v, c);
        if c != q { assert TreeWordsKept(v.tree, v'.tree, c); }
      }
    }
    forall h | h in v'.rings
      ensures RingHeadOK(v', h)
    {
      if h != x { assert RingHeadOK(v, h); }
    }
  }

  lemma MarkTree(v: View, v': View, i: nat)
    requires |v.tree.roots| == NTREEBINS == |v'.tree.roots| && MapsOK(v) && i < NTREEBINS
    requires v'.treemap == Mark(v.treemap, i) && v'.smallmap == v.smallmap
    requires v'.tree.roots[i] != 0 && forall j: nat :: j < NTREEBINS && j != i ==> v'.tree.roots[j] == v.tree.roots[j]
    requires forall j: nat :: j < NSMALLBINS ==> (SmallBinAt(j) in v'.rings <==> SmallBinAt(j) in v.rings)
    ensures MapsOK(v')
  {
    hide Marked, Mark;
    forall j: nat | j < NTREEBINS
      ensures Marked(v'.treemap, j) <==> v'.tree.roots[j] != 0
    {
      MarkClear(v.treemap, i, j);
    }
  }

  lemma FirstLargeOK(v: View, x: int, s: int)
    requires BinsOK(v) && x >= HEAP_LOW && x !in v.size && SizeOK(s) && !IsSmall(s)
    requires Index(s) < NTREEBINS && v.tree.roots[Index(s)] == 0
    ensures BinsOK(FirstLarge(v, x, s))
  {
    NotHome(v, x);
    SingleRing(v.fd, v.bk, v.rings, v.home, x);
    AddRoot(v.tree, v.ht, v.size, x, s);
    hide Index, Height, Mark;
    var v' := FirstLarge(v, x, s);
    NewNodeMembers(v, v', x, s, 0);
    MarkTree(v, v', Index(s));
  }

  lemma SmallHeadersApart(v: View, v': View, x: int)
    requires x >= HEAP_LOW && v'.rings.Keys == v.rings.Keys + {x}
    ensures forall i: nat :: i < NSMALLBINS ==> (SmallBinAt(i) in v'.rings <==> SmallBinAt(i) in v.rings)
  {
  }

  lemma LeafWords(t: Tree, q: int, b: nat, x: int, i: nat)
    ensures var t' := WithChild(t, q, b, x, i);
            && t'.roots == t.roots && Rd(t'.index, x) == i
            && (forall c :: c != x && c != q ==> TreeWordsKept(t, t', c))
            && (forall c :: c != x ==> Rd(t.index, c) == Rd(t'.index, c))
  {
  }

  lemma NodeIndex(v: View, q: int)
    requires TrieOK(v.tree, v.ht, v.size) && q in v.ht
    ensures q in v.size && 0 <= v.size[q] && Index(v.size[q]) < NTREEBINS
  {
    assert NodeOK(v.tree, v.ht, v.size, q);
  }

  lemma LeafLargeOK(v: View, q: int, x: int, s: int)
    requires BinsOK(v) && x >= HEAP_LOW && x !in v.size && SizeOK(s) && !IsSmall(s)
    requires OnPath(v.ht, v.size, q, s) && v.size[q] != s && v.ht[q] > 5
    requires Child(v.tree, q, Bit(s, v.ht[q] - 1)) == 0
    ensures BinsOK(LeafLarge(v, q, x, s))
  {
    hide Index, Bit, Shr, Rd, Ring, HomesOK, OnePerCell, OnePerSize, NodeOK, RootOK, MemberOK, RingHeadOK, Marked,
         Height, WithChild, TreeWordsKept;
    NotHome(v, x);
    SingleRing(v.fd, v.bk, v.rings, v.home, x);
    AddChild(v.tree, v.ht, v.size, q, x, s);
    NodeIndex(v, q);
    LeafWords(v.tree, q, Bit(s, v.ht[q] - 1), x, Index(s));
    var v' := LeafLarge(v, q, x, s);
    NewNodeMembers(v, v', x, s, q);
    SmallHeadersApart(v, v', x);
    SameMaps(v, v');
  }

  lemma ClearTree(v: View, v': View, i: nat)
    requires |v.tree.roots| == NTREEBINS == |v'.tree.roots| && MapsOK(v) && i < NTREEBINS
    requires v'.treemap == Clear(v.treemap, i) && v'.smallmap == v.smallmap
    requires v'.tree.roots[i] == 0 && forall j: nat :: j < NTREEBINS && j != i ==> v'.tree.roots[j] == v.tree.roots[j]
    requires forall j: nat :: j < NSMALLBINS ==> (SmallBinAt(j) in v'.rings <==> SmallBinAt(j) in v.rings)
    ensures MapsOK(v')
  {
    hide Marked, Clear;
    forall j: nat | j < NTREEBINS
      ensures Marked(v'.treemap, j) <==> v'.tree.roots[j] != 0
    {
      MarkClear(v.treemap, i, j);
    }
  }

  lemma ChainedMembers(v: View, v': View, t: int, x: int, s: int)
    requires MembersOK(v) && x >= HEAP_LOW && x !in v.size && x !in v.ht
    requires SizeOK(s) && !IsSmall(s) && Index(s) < NTREEBINS
    requires t in v.ht && t in v.size && v.size[t] == s
    requires v'.size == v.size[x := s] && v'.home == v.home[x := t] && v'.ht == v.ht
    requires v'.rings.Keys == v.rings.Keys && forall h :: h in v.rings && h != t ==> v'.rings[h] == v.rings[h]
    requires Rd(v'.tree.index, x) == Index(s)
    requires Rd(v'.tree.parent, x) == 0 && Rd(v'.tree.child0, x) == 0 && Rd(v'.tree.child1, x) == 0
    requires forall c :: c != x ==> TreeWordsKept(v.tree, v'.tree, c)
    requires forall c :: c != x ==> Rd(v.tree.index, c) == Rd(v'.tree.index, c)
    ensures MembersOK(v')
  {
    hide Index, Rd;
    forall c | c in v'.size
      ensures MemberOK(v', c)
    {
      if c != x {
        assert MemberOK(v, c);
        assert TreeWordsKept(v.tree, v'.tree, c);
      }
    }
    forall h | h in v'.rings
      ensures RingHeadOK(v', h)
    {
      assert RingHeadOK(v, h);
    }
  }

  lemma ChainedLargeOK(v: View, t: int, x: int, s: int)
    requires BinsOK(v) && x >= HEAP_LOW && x !in v.size && SizeOK(s) && !IsSmall(s)
    requires t in v.ht && v.size[t] == s
    ensures t in v.rings && |v.rings[t]| > 0 && BinsOK(ChainedLarge(v, t, x, s))
  {
    hide Index, NodeOK, RootOK, OnePerCell, OnePerSize, Ring, Height, IsHeader, RingHeadOK, Marked;
    NotHome(v, x);
    assert t in v.rings;
    HeadHome(v.fd, v.bk, v.rings, v.home, t);
    InsertAfterHead(v.fd, v.bk, v.rings, v.home, t, x);
    assert MemberOK(v, t);
    var v' := ChainedLarge(v, t, x, s);
    TrieFrame(v.tree, v'.tree, v.ht, v.size, v'.size);
    ChainedMembers(v, v', t, x, s);
    SameMaps(v, v');
  }

  /** Unlinking a trie node that shares its size: its bk neighbour becomes the node. */
  ghost function SharedOut(v: View, x: int): View
    requires x in v.ht && x in v.size && 0 <= v.size[x] && Index(v.size[x]) < |v.tree.roots|
    requires x in v.rings && |v.rings[x]| >= 2
  {
    var f, r := Rd(v.fd, x), Rd(v.bk, x);
    v.(fd := v.fd[r := f], bk := v.bk[f := r], tree := Replaced(v.tree, x, r, Index(v.size[x])),
       rings := (v.rings - {x})[r := Rotated(v.rings[x])], home := Rehomed(v.home, x, r),
       ht := (v.ht - {x})[r := v.ht[x]], size := v.size - {x})
  }

  lemma NodeHome(v: View, x: int)
    requires BinsOK(v) && x in v.ht
    ensures x in v.size && SizeOK(v.size[x]) && !IsSmall(v.size[x]) && x >= HEAP_LOW && Index(v.size[x]) < NTREEBINS
    ensures x in v.rings && x in v.home && v.home[x] == x
    ensures Rd(v.tree.index, x) == Index(v.size[x])
    ensures forall c :: c in v.home && v.home[c] == x ==>
            c in v.size && v.size[c] == v.size[x] && (c != x ==> c !in v.ht)
  {
    HeadHome(v.fd, v.bk, v.rings, v.home, x);
    assert MemberOK(v, x);
    forall c | c in v.home && v.home[c] == x
      ensures c in v.size && v.size[c] == v.size[x] && (c != x ==> c !in v.ht)
    {
      assert MemberOK(v, c);
      if c in v.ht { HeadHome(v.fd, v.bk, v.rings, v.home, c); }
    }
  }

  lemma SharedCanReplace(v: View, x: int, r: int)
    requires BinsOK(v) && x in v.ht && r in v.home && v.home[r] == x && r != x
    ensures x in v.size && r in v.size && v.size[r] == v.size[x] && r >= HEAP_LOW
    ensures CanReplace(v.tree, v.ht, v.size, x, r)
  {
    NodeHome(v, x);
    assert MemberOK(v, r);
  }

  /** A replacement writes no tree word of a chunk outside the trie, other than the new node. */
  lemma ReplaceKeeps(t: Tree, ht: map<int, nat>, size: map<int, int>, x: int, r: int)
    requires TrieOK(t, ht, size) && CanReplace(t, ht, size, x, r)
    ensures forall c :: c >= HEAP_LOW && c !in ht && c != r ==> TreeWordsKept(t, Replaced(t, x, r, Index(size[x])), c)
    ensures Replaced(t, x, r, Index(size[x])).index == t.index
    ensures Replaced(t, x, r, Index(size[x])).roots == if t.roots[Index(size[x])] == x then t.roots[Index(size[x]) := r]
            else t.roots
  {
    hide Index, Shr, Bit, Height, LeftShift, Replaced;
    ReplaceFacts(t, ht, size, x, r);
    LinkTo(t, ht, size, x);
    assert NodeOK(t, ht, size, x);
    ReplacedWords(t, x, r, Index(size[x]), r);
    forall c | c >= HEAP_LOW && c !in ht && c != r
      ensures TreeWordsKept(t, Replaced(t, x, r, Index(size[x])), c)
    {
      ReplacedWords(t, x, r, Index(size[x]), c);
    }
  }

  lemma SharedMembers(v: View, v': View, x: int, r: int)
    requires MembersOK(v) && x in v.ht && r in v.size && r !in v.ht && x != r && x in v.size && v.size[r] == v.size[x]
    requires x in v.rings && x in v.home && v.home[x] == x
    requires v'.size == v.size - {x} && v'.home == Rehomed(v.home, x, r) && v'.ht.Keys == v.ht.Keys - {x} + {r}
    requires v'.rings.Keys == v.rings.Keys - {x} + {r} && forall h :: h in v.rings && h != x ==>
             v'.rings[h] == v.rings[h]
    requires v'.tree.index == v.tree.index
    requires forall c :: c >= HEAP_LOW && c !in v.ht && c != r ==> TreeWordsKept(v.tree, v'.tree, c)
    requires forall c :: c in v.home && v.home[c] == x ==> c in v.size && v.size[c] == v.size[x]
    requires r !in v.rings && forall h :: h in v.ht ==> h >= HEAP_LOW
    ensures MembersOK(v')
  {
    hide Index, Rd;
    forall c | c in v'.size
      ensures MemberOK(v', c)
    {
      assert MemberOK(v, c);
      if IsSmall(v.size[c]) { HeaderFacts(SmallIndex(v.size[c])); }
      assert c !in v.ht && c != r ==> TreeWordsKept(v.tree, v'.tree, c);
    }
    forall h | h in v'.rings
      ensures RingHeadOK(v', h)
    {
      if h != r { assert RingHeadOK(v, h); }
    }
  }

  lemma ReplaceMaps(v: View, v': View, x: int, r: int)
    requires |v.tree.roots| == NTREEBINS == |v'.tree.roots| && MapsOK(v) && x >= HEAP_LOW && r >= HEAP_LOW
    requires v'.treemap == v.treemap && v'.smallmap == v.smallmap
    requires forall i: nat :: i < NTREEBINS ==>
             v'.tree.roots[i] == v.tree.roots[i] || (v.tree.roots[i] == x && v'.tree.roots[i] == r)
    requires forall h :: h < HEAP_LOW ==> (h in v'.rings <==> h in v.rings)
    ensures MapsOK(v')
  {
    hide Marked;
  }

  lemma SharedOutOK(v: View, x: int)
    requires BinsOK(v) && x in v.ht && Rd(v.bk, x) != x
    ensures x in v.size && 0 <= v.size[x] && Index(v.size[x]) < |v.tree.roots| && x in v.rings && |v.rings[x]| >= 2
    ensures BinsOK(SharedOut(v, x))
  {
    hide Index, Replaced, NodeOK, RootOK, OnePerCell, OnePerSize, Ring, Height, CanReplace, MemberOK, RingHeadOK,
         Marked;
    NodeHome(v, x);
    Alone(v.fd, v.bk, v.rings, v.home, x);
    RemoveHead(v.fd, v.bk, v.rings, v.home, x);
    var r := Rd(v.bk, x);
    SharedCanReplace(v, x, r);
    ReplaceNode(v.tree, v.ht, v.size, x, r);
    ReplaceKeeps(v.tree, v.ht, v.size, x, r);
    var v' := SharedOut(v, x);
    SharedMembers(v, v', x, r);
    ReplaceMaps(v, v', x, r);
  }

  /** Unlinking a leaf that is alone in its size. */
  ghost function LeafOut(v: View, x: int): View
    requires x in v.size && 0 <= v.size[x] && Index(v.size[x]) < |v.tree.roots| && Index(v.size[x]) < NTREEBINS
  {
    var i := Index(v.size[x]);
    v.(treemap := if v.tree.roots[i] == x then Clear(v.treemap, i) else v.treemap,
       tree := WithoutLeaf(v.tree, x, Rd(v.tree.parent, x), i),
       rings := v.rings - {x}, home := v.home - {x}, ht := v.ht - {x}, size := v.size - {x})
  }

  lemma LeafKeeps(t: Tree, ht: map<int, nat>, size: map<int, int>, x: int)
    requires TrieOK(t, ht, size) && x in ht && Index(size[x]) < NTREEBINS
    ensures var t' := WithoutLeaf(t, x, Rd(t.parent, x), Index(size[x]));
            && (forall c :: c >= HEAP_LOW && (c !in ht || c == x) ==> TreeWordsKept(t, t', c))
            && t'.index == t.index && t'.parent == t.parent
            && t'.roots == if t.roots[Index(size[x])] == x then t.roots[Index(size[x]) := 0] else t.roots
  {
    hide Index;
    LinkTo(t, ht, size, x);
  }

  lemma LeafMaps(v: View, v': View, x: int, i: nat)
    requires |v.tree.roots| == NTREEBINS && MapsOK(v) && i < NTREEBINS && x >= HEAP_LOW
    requires v'.smallmap == v.smallmap && v'.rings.Keys == v.rings.Keys - {x}
    requires v'.tree.roots == if v.tree.roots[i] == x then v.tree.roots[i := 0] else v.tree.roots
    requires v'.treemap == if v.tree.roots[i] == x then Clear(v.treemap, i) else v.treemap
    ensures MapsOK(v')
  {
    hide Clear, Marked;
    if v.tree.roots[i] == x { ClearTree(v, v', i); }
  }

  /** Members after a chunk x alone in its ring left; r, if different, moved up in the trie in its place. */
  lemma AloneMembers(v: View, v': View, x: int, r: int)
    requires MembersOK(v) && x in v.ht && x in v.size && x in v.home && v.home[x] == x && r in v.ht
    requires forall c :: c in v.home && v.home[c] == x ==> c == x
    requires v'.size == v.size - {x} && v'.home == v.home - {x} && v'.ht.Keys == v.ht.Keys - {x}
    requires v'.rings == v.rings - {x}
    requires v'.tree.index == v.tree.index
    requires forall c :: c >= HEAP_LOW && c !in v.ht ==> TreeWordsKept(v.tree, v'.tree, c)
    ensures MembersOK(v')
  {
    hide Index, Rd;
    forall c | c in v'.size
      ensures MemberOK(v', c)
    {
      assert MemberOK(v, c);
      assert c !in v.ht ==> TreeWordsKept(v.tree, v'.tree, c);
    }
    forall h | h in v'.rings
      ensures RingHeadOK(v', h)
    {
      assert RingHeadOK(v, h);
    }
  }

  lemma LeafOutOK(v: View, x: int)
    requires BinsOK(v) && x in v.ht && Rd(v.bk, x) == x && Child(v.tree, x, 0) == 0 && Child(v.tree, x, 1) == 0
    ensures x in v.size && 0 <= v.size[x] && Index(v.size[x]) < |v.tree.roots| && Index(v.size[x]) < NTREEBINS
    ensures BinsOK(LeafOut(v, x))
  {
    NodeHome(v, x);
    Alone(v.fd, v.bk, v.rings, v.home, x);
    DropRing(v.fd, v.bk, v.rings, v.home, x);
    assert (set c | c in v.rings[x]) == {x};
    RemoveLeaf(v.tree, v.ht, v.size, x);
    LinkTo(v.tree, v.ht, v.size, x);
    hide Index, Clear, WithoutLeaf;
    LeafKeeps(v.tree, v.ht, v.size, x);
    var v' := LeafOut(v, x);
    AloneMembers(v, v', x, x);
    LeafMaps(v, v', x, Index(v.size[x]));
  }

  /** Unlinking an inner node alone in its size: leaf r of its subtree is cut off and takes its place. */
  ghost function InnerOut(v: View, x: int, r: int): View
    requires x in v.ht && x in v.size && 0 <= v.size[x] && Index(v.size[x]) < |v.tree.roots|
  {
    var i := Index(v.size[x]);
    v.(tree := Replaced(WithoutLeaf(v.tree, r, Rd(v.tree.parent, r), i), x, r, i),
       rings := v.rings - {x}, home := v.home - {x}, ht := (v.ht - {r} - {x})[r := v.ht[x]], size := v.size - {x})
  }

  lemma InnerKeeps(t: Tree, t1: Tree, t': Tree, ht: map<int, nat>, r: int)
    requires r in ht
    requires forall c :: c >= HEAP_LOW && (c !in ht || c == r) ==> TreeWordsKept(t, t1, c)
    requires forall c :: c >= HEAP_LOW && c !in ht - {r} && c != r ==> TreeWordsKept(t1, t', c)
    ensures forall c :: c >= HEAP_LOW && c !in ht ==> TreeWordsKept(t, t', c)
  {
    forall c | c >= HEAP_LOW && c !in ht
      ensures TreeWordsKept(t, t', c)
    {
      assert TreeWordsKept(t, t1, c) && TreeWordsKept(t1, t', c);
    }
  }

  lemma NotRoot(t: Tree, ht: map<int, nat>, size: map<int, int>, x: int, r: int)
    requires TrieOK(t, ht, size) && x in ht && r in ht && r != x && Sub(ht, size, x, r)
    ensures Index(size[r]) < NTREEBINS && t.roots[Index(size[r])] != r
  {
    LinkTo(t, ht, size, r);
    LinkTo(t, ht, size, x);
    assert NodeOK(t, ht, size, x);
    SubSplit(t, ht, size, x, r);
  }

  /** The leaf, once cut off, may take the place of the inner node. */
  lemma LeafCanReplace(v: View, x: int, r: int)
    requires BinsOK(v) && x in v.ht
    requires r in v.ht && r != x && Sub(v.ht, v.size, x, r) && Child(v.tree, r, 0) == 0 && Child(v.tree, r, 1) == 0
    ensures x in v.size && 0 <= v.size[x] && Index(v.size[x]) < |v.tree.roots|
    ensures var t1 := WithoutLeaf(v.tree, r, Rd(v.tree.parent, r), Index(v.size[x]));
            && TrieOK(t1, v.ht - {r}, v.size) && CanReplace(t1, v.ht - {r}, v.size, x, r)
            && t1.roots == v.tree.roots && t1.index == v.tree.index
            && t1.parent == v.tree.parent && TreeWordsKept(v.tree, t1, r)
            && forall c :: c >= HEAP_LOW && c !in v.ht ==> TreeWordsKept(v.tree, t1, c)
  {
    NodeHome(v, x);
    NodeHome(v, r);
    RemoveLeaf(v.tree, v.ht, v.size, r);
    LeafKeeps(v.tree, v.ht, v.size, r);
    NotRoot(v.tree, v.ht, v.size, x, r);
    hide Shr, Height;
  }

  lemma InnerOutOK(v: View, x: int, r: int)
    requires BinsOK(v) && x in v.ht && Rd(v.bk, x) == x
    requires r in v.ht && r != x && Sub(v.ht, v.size, x, r) && Child(v.tree, r, 0) == 0 && Child(v.tree, r, 1) == 0
    ensures x in v.size && 0 <= v.size[x] && Index(v.size[x]) < |v.tree.roots|
    ensures BinsOK(InnerOut(v, x, r))
  {
    hide Index, Shr, WithoutLeaf, Replaced, NodeOK, RootOK, OnePerCell, OnePerSize, Ring, MemberOK, RingHeadOK, Marked,
         Height, CanReplace;
    NodeHome(v, x);
    NodeHome(v, r);
    Alone(v.fd, v.bk, v.rings, v.home, x);
    DropRing(v.fd, v.bk, v.rings, v.home, x);
    assert (set c | c in v.rings[x]) == {x};
    var t1 := WithoutLeaf(v.tree, r, Rd(v.tree.parent, r), Index(v.size[x]));
    LeafCanReplace(v, x, r);
    ReplaceNode(t1, v.ht - {r}, v.size, x, r);
    ReplaceKeeps(t1, v.ht - {r}, v.size, x, r);
    var v' := InnerOut(v, x, r);
    InnerKeeps(v.tree, t1, v'.tree, v.ht, r);
    AloneMembers(v, v', x, r);
    ReplaceMaps(v, v', x, r);
  }
}
