/** The bins of malloc_state as the allocator updates them: the link words of free chunks, the bin
    words and the two maps are changed in place by the linking and unlinking macros. */
module BinOps {
  import opened Words
  import opened Bitmaps
  import opened Layout
  import opened TreeIndex
  import opened Rings
  import opened Tries
  import opened Bins
  import opened LargeBins
  import opened Search

  /** The link words at heap addresses outside `keys` read the same in v and v'. */
  ghost predicate KeptOutside(v: View, v': View, keys: set<int>) {
    forall a :: a >= HEAP_LOW && a !in keys ==>
      && Rd(v.fd, a) == Rd(v'.fd, a) && Rd(v.bk, a) == Rd(v'.bk, a)
      && Rd(v.tree.child0, a) == Rd(v'.tree.child0, a) && Rd(v.tree.child1, a) == Rd(v'.tree.child1, a)
      && Rd(v.tree.parent, a) == Rd(v'.tree.parent, a) && Rd(v.tree.index, a) == Rd(v'.tree.index, a)
  }

  /** The head words give the sizes of the binned chunks. */
  ghost predicate HeadsAgree(head: map<int, int>, size: map<int, int>) {
    forall c :: c in size ==> ChunkSize(Rd(head, c)) == size[c]
  }

  lemma RingNeighbours(v: View, p: int)
    requires BinsOK(v) && p in v.home
    ensures v.home[p] in v.rings
    ensures var f, r := Rd(v.fd, p), Rd(v.bk, p);
            && f in v.home && v.home[f] == v.home[p] && r in v.home && v.home[r] == v.home[p]
            && (f >= HEAP_LOW ==> f in v.size) && (r >= HEAP_LOW ==> r in v.size)
  {
    hide TrieOK, MapsOK, MemberOK, RingHeadOK, Rd;
    var h := v.home[p];
    assert HomesOK(v.rings, v.home) && h in v.rings;
    var s := v.rings[h];
    var k := Pos(s, p);
    assert Ring(v.fd, v.bk, s);
    var a, b := Next(k, |s|), Prev(k, |s|);
    assert Rd(v.fd, s[k]) == s[a] && Rd(v.bk, s[k]) == s[b];
    assert v.rings[h][a] in v.home && v.rings[h][b] in v.home;
  }

  /** p->fd->bk == p and p->bk->fd == p for every binned chunk. */
  lemma LinkedBothWays(v: View, p: int)
    requires BinsOK(v) && p in v.size
    ensures Rd(v.bk, Rd(v.fd, p)) == p && Rd(v.fd, Rd(v.bk, p)) == p
  {
    hide TrieOK, MapsOK, RingHeadOK, Rd, Index;
    assert MemberOK(v, p);
    var h := v.home[p];
    assert HomesOK(v.rings, v.home) && h in v.rings;
    var s := v.rings[h];
    var k := Pos(s, p);
    assert Ring(v.fd, v.bk, s);
    NeighbourLinks(v.fd, v.bk, s, k);
  }

  lemma FirstSmallKept(v: View, p: int, s: int)
    requires BinsOK(v) && SizeOK(s) && IsSmall(s)
    ensures KeptOutside(v, FirstSmall(v, p, s), v.size.Keys + {p})
  {
    HeaderFacts(SmallIndex(s));
  }

  lemma NextSmallKept(v: View, p: int, s: int)
    requires BinsOK(v) && SizeOK(s) && IsSmall(s) && SmallBinAt(SmallIndex(s)) in v.rings
    ensures |v.rings[SmallBinAt(SmallIndex(s))]| > 0
    ensures KeptOutside(v, NextSmall(v, p, s), v.size.Keys + {p})
  {
    HeaderFacts(SmallIndex(s));
    HomeOfHeader(v, SmallIndex(s));
    RingNeighbours(v, SmallBinAt(SmallIndex(s)));
  }

  lemma MapFacts(v: View, i: nat)
    requires BinsOK(v) && i < 32
    ensures |v.tree.roots| == NTREEBINS
    ensures Marked(v.smallmap, i) <==> SmallBinAt(i) in v.rings
    ensures Marked(v.treemap, i) <==> v.tree.roots[i] != 0
    ensures SmallBinAt(i) in v.rings ==> |v.rings[SmallBinAt(i)]| >= 2 && v.rings[SmallBinAt(i)][0] == SmallBinAt(i)
    ensures SmallBinAt(i) in v.rings ==> SmallBinAt(i) in v.home && v.home[SmallBinAt(i)] == SmallBinAt(i)
  {
    HomeOfHeader(v, i);
  }

  lemma SameKept(v: View, v': View)
    requires v'.fd == v.fd && v'.bk == v.bk && v'.tree == v.tree
    ensures KeptOutside(v, v', v.size.Keys)
  {
  }

  /** Small chunks sit in marked bins, and a marked bin's chunks are multiples of 32 bytes. */
  lemma SmallMarked(v: View, c: int)
    requires BinsOK(v) && c in v.size && IsSmall(v.size[c])
    ensures SizeOK(v.size[c]) && SmallIndex(v.size[c]) < NSMALLBINS && Marked(v.smallmap, SmallIndex(v.size[c]))
    ensures v.size[c] == 8 * SmallIndex(v.size[c])
  {
    hide Marked, Index;
    SmallHome(v, c);
    MapFacts(v, SmallIndex(v.size[c]));
  }

  lemma SmallRingSize(v: View, i: nat, p: int)
    requires BinsOK(v) && i < NSMALLBINS && p in v.size && p in v.home && v.home[p] == SmallBinAt(i)
    ensures v.size[p] == 8 * i && IsSmall(v.size[p])
  {
    assert MemberOK(v, p);
    HeaderFacts(i);
    assert !IsSmall(v.size[p]) ==> SmallBinAt(i) in v.ht;
  }

  /** The chunk a small bin yields first is linked back to the bin's header. */
  lemma FirstOfBin(v: View, i: nat)
    requires BinsOK(v) && i < NSMALLBINS && Marked(v.smallmap, i)
    ensures var b := SmallBinAt(i); var p := Rd(v.fd, b);
            && p in v.size && p >= HEAP_LOW && v.size[p] == 8 * i && IsSmall(v.size[p]) && p in v.home && v.home[p] == b
            && Rd(v.bk, p) == b
  {
    var b := SmallBinAt(i);
    MapFacts(v, i);
    HeadFollower(v.fd, v.bk, v.rings, v.home, b);
    var p := Rd(v.fd, b);
    var s := v.rings[b];
    assert p == s[Next(0, |s|)];
    assert p == s[1];
    assert s[0] != s[1];
    HeaderFacts(i);
    assert p in v.home && v.home[p] == b;
    SmallRingSize(v, i, p);
  }

  lemma MarkedMultiple(v: View, i: nat)
    requires BinsOK(v) && i < NSMALLBINS && Marked(v.smallmap, i)
    ensures i % 4 == 0
  {
    hide BinsOK, Marked, Rd;
    FirstOfBin(v, i);
    SmallHome(v, Rd(v.fd, SmallBinAt(i)));
  }

  lemma MemberOutKept(v: View, p: int)
    requires BinsOK(v) && p in v.home && v.home[p] in v.rings && p in v.rings[v.home[p]]
    ensures KeptOutside(v, MemberOut(v, p), v.size.Keys)
  {
    hide BinsOK;
    RingNeighbours(v, p);
  }

  lemma FirstLargeKept(v: View, x: int, s: int)
    requires 0 <= s && Index(s) < NTREEBINS == |v.tree.roots|
    ensures KeptOutside(v, FirstLarge(v, x, s), v.size.Keys + {x})
  {
    hide Index;
  }

  lemma LeafLargeKept(v: View, q: int, x: int, s: int)
    requires BinsOK(v) && 0 <= s && q in v.ht && v.ht[q] > 0
    ensures KeptOutside(v, LeafLarge(v, q, x, s), v.size.Keys + {x})
  {
    hide Index, Bit;
  }

  lemma ChainedLargeKept(v: View, t: int, x: int, s: int)
    requires BinsOK(v) && t in v.ht && 0 <= s
    ensures t in v.rings && |v.rings[t]| > 0 && KeptOutside(v, ChainedLarge(v, t, x, s), v.size.Keys + {x})
  {
    hide Index;
    HeadHome(v.fd, v.bk, v.rings, v.home, t);
    RingNeighbours(v, t);
  }

  /** The register of a walk at a node of height e, and the branch it selects. */
  lemma WalkRegister(s: int, e: nat)
    requires 0 <= s < WORD && 1 <= e <= 32
    ensures Shl(s, 32 - e) < WORD && Shl(s, 32 - e) / HALF_WORD == Bit(s, e - 1)
    ensures e > 1 ==> (2 * Shl(s, 32 - e)) % WORD == Shl(s, 32 - (e - 1))
  {
    ShiftRegister(s, 32 - e);
  }

  lemma PathNode(v: View, t: int)
    requires BinsOK(v) && t in v.ht
    ensures t in v.size && t >= HEAP_LOW && 5 <= v.ht[t] <= 32 && MIN_LARGE_SIZE <= v.size[t] < WORD
  {
    assert NodeOK(v.tree, v.ht, v.size, t);
  }

  lemma RootHeight(v: View, s: int)
    requires BinsOK(v) && LargeSize(s) && Index(s) < NTREEBINS && v.tree.roots[Index(s)] != 0
    ensures OnPath(v.ht, v.size, v.tree.roots[Index(s)], s)
    ensures v.ht[v.tree.roots[Index(s)]] == Height(Index(s))
  {
    PathStart(v.tree, v.ht, v.size, s);
    assert RootOK(v.tree, v.ht, v.size, Index(s));
  }

  lemma NodesSized(v: View)
    requires BinsOK(v)
    ensures forall x :: x in v.ht ==> x in v.size
  {
  }

  lemma SharedNeighbour(v: View, x: int)
    requires BinsOK(v) && x in v.ht && Rd(v.bk, x) != x
    ensures x in v.size && CanReplace(v.tree, v.ht, v.size, x, Rd(v.bk, x)) && TrieOK(v.tree, v.ht, v.size)
  {
    NodeHome(v, x);
    Alone(v.fd, v.bk, v.rings, v.home, x);
    RemoveHead(v.fd, v.bk, v.rings, v.home, x);
    SharedCanReplace(v, x, Rd(v.bk, x));
  }

  lemma SharedOutKept(v: View, x: int)
    requires BinsOK(v) && x in v.ht && Rd(v.bk, x) != x
    ensures x in v.size && 0 <= v.size[x] && Index(v.size[x]) < |v.tree.roots| && x in v.rings && |v.rings[x]| >= 2
    ensures KeptOutside(v, SharedOut(v, x), v.size.Keys)
  {
    hide Index, Replaced, RingsOK, MembersOK, MapsOK, NodeOK, RootOK, OnePerCell, OnePerSize, Height;
    SharedOutOK(v, x);
    NodeHome(v, x);
    RingNeighbours(v, x);
    SharedNeighbour(v, x);
    ReplaceKeeps(v.tree, v.ht, v.size, x, Rd(v.bk, x));
    NodesSized(v);
    var t' := SharedOut(v, x).tree;
    forall a | a >= HEAP_LOW && a !in v.size
      ensures TreeWordsKept(v.tree, t', a)
    {
    }
  }

  lemma LeafOutKept(v: View, x: int)
    requires BinsOK(v) && x in v.ht
    ensures x in v.size && 0 <= v.size[x] && Index(v.size[x]) < |v.tree.roots| && Index(v.size[x]) < NTREEBINS
    ensures KeptOutside(v, LeafOut(v, x), v.size.Keys)
  {
    NodeHome(v, x);
    LeafKeeps(v.tree, v.ht, v.size, x);
    NodesSized(v);
    hide BinsOK, Index, WithoutLeaf;
    var t' := LeafOut(v, x).tree;
    forall a | a >= HEAP_LOW && a !in v.size
      ensures TreeWordsKept(v.tree, t', a)
    {
    }
  }

  lemma InnerOutWords(v: View, x: int, r: int)
    requires BinsOK(v) && x in v.ht && x in v.size && 0 <= v.size[x] && Index(v.size[x]) < |v.tree.roots|
    requires r in v.ht && r != x && Sub(v.ht, v.size, x, r) && Child(v.tree, r, 0) == 0 && Child(v.tree, r, 1) == 0
    ensures forall c :: c >= HEAP_LOW && c !in v.ht ==> TreeWordsKept(v.tree, InnerOut(v, x, r).tree, c)
    ensures InnerOut(v, x, r).tree.index == v.tree.index
  {
    NodeHome(v, x);
    NodeHome(v, r);
    var i := Index(v.size[x]);
    var t1 := WithoutLeaf(v.tree, r, Rd(v.tree.parent, r), i);
    RemoveLeaf(v.tree, v.ht, v.size, r);
    LeafKeeps(v.tree, v.ht, v.size, r);
    assert TreeWordsKept(v.tree, t1, r);
    hide Index, Shr, WithoutLeaf, Replaced;
    ReplaceKeeps(t1, v.ht - {r}, v.size, x, r);
    InnerKeeps(v.tree, t1, InnerOut(v, x, r).tree, v.ht, r);
  }

  lemma InnerOutKept(v: View, x: int, r: int)
    requires BinsOK(v) && x in v.ht
    requires r in v.ht && r != x && Sub(v.ht, v.size, x, r) && Child(v.tree, r, 0) == 0 && Child(v.tree, r, 1) == 0
    ensures x in v.size && 0 <= v.size[x] && Index(v.size[x]) < |v.tree.roots|
    ensures KeptOutside(v, InnerOut(v, x, r), v.size.Keys)
  {
    NodeHome(v, x);
    NodeHome(v, r);
    InnerOutWords(v, x, r);
    NodesSized(v);
    hide BinsOK, Index, WithoutLeaf, Replaced;
    var t' := InnerOut(v, x, r).tree;
    forall a | a >= HEAP_LOW && a !in v.size
      ensures TreeWordsKept(v.tree, t', a)
    {
    }
  }

  /** r is a proper descendant of x, linked from side b of q. */
  ghost predicate BelowLink(v: View, x: int, r: int, q: int, b: nat) {
    && TrieOK(v.tree, v.ht, v.size) && x in v.ht && r in v.ht && q in v.ht && b <= 1
    && r != x && Sub(v.ht, v.size, x, r) && v.ht[r] < v.ht[x]
    && Child(v.tree, q, b) == r && Rd(v.tree.parent, r) == q && Bit(v.size[r], v.ht[r]) == b
  }

  lemma FirstBelow(v: View, x: int, b: nat)
    requires BinsOK(v) && x in v.ht && b <= 1 && Child(v.tree, x, b) != 0
    ensures BelowLink(v, x, Child(v.tree, x, b), x, b) && Child(v.tree, x, b) in v.ht
  {
    assert NodeOK(v.tree, v.ht, v.size, x);
  }

  lemma NextBelow(v: View, x: int, r: int, c: int, b: nat)
    requires BinsOK(v) && x in v.ht && r in v.ht && b <= 1 && c == Child(v.tree, r, b) && c != 0
    requires exists q, a: nat :: BelowLink(v, x, r, q, a)
    ensures BelowLink(v, x, c, r, b) && c in v.ht && v.ht[c] < v.ht[r]
  {
    assert NodeOK(v.tree, v.ht, v.size, r);
    ShrAgreeUp(v.size[c], v.size[r], v.ht[r], v.ht[x]);
  }

  /** Clearing the link on side b of q cuts leaf r off. */
  lemma CutLink(v: View, x: int, r: int, q: int, b: nat)
    requires BinsOK(v) && BelowLink(v, x, r, q, b)
    ensures x in v.size && r in v.size && x in v.ht && r in v.ht && r != x && Sub(v.ht, v.size, x, r) && r != 0
    ensures 0 <= v.size[x] && Index(v.size[x]) < |v.tree.roots| && q == Rd(v.tree.parent, r)
    ensures WithoutLeaf(v.tree, r, q, Index(v.size[x])) ==
              if b == 0 then v.tree.(child0 := v.tree.child0[q := 0]) else v.tree.(child1 := v.tree.child1[q := 0])
    ensures Rd(v.tree.parent, x) != 0
  {
    NodeHome(v, x);
    NotRoot(v.tree, v.ht, v.size, x, r);
    LinkTo(v.tree, v.ht, v.size, r);
    LinkTo(v.tree, v.ht, v.size, x);
  }

  lemma SharedNonZero(v: View, x: int)
    requires BinsOK(v) && x in v.ht && Rd(v.bk, x) != x
    ensures Rd(v.bk, x) != 0
  {
    SharedNeighbour(v, x);
  }

  /** A large chunk is a trie node exactly when its parent word is not null. */
  lemma LargeFacts(v: View, x: int)
    requires BinsOK(v) && x in v.size && !IsSmall(v.size[x])
    ensures SizeOK(v.size[x]) && Index(v.size[x]) < NTREEBINS == |v.tree.roots|
    ensures Rd(v.tree.index, x) == Index(v.size[x])
    ensures x in v.ht <==> Rd(v.tree.parent, x) != 0
    ensures x !in v.ht ==> Rd(v.bk, x) != x && x in v.home && v.home[x] != x
  {
    assert MemberOK(v, x);
    Alone(v.fd, v.bk, v.rings, v.home, x);
    if x in v.ht {
      LinkTo(v.tree, v.ht, v.size, x);
    }
  }

  ghost function At(f: map<int, int>, here: bool, g: int, x: int): map<int, int> {
    if here then f[g := x] else f
  }

  /** Link word k of the granule at g: fd, bk, the two children, the parent or the tree index. */
  ghost function LinkStored(v: View, k: nat, g: int, x: int): View {
    var t := v.tree;
    v.(fd := At(v.fd, k == 2, g, x), bk := At(v.bk, k == 3, g, x),
       tree := Tree(At(t.child0, k == 4, g, x), At(t.child1, k == 5, g, x), At(t.parent, k == 6, g, x),
                    At(t.index, k == 7, g, x), t.roots))
  }

  ghost predicate Elsewhere(f: map<int, int>, f': map<int, int>, g: int) {
    forall a :: a != g ==> Rd(f, a) == Rd(f', a)
  }

  /** v' differs from v at most in the link words of g. */
  ghost predicate SameButAt(v: View, v': View, g: int) {
    && v' == View(v.smallmap, v.treemap, v'.fd, v'.bk, v'.tree, v.rings, v.home, v.ht, v.size)
    && v'.tree.roots == v.tree.roots
    && Elsewhere(v.fd, v'.fd, g) && Elsewhere(v.bk, v'.bk, g)
    && Elsewhere(v.tree.child0, v'.tree.child0, g) && Elsewhere(v.tree.child1, v'.tree.child1, g)
    && Elsewhere(v.tree.parent, v'.tree.parent, g) && Elsewhere(v.tree.index, v'.tree.index, g)
  }

  lemma WrittenElsewhere(f: map<int, int>, here: bool, g: int, x: int)
    ensures Elsewhere(f, At(f, here, g, x), g)
  {
  }

  lemma StoredAt(v: View, k: nat, g: int, x: int)
    ensures SameButAt(v, LinkStored(v, k, g, x), g)
  {
    hide Elsewhere, At;
    WrittenElsewhere(v.fd, k == 2, g, x);
    WrittenElsewhere(v.bk, k == 3, g, x);
    WrittenElsewhere(v.tree.child0, k == 4, g, x);
    WrittenElsewhere(v.tree.child1, k == 5, g, x);
    WrittenElsewhere(v.tree.parent, k == 6, g, x);
    WrittenElsewhere(v.tree.index, k == 7, g, x);
  }

  lemma StoredTrie(v: View, v': View, g: int)
    requires TrieOK(v.tree, v.ht, v.size) && g !in v.ht && SameButAt(v, v', g)
    ensures TrieOK(v'.tree, v.ht, v.size)
  {
    hide Rd, NodeOK, RootOK, OnePerCell, OnePerSize, LargeSize;
    TrieFrame(v.tree, v'.tree, v.ht, v.size, v.size);
  }

  lemma StoredMembers(v: View, v': View, g: int)
    requires MembersOK(v) && g !in v.size && SameButAt(v, v', g)
    ensures MembersOK(v')
  {
    hide Rd, Index, IsHeader;
    forall c | c in v.size
      ensures MemberOK(v', c)
    {
      assert MemberOK(v, c);
    }
    forall h | h in v.rings
      ensures RingHeadOK(v', h)
    {
      assert RingHeadOK(v, h);
    }
  }

  lemma StoredRings(v: View, v': View, g: int)
    requires RingsOK(v.fd, v.bk, v.rings, v.home) && g !in v.home && v'.rings == v.rings && v'.home == v.home
    requires Elsewhere(v.fd, v'.fd, g) && Elsewhere(v.bk, v'.bk, g)
    ensures RingsOK(v'.fd, v'.bk, v.rings, v.home)
  {
    hide Rd;
    forall h | h in v.rings
      ensures Ring(v'.fd, v'.bk, v.rings[h])
    {
      var s := v.rings[h];
      forall j: nat | j < |s|
        ensures s[j] != g
      {
        assert s[j] in v.home;
      }
      RingFrame(v.fd, v.bk, v'.fd, v'.bk, s);
    }
  }

  lemma StoredFrame(v: View, v': View, g: int)
    requires BinsOK(v) && g >= HEAP_LOW && g !in v.size && SameButAt(v, v', g)
    ensures BinsOK(v')
  {
    hide Rd, RingsOK, MembersOK, Index, Height, NodeOK, RootOK, OnePerCell, OnePerSize, Elsewhere;
    NotHome(v, g);
    StoredRings(v, v', g);
    StoredTrie(v, v', g);
    StoredMembers(v, v', g);
    SameMaps(v, v');
  }

  /** The bins do not depend on the link words of anything but their chunks. */
  lemma LinkStoredOK(v: View, k: nat, g: int, x: int)
    requires BinsOK(v) && g >= HEAP_LOW && g !in v.size
    ensures BinsOK(LinkStored(v, k, g, x))
  {
    hide BinsOK;
    StoredAt(v, k, g, x);
    StoredFrame(v, LinkStored(v, k, g, x), g);
  }

  /** The words of free chunks that only the bins use, and the bin words of malloc_state. */
  datatype BinWords = BinWords(smallmap: bv32, treemap: bv32, fd: map<int, int>, bk: map<int, int>, tree: Tree)

  /** The structure those words spell out. */
  datatype Shape = Shape(rings: map<int, seq<int>>, home: map<int, int>, ht: map<int, nat>, size: map<int, int>)

  class FreeBins {
    var w: BinWords
    ghost var shape: Shape

    ghost function V(): View
      reads this
    {
      View(w.smallmap, w.treemap, w.fd, w.bk, w.tree, shape.rings, shape.home, shape.ht, shape.size)
    }

    ghost predicate Valid()
      reads this
    {
      BinsOK(V())
    }

    /** The binned chunks and their sizes. */
    ghost function Size(): map<int, int>
      reads this
    {
      shape.size
    }

    /** The header of small bin i is linked to itself. */
    static ghost predicate SelfLinked(fd: map<int, int>, bk: map<int, int>, i: nat) {
      Rd(fd, SmallBinAt(i)) == SmallBinAt(i) == Rd(bk, SmallBinAt(i))
    }

    /** init_bins: every small bin's header is linked to itself and no chunk is binned, whatever the memory holds. */
    constructor (fd0: map<int, int>, bk0: map<int, int>, links: Tree)
      ensures Valid() && Size() == map[]
      ensures forall i: nat :: i < NSMALLBINS ==> SelfLinked(w.fd, w.bk, i)
      ensures forall a :: a >= HEAP_LOW ==> Rd(w.fd, a) == Rd(fd0, a) && Rd(w.bk, a) == Rd(bk0, a)
    {
      var fd, bk := fd0, bk0;
      var i := 0;
      while i < NSMALLBINS
        invariant 0 <= i <= NSMALLBINS && forall j: nat :: j < i ==> SelfLinked(fd, bk, j)
        invariant forall a :: a >= HEAP_LOW ==> Rd(fd, a) == Rd(fd0, a) && Rd(bk, a) == Rd(bk0, a)
      {
        HeaderFacts(i);
        ghost var f, b := fd, bk;
        fd := fd[SmallBinAt(i) := SmallBinAt(i)];
        bk := bk[SmallBinAt(i) := SmallBinAt(i)];
        forall j: nat | j <= i
          ensures SelfLinked(fd, bk, j)
        {
          if j < i {
            assert SelfLinked(f, b, j) && SmallBinAt(j) != SmallBinAt(i);
          }
        }
        i := i + 1;
      }
      w := BinWords(0, 0, fd, bk, links.(roots := seq(NTREEBINS, i => 0)));
      shape := Shape(map[], map[], map[], map[]);
      new;
      EmptyBins(V());
    }

    static lemma EmptyBins(v: View)
      requires v.smallmap == 0 && v.treemap == 0 && v.rings == map[]
      requires v.home == map[] && v.ht == map[] && v.size == map[]
      requires |v.tree.roots| == NTREEBINS && forall i :: 0 <= i < NTREEBINS ==> v.tree.roots[i] == 0
      ensures BinsOK(v)
    {
      hide Marked, Index, Height;
      forall i: nat | i < 32
        ensures !Marked(0, i)
      {
        NothingMarked(i);
      }
    }

    ghost function ShapeOf(v: View): Shape {
      Shape(v.rings, v.home, v.ht, v.size)
    }

    /** insert_small_chunk */
    method InsertSmallChunk(p: int, s: int)
      requires Valid() && p >= HEAP_LOW && p !in Size() && SizeOK(s) && IsSmall(s)
      modifies this
      ensures Valid() && Size() == old(Size())[p := s]
      ensures KeptOutside(old(V()), V(), old(Size()).Keys + {p})
    {
      hide Marked, Mark, Rd, BinsOK, KeptOutside;
      ghost var v := V();
      var i := SmallIndex(s);
      var b := SmallBinAt(i);
      var f, fd, bk := b, w.fd, w.bk;
      MapFacts(v, i);
      if !Marked(w.smallmap, i) {
        FirstSmallOK(v, p, s);
        FirstSmallKept(v, p, s);
        w := w.(smallmap := Mark(w.smallmap, i));
        shape := ShapeOf(FirstSmall(v, p, s));
      } else {
        NextSmallOK(v, p, s);
        NextSmallKept(v, p, s);
        f := Rd(fd, b);
        shape := ShapeOf(NextSmall(v, p, s));
      }
      fd := fd[b := p];
      bk := bk[f := p];
      fd := fd[p := f];
      bk := bk[p := b];
      w := w.(fd := fd, bk := bk);
    }

    /** unlink_small_chunk */
    method UnlinkSmallChunk(p: int, s: int)
      requires Valid() && p in Size() && Size()[p] == s && IsSmall(s)
      modifies this
      ensures Valid() && Size() == old(Size()) - {p}
      ensures KeptOutside(old(V()), V(), old(Size()).Keys)
    {
      hide Marked, Clear, Rd, BinsOK, KeptOutside;
      ghost var v := V();
      SmallHome(v, p);
      var f, b := Rd(w.fd, p), Rd(w.bk, p);
      if b == f {
        LastSmallOutOK(v, p);
        SameKept(v, LastSmallOut(v, p));
        w := w.(smallmap := Clear(w.smallmap, SmallIndex(s)));
        shape := ShapeOf(LastSmallOut(v, p));
      } else {
        MemberOutOK(v, p);
        MemberOutKept(v, p);
        var bk := w.bk[f := b];
        var fd := w.fd[b := f];
        w := w.(fd := fd, bk := bk);
        shape := ShapeOf(MemberOut(v, p));
      }
    }

    /** Taking the first chunk p of small bin i (unlink_first_small_chunk). */
    method UnlinkFirstSmallChunk(i: nat) returns (p: int)
      requires Valid() && i < NSMALLBINS && Marked(w.smallmap, i)
      modifies this
      ensures p in old(Size()) && old(Size())[p] == 8 * i
      ensures Valid() && Size() == old(Size()) - {p}
      ensures KeptOutside(old(V()), V(), old(Size()).Keys)
    {
      hide Marked, Clear, Rd, BinsOK, KeptOutside;
      ghost var v := V();
      FirstOfBin(v, i);
      var b := SmallBinAt(i);
      p := Rd(w.fd, b);
      var f := Rd(w.fd, p);
      SmallHome(v, p);
      if b == f {
        LastSmallOutOK(v, p);
        SameKept(v, LastSmallOut(v, p));
        w := w.(smallmap := Clear(w.smallmap, i));
        shape := ShapeOf(LastSmallOut(v, p));
      } else {
        MemberOutOK(v, p);
        MemberOutKept(v, p);
        var bk := w.bk[f := b];
        var fd := w.fd[b := f];
        w := w.(fd := fd, bk := bk);
        shape := ShapeOf(MemberOut(v, p));
      }
    }

    lemma TreeView(v: View)
      requires BinsOK(v)
      ensures TrieOK(v.tree, v.ht, v.size) && Sized(v.ht, v.size) && |v.tree.roots| == NTREEBINS
    {
    }

    /** The walk of insert_large_chunk: down the trie along the bits of s, to the node of that size
        or to the node with a free slot on the way. */
    method WalkToSlot(s: int, head: map<int, int>) returns (t: int, b: nat)
      requires Valid() && LargeSize(s) && Index(s) < NTREEBINS && HeadsAgree(head, Size())
      requires w.tree.roots[Index(s)] != 0
      ensures t in V().ht && t in Size() && OnPath(V().ht, V().size, t, s)
      ensures Size()[t] != s ==> V().ht[t] > 5 && b == Bit(s, V().ht[t] - 1) && Child(w.tree, t, b) == 0
    {
      hide Rd, BinsOK, TrieOK, Shl, Bit, Shr, Index, ChunkSize, OnPath;
      ghost var v := V();
      TreeView(v);
      t := w.tree.roots[Index(s)];
      var k := Shl(s, LeftShift(Index(s)));
      b := 0;
      RootHeight(v, s);
      PathNode(v, t);
      while ChunkSize(Rd(head, t)) != s
        invariant t in v.ht && t in v.size && OnPath(v.ht, v.size, t, s)
        invariant 5 <= v.ht[t] <= 32 && k == Shl(s, 32 - v.ht[t])
        decreases v.ht[t]
      {
        PathStep(v.tree, v.ht, v.size, t, s);
        WalkRegister(s, v.ht[t]);
        b := k / HALF_WORD;
        var c := Child(w.tree, t, b);
        k := (2 * k) % WORD;
        if c == 0 {
          break;
        }
        t := c;
        PathNode(v, t);
      }
    }

    /** insert_large_chunk */
    method InsertLargeChunk(x: int, s: int, head: map<int, int>)
      requires Valid() && x >= HEAP_LOW && x !in Size() && SizeOK(s) && !IsSmall(s) && HeadsAgree(head, Size())
      modifies this
      ensures Valid() && Size() == old(Size())[x := s]
      ensures KeptOutside(old(V()), V(), old(Size()).Keys + {x})
    {
      hide Marked, Mark, Rd, BinsOK, KeptOutside, TrieOK, Bit, Shr, OnPath, Index;
      ghost var v := V();
      IndexBound(s);
      var i := Index(s);
      MapFacts(v, i);
      var tree := w.tree;
      tree := tree.(index := tree.index[x := i], child0 := tree.child0[x := 0], child1 := tree.child1[x := 0]);
      if !Marked(w.treemap, i) {
        FirstLargeOK(v, x, s);
        FirstLargeKept(v, x, s);
        w := w.(treemap := Mark(w.treemap, i));
        tree := tree.(roots := tree.roots[i := x]);
        tree := tree.(parent := tree.parent[x := TreeBinAt(i)]);
        w := w.(tree := tree, fd := w.fd[x := x], bk := w.bk[x := x]);
        shape := ShapeOf(FirstLarge(v, x, s));
      } else {
        var t, b := WalkToSlot(s, head);
        if ChunkSize(Rd(head, t)) != s {
          LeafLargeOK(v, t, x, s);
          LeafLargeKept(v, t, x, s);
          if b == 0 {
            tree := tree.(child0 := tree.child0[t := x]);
          } else {
            tree := tree.(child1 := tree.child1[t := x]);
          }
          tree := tree.(parent := tree.parent[x := t]);
          w := w.(tree := tree, fd := w.fd[x := x], bk := w.bk[x := x]);
          shape := ShapeOf(LeafLarge(v, t, x, s));
        } else {
          ChainedLargeOK(v, t, x, s);
          ChainedLargeKept(v, t, x, s);
          var f := Rd(w.fd, t);
          var fd, bk := w.fd[t := x], w.bk[f := x];
          fd := fd[x := f];
          bk := bk[x := t];
          tree := tree.(parent := tree.parent[x := 0]);
          w := w.(tree := tree, fd := fd, bk := bk);
          shape := ShapeOf(ChainedLarge(v, t, x, s));
        }
      }
    }

    /** The descent of unlink_large_chunk from inner node x to its rightmost leaf r; side b of q links to r. */
    method RightmostLeaf(x: int) returns (r: int, q: int, b: nat)
      requires Valid() && x in V().ht && (Child(w.tree, x, 0) != 0 || Child(w.tree, x, 1) != 0)
      ensures BelowLink(V(), x, r, q, b) && Child(w.tree, r, 0) == 0 && Child(w.tree, r, 1) == 0
    {
      hide Rd, BinsOK, BelowLink;
      ghost var v := V();
      q := x;
      b := if Child(w.tree, x, 1) != 0 then 1 else 0;
      r := Child(w.tree, q, b);
      FirstBelow(v, x, b);
      while Child(w.tree, r, 1) != 0 || Child(w.tree, r, 0) != 0
        invariant BelowLink(v, x, r, q, b) && r in v.ht
        decreases v.ht[r]
      {
        q, b := r, if Child(w.tree, r, 1) != 0 then 1 else 0;
        NextBelow(v, x, r, Child(w.tree, q, b), b);
        r := Child(w.tree, q, b);
      }
    }

    /** The structure after x is gone and r (or nothing) has replaced it in `tree`. */
    ghost predicate Relinked(v: View, goal: View, x: int, xp: int, r: int, tree: Tree)
      requires 0 <= Rd(tree.index, x) < NTREEBINS == |tree.roots|
    {
      var i := Rd(tree.index, x);
      && goal.treemap == (if xp != 0 && r == 0 && tree.roots[i] == x then Clear(v.treemap, i) else v.treemap)
      && goal.tree
        == (if xp == 0 then tree else if r != 0 then Replaced(tree, x, r, i) else WithoutLeaf(tree, x, xp, i))
    }

    /** The first half of unlink_large_chunk: takes x out of its ring, or, if x is alone in its size and
        has children, cuts its rightmost leaf off; r is the chunk that will replace x. */
    method PickReplacement(x: int) returns (r: int, tree: Tree, ghost goal: View)
      requires Valid() && x in Size() && !IsSmall(Size()[x])
      modifies this`w
      ensures var v := old(V());
              && BinsOK(goal) && KeptOutside(v, goal, v.size.Keys) && goal.size == v.size - {x}
              && goal.smallmap == w.smallmap && goal.fd == w.fd && goal.bk == w.bk && w.treemap == v.treemap
              && tree.parent == v.tree.parent && 0 <= Rd(tree.index, x) < NTREEBINS == |tree.roots|
              && Relinked(v, goal, x, Rd(v.tree.parent, x), r, tree)
    {
      hide Clear, Rd, BinsOK, KeptOutside, BelowLink, CanReplace, Child, Index;
      ghost var v := V();
      LargeFacts(v, x);
      tree := w.tree;
      r := 0;
      if Rd(w.bk, x) != x {
        var f := Rd(w.fd, x);
        r := Rd(w.bk, x);
        var bk := w.bk[f := r];
        var fd := w.fd[r := f];
        w := w.(fd := fd, bk := bk);
        if x !in v.ht {
          MemberOutOK(v, x);
          MemberOutKept(v, x);
          goal := MemberOut(v, x);
        } else {
          SharedOutOK(v, x);
          SharedOutKept(v, x);
          SharedNonZero(v, x);
          goal := SharedOut(v, x);
        }
      } else if Child(tree, x, 0) != 0 || Child(tree, x, 1) != 0 {
        var q, b;
        r, q, b := RightmostLeaf(x);
        CutLink(v, x, r, q, b);
        InnerOutOK(v, x, r);
        InnerOutKept(v, x, r);
        if b == 0 {
          tree := tree.(child0 := tree.child0[q := 0]);
        } else {
          tree := tree.(child1 := tree.child1[q := 0]);
        }
        goal := InnerOut(v, x, r);
      } else {
        LeafOutOK(v, x);
        LeafOutKept(v, x);
        goal := LeafOut(v, x);
      }
    }

    /** The last step of unlink_large_chunk: r (or nothing) takes the place of trie node x. */
    method Relink(x: int, xp: int, r: int, tree0: Tree)
      requires 0 <= Rd(tree0.index, x) < |tree0.roots| && Rd(tree0.index, x) < NTREEBINS && xp == Rd(tree0.parent, x)
      modifies this`w
      ensures w.fd == old(w.fd) && w.bk == old(w.bk) && w.smallmap == old(w.smallmap)
      ensures var i := Rd(tree0.index, x);
              && w.treemap == (if r == 0 && tree0.roots[i] == x then Clear(old(w.treemap), i) else old(w.treemap))
              && w.tree == if r != 0 then Replaced(tree0, x, r, i) else WithoutLeaf(tree0, x, xp, i)
    {
      hide Rd, Clear;
      var tree := tree0;
      var i := Rd(tree.index, x);
      if tree.roots[i] == x {
        tree := tree.(roots := tree.roots[i := r]);
        if r == 0 {
          w := w.(treemap := Clear(w.treemap, i));
        }
      } else if Rd(tree.child0, xp) == x {
        tree := tree.(child0 := tree.child0[xp := r]);
      } else {
        tree := tree.(child1 := tree.child1[xp := r]);
      }
      if r != 0 {
        tree := tree.(parent := tree.parent[r := xp]);
        var c0, c1 := Rd(tree.child0, x), Rd(tree.child1, x);
        if c0 != 0 {
          tree := tree.(child0 := tree.child0[r := c0], parent := tree.parent[c0 := r]);
        }
        if c1 != 0 {
          tree := tree.(child1 := tree.child1[r := c1], parent := tree.parent[c1 := r]);
        }
      }
      w := w.(tree := tree);
    }

    /** unlink_large_chunk */
    method UnlinkLargeChunk(x: int)
      requires Valid() && x in Size() && !IsSmall(Size()[x])
      modifies this
      ensures Valid() && Size() == old(Size()) - {x}
      ensures KeptOutside(old(V()), V(), old(Size()).Keys)
    {
      hide Clear, Rd, BinsOK, KeptOutside, Replaced, WithoutLeaf;
      var xp := Rd(w.tree.parent, x);
      var r, tree;
      ghost var goal;
      r, tree, goal := PickReplacement(x);
      if xp == 0 {
        w := w.(tree := tree);
      } else {
        Relink(x, xp, r, tree);
      }
      shape := ShapeOf(goal);
      assert V() == goal;
    }

    /** The smallest large chunk of at least nb bytes, or 0 if there is none. */
    ghost predicate BestLarge(nb: int, v: int)
      reads this
    {
      && (v == 0 ==> forall c :: c in Size() && !IsSmall(Size()[c]) ==> Size()[c] < nb)
      && (v != 0 ==> v in Size() && !IsSmall(Size()[v]) && Size()[v] >= nb
                     && forall c :: c in Size() && !IsSmall(Size()[c]) && Size()[c] >= nb ==> Size()[v] <= Size()[c])
    }

    lemma NodesSuffice(nb: int, v: int, rsize: int)
      requires Valid() && Sized(V().ht, V().size) && Best(V().ht, V().size, nb, v, rsize)
      requires Remaining(V().ht, V().size, nb, rsize, 0)
      ensures BestLarge(nb, v)
    {
      SearchDone(V().ht, V().size, nb, v, rsize);
      if v != 0 { NodeHome(V(), v); }
      forall c | c in Size() && !IsSmall(Size()[c]) && Size()[c] >= nb
        ensures v != 0 && v in Size() && Size()[v] <= Size()[c]
      {
        assert MemberOK(V(), c);
        assert V().home[c] in V().ht && Size()[V().home[c]] == Size()[c];
      }
    }

    lemma SearchableNode(v: View, nb: int, rsize: int, c: int)
      requires BinsOK(v) && (c != 0 ==> Searchable(v.ht, v.size, nb, rsize, c))
      ensures c != 0 ==> c in v.ht
    {
    }

    lemma StillSearchable(v: View, nb: int, rsize: int, trem: int, t: int)
      requires BinsOK(v) && Searchable(v.ht, v.size, nb, rsize, t) && 0 <= trem
      ensures Searchable(v.ht, v.size, nb, if trem < rsize then trem else rsize, t)
    {
    }

    /** Comparing node t against the best so far. */
    lemma Examine(w0: View, nb: int, v: int, rsize: int, t: int, u: int)
      requires BinsOK(w0) && 0 < nb < WORD && Best(w0.ht, w0.size, nb, v, rsize) && t in w0.ht
      requires Remaining(w0.ht, w0.size, nb, rsize, u)
      ensures t in w0.size
      ensures var trem := Wrap(w0.size[t] - nb);
              var v', rsize' := if trem < rsize then t else v, if trem < rsize then trem else rsize;
              && Best(w0.ht, w0.size, nb, v', rsize') && Beaten(w0.size, nb, rsize', t)
              && Remaining(w0.ht, w0.size, nb, rsize', u)
    {
      PathNode(w0, t);
      WrapRejects(w0.ht, w0.size, nb, v, rsize, w0.size[t]);
      var trem := Wrap(w0.size[t] - nb);
      hide BinsOK, Wrap, Sub;
      if trem < rsize {
        forall y | y in w0.ht
          ensures Beaten(w0.size, nb, trem, y) || UnderOrAbove(w0.ht, w0.size, u, y)
        {
          assert Beaten(w0.size, nb, rsize, y) ==> Beaten(w0.size, nb, trem, y);
        }
      }
    }

    /** The last loop of the search: the smallest chunk on the leftmost path of t. */
    method LeastOfSubtree(t0: int, v0: int, rsize0: int, nb: int, head: map<int, int>) returns (v: int, rsize: int)
      requires Valid() && HeadsAgree(head, Size()) && 0 < nb < WORD
      requires Sized(V().ht, V().size) && Best(V().ht, V().size, nb, v0, rsize0)
      requires Remaining(V().ht, V().size, nb, rsize0, t0) && (t0 != 0 ==> Searchable(V().ht, V().size, nb, rsize0, t0))
      ensures Best(V().ht, V().size, nb, v, rsize) && BestLarge(nb, v)
    {
      hide Rd, BinsOK, TrieOK, Sized, Best, Remaining, Searchable, ChunkSize, Wrap, BestLarge;
      ghost var w0 := V();
      TreeView(w0);
      var t := t0;
      v, rsize := v0, rsize0;
      SearchableNode(w0, nb, rsize, t);
      while t != 0
        invariant Best(w0.ht, w0.size, nb, v, rsize) && Remaining(w0.ht, w0.size, nb, rsize, t)
        invariant t != 0 ==> Searchable(w0.ht, w0.size, nb, rsize, t) && t in w0.ht
        decreases if t != 0 then w0.ht[t] + 1 else 0
      {
        PathNode(w0, t);
        var trem := Wrap(ChunkSize(Rd(head, t)) - nb);
        Examine(w0, nb, v, rsize, t, t);
        StillSearchable(w0, nb, rsize, trem, t);
        if trem < rsize {
          rsize := trem;
          v := t;
        }
        var c := if Child(w.tree, t, 0) != 0 then Child(w.tree, t, 0) else Child(w.tree, t, 1);
        DescendAny(w0.tree, w0.ht, w0.size, nb, rsize, t, c);
        SearchableNode(w0, nb, rsize, c);
        t := c;
      }
      NodesSuffice(nb, v, rsize);
    }

    lemma HeadOf(v: View, head: map<int, int>, t: int)
      requires HeadsAgree(head, v.size) && t in v.size
      ensures ChunkSize(Rd(head, t)) == v.size[t]
    {
    }

    ghost predicate InOwnBin(w0: View, nb: int, v: int) {
      v != 0 ==> v in w0.size && 0 <= nb && 0 <= w0.size[v] && Index(w0.size[v]) == Index(nb)
    }

    lemma NothingYet(w0: View, nb: int, rsize: int)
      requires BinsOK(w0) && LargeSize(nb) && rsize == Wrap(-nb)
      ensures Best(w0.ht, w0.size, nb, 0, rsize) && InOwnBin(w0, nb, 0)
    {
    }

    lemma StartWalk(w0: View, nb: int, t: int)
      requires BinsOK(w0) && LargeSize(nb) && Index(nb) < NTREEBINS && |w0.tree.roots| == NTREEBINS
      requires t == w0.tree.roots[Index(nb)] && t != 0
      requires OnOwnPath(w0.ht, w0.size, nb, t) && w0.ht[t] == Height(Index(nb))
      ensures t in w0.ht && 5 <= w0.ht[t] <= 32 && UntakenRight(w0.ht, w0.size, nb, 0, w0.ht[t])
      ensures Shl(nb, LeftShift(Index(nb))) == Shl(nb, 32 - w0.ht[t])
    {
    }

    lemma PathOfChild(w0: View, nb: int, c: int)
      requires BinsOK(w0) && OnOwnPath(w0.ht, w0.size, nb, c)
      ensures c in w0.ht && 5 <= w0.ht[c] <= 32
    {
      WalkBits(w0.tree, w0.ht, w0.size, nb, c);
    }

    lemma ExamineOnPath(w0: View, nb: int, v: int, rsize: int, t: int, rst: int)
      requires BinsOK(w0) && LargeSize(nb) && Best(w0.ht, w0.size, nb, v, rsize) && InOwnBin(w0, nb, v)
      requires OnOwnPath(w0.ht, w0.size, nb, t) && PathCovers(w0.ht, w0.size, nb, rsize, t, rst)
      ensures t in w0.size
      ensures var trem := Wrap(w0.size[t] - nb);
              var v', rsize' := if trem < rsize then t else v, if trem < rsize then trem else rsize;
              && Best(w0.ht, w0.size, nb, v', rsize') && InOwnBin(w0, nb, v') && Beaten(w0.size, nb, rsize', t)
              && PathCovers(w0.ht, w0.size, nb, rsize', t, rst)
    {
      PathNode(w0, t);
      WrapRejects(w0.ht, w0.size, nb, v, rsize, w0.size[t]);
      var trem := Wrap(w0.size[t] - nb);
      hide BinsOK, Wrap, Sub, Index, Shr;
      if trem < rsize {
        forall y | y in w0.ht && Index(w0.size[y]) == Index(nb)
          ensures Beaten(w0.size, nb, trem, y) || (t in w0.ht && Sub(w0.ht, w0.size, t, y))
                  || UnderOrAbove(w0.ht, w0.size, rst, y)
        {
          assert Beaten(w0.size, nb, rsize, y) ==> Beaten(w0.size, nb, trem, y);
        }
      }
    }

    lemma WalkFellOff(w0: View, nb: int, v: int, rsize: int, rst: int, e: nat)
      requires BinsOK(w0) && LargeSize(nb) && Best(w0.ht, w0.size, nb, v, rsize) && InOwnBin(w0, nb, v)
      requires UntakenRight(w0.ht, w0.size, nb, rst, e) && PathCovers(w0.ht, w0.size, nb, rsize, 0, rst)
      ensures v != 0 || rst != 0 ==> Remaining(w0.ht, w0.size, nb, rsize, rst)
      ensures rst != 0 ==> Searchable(w0.ht, w0.size, nb, rsize, rst)
    {
      if v != 0 || rst != 0 {
        WalkEnds(w0.ht, w0.size, nb, v, rsize, rst, e);
      }
    }

    /** The first stage of tmalloc_large: along the path of nb itself. */
    method WalkOwnPath(nb: int, head: map<int, int>) returns (t: int, v: int, rsize: int)
      requires Valid() && LargeSize(nb) && Index(nb) < NTREEBINS && HeadsAgree(head, Size())
      ensures Sized(V().ht, V().size) && Best(V().ht, V().size, nb, v, rsize)
      ensures t == 0 && v == 0 ==> PathCovers(V().ht, V().size, nb, rsize, 0, 0)
      ensures t != 0 || v != 0 ==> Remaining(V().ht, V().size, nb, rsize, t)
      ensures t != 0 ==> Searchable(V().ht, V().size, nb, rsize, t)
    {
      hide Rd, BinsOK, TrieOK, Shl, Bit, Shr, Index, ChunkSize, Wrap, Best, PathCovers, UntakenRight, OnOwnPath,
           Remaining, Beaten, AllAbove, HeadsAgree, Sized;
      ghost var w0 := V();
      TreeView(w0);
      v, rsize := 0, Wrap(-nb);
      NothingYet(w0, nb, rsize);
      t := w.tree.roots[Index(nb)];
      StartCovers(w0.tree, w0.ht, w0.size, nb, rsize);
      if t != 0 {
        var sizebits := Shl(nb, LeftShift(Index(nb)));
        var rst := 0;
        StartWalk(w0, nb, t);
        while true
          invariant t in w0.ht && OnOwnPath(w0.ht, w0.size, nb, t) && 5 <= w0.ht[t] <= 32
          invariant sizebits == Shl(nb, 32 - w0.ht[t])
          invariant UntakenRight(w0.ht, w0.size, nb, rst, w0.ht[t])
          invariant PathCovers(w0.ht, w0.size, nb, rsize, t, rst)
          invariant Best(w0.ht, w0.size, nb, v, rsize) && InOwnBin(w0, nb, v)
          decreases w0.ht[t]
        {
          PathNode(w0, t);
          HeadOf(w0, head, t);
          var trem := Wrap(ChunkSize(Rd(head, t)) - nb);
          ExamineOnPath(w0, nb, v, rsize, t, rst);
          if trem < rsize {
            v := t;
            rsize := trem;
            if rsize == 0 {
              ExactFit(w0.ht, w0.size, nb, t);
              break;
            }
          }
          WalkRegister(nb, w0.ht[t]);
          var rt := Child(w.tree, t, 1);
          var c := Child(w.tree, t, sizebits / HALF_WORD);
          var rst' := if rt != 0 && rt != c then rt else rst;
          WalkStep(w0.tree, w0.ht, w0.size, nb, rsize, t, c, rst, rst');
          if c == 0 {
            WalkFellOff(w0, nb, v, rsize, rst', w0.ht[t] - 1);
            t := rst';
            break;
          }
          PathOfChild(w0, nb, c);
          t, rst := c, rst';
          sizebits := (2 * sizebits) % WORD;
        }
      }
    }

    lemma NextTree(w0: View, nb: int, rsize: int, i: nat)
      requires BinsOK(w0) && LargeSize(nb) && Index(nb) < i < NTREEBINS && Marked(w0.treemap, i)
      requires forall j: nat :: Index(nb) < j < i ==> !Marked(w0.treemap, j)
      requires PathCovers(w0.ht, w0.size, nb, rsize, 0, 0)
      ensures |w0.tree.roots| == NTREEBINS && w0.tree.roots[i] != 0
      ensures Remaining(w0.ht, w0.size, nb, rsize, w0.tree.roots[i])
      ensures Searchable(w0.ht, w0.size, nb, rsize, w0.tree.roots[i])
    {
      hide Marked;
      forall j: nat | Index(nb) < j < i
        ensures w0.tree.roots[j] == 0
      {
        assert !Marked(w0.treemap, j);
      }
      NextBin(w0.tree, w0.ht, w0.size, nb, rsize, i);
    }

    lemma NoTree(w0: View, nb: int, rsize: int)
      requires BinsOK(w0) && LargeSize(nb) && Index(nb) < NTREEBINS
      requires forall j: nat :: Index(nb) < j < NTREEBINS ==> !Marked(w0.treemap, j)
      requires PathCovers(w0.ht, w0.size, nb, rsize, 0, 0)
      ensures Remaining(w0.ht, w0.size, nb, rsize, 0)
    {
      hide Marked;
      forall j: nat | Index(nb) < j < NTREEBINS
        ensures w0.tree.roots[j] == 0
      {
        assert !Marked(w0.treemap, j);
      }
      NoLaterBin(w0.tree, w0.ht, w0.size, nb, rsize);
    }

    lemma BestMeans(w0: View, nb: int, v: int, rsize: int)
      requires BinsOK(w0) && Best(w0.ht, w0.size, nb, v, rsize)
      ensures v == 0 ==> rsize == WORD - nb
      ensures v != 0 ==> v in w0.size && rsize == w0.size[v] - nb
    {
    }

    /** The search of tmalloc_large: the best fit over all tree bins. */
    method FindBestFit(nb: int, head: map<int, int>) returns (v: int, rsize: int)
      requires Valid() && LargeSize(nb) && HeadsAgree(head, Size())
      ensures BestLarge(nb, v)
      ensures v == 0 ==> rsize == WORD - nb
      ensures v != 0 ==> v in Size() && rsize == Size()[v] - nb
    {
      hide Rd, BinsOK, TrieOK, Best, Remaining, Searchable, ChunkSize, PathCovers, Beaten, HeadsAgree, And, IdxBit,
           LeftBits, LeastBit, BestLarge, Sized, Marked;
      IndexBound(nb);
      hide Index;
      ghost var w0 := V();
      TreeView(w0);
      var t;
      t, v, rsize := WalkOwnPath(nb, head);
      if t == 0 && v == 0 {
        var leftbits := And(LeftBits(IdxBit(Index(nb))), w.treemap);
        NextMarked(w.treemap, Index(nb));
        if leftbits != 0 {
          var i := Ctz(LeastBit(leftbits));
          NextTree(w0, nb, rsize, i);
          t := w.tree.roots[i];
        } else {
          NoTree(w0, nb, rsize);
        }
      }
      v, rsize := LeastOfSubtree(t, v, rsize, nb, head);
      BestMeans(w0, nb, v, rsize);
    }

    lemma StillAbove(v: View, nb: int, rsize: int, c: int)
      requires BinsOK(v) && (c != 0 ==> AllAbove(v.ht, v.size, nb, c))
      ensures c != 0 ==> Searchable(v.ht, v.size, nb, rsize, c)
    {
    }

    lemma RootNode(v: View, i: nat)
      requires BinsOK(v) && i < NTREEBINS && |v.tree.roots| == NTREEBINS && v.tree.roots[i] != 0
      ensures var r := v.tree.roots[i];
              r in v.ht && r in v.size && r >= HEAP_LOW && MIN_LARGE_SIZE <= v.size[r] < WORD
    {
      assert RootOK(v.tree, v.ht, v.size, i);
    }

    lemma LowestTree(v: View, i: nat)
      requires BinsOK(v) && i < NTREEBINS && Marked(v.treemap, i) && NoneBelow(v.treemap, i)
      ensures |v.tree.roots| == NTREEBINS && v.tree.roots[i] != 0
      ensures forall j: nat :: j < i ==> v.tree.roots[j] == 0
    {
      hide Marked;
      forall j: nat | j < i
        ensures v.tree.roots[j] == 0
      {
        assert !Marked(v.treemap, j);
      }
    }

    lemma FirstBest(w0: View, nb: int, v: int, rsize: int)
      requires BinsOK(w0) && v in w0.ht && v in w0.size && rsize == w0.size[v] - nb >= 0
      ensures Best(w0.ht, w0.size, nb, v, rsize)
    {
      PathNode(w0, v);
    }

    lemma LowestBeaten(w0: View, nb: int, rsize: int, v: int)
      requires v in w0.size && rsize == w0.size[v] - nb
      ensures Beaten(w0.size, nb, rsize, v)
    {
    }

    lemma SmallestFound(w0: View, nb: int, v: int, rsize: int, i: nat)
      requires BinsOK(w0) && w0 == V() && i < NTREEBINS && |w0.tree.roots| == NTREEBINS && w0.tree.roots[i] != 0
      requires nb < MIN_LARGE_SIZE && Best(w0.ht, w0.size, nb, v, rsize) && BestLarge(nb, v)
      ensures v != 0 && v in w0.size && rsize == w0.size[v] - nb
    {
      RootNode(w0, i);
      NodeHome(w0, w0.tree.roots[i]);
      if v != 0 { PathNode(w0, v); }
    }

    /** The search of tmalloc_small: the smallest large chunk of all. */
    method FindSmallest(nb: int, head: map<int, int>) returns (v: int, rsize: int)
      requires Valid() && HeadsAgree(head, Size()) && 0 < nb < MIN_LARGE_SIZE && w.treemap != 0
      ensures v != 0 && BestLarge(nb, v) && v in Size() && rsize == Size()[v] - nb
    {
      hide Rd, BinsOK, TrieOK, Best, Remaining, AllAbove, ChunkSize, Marked, LeastBit, Ctz;
      ghost var w0 := V();
      TreeView(w0);
      LeastMarked(w.treemap);
      var i := Ctz(LeastBit(w.treemap));
      LowestTree(w0, i);
      v := w.tree.roots[i];
      RootNode(w0, i);
      rsize := ChunkSize(Rd(head, v)) - nb;
      ghost var big := WORD - nb;
      LowestBin(w0.tree, w0.ht, w0.size, nb, rsize, i);
      FirstBest(w0, nb, v, rsize);
      LowestBeaten(w0, nb, rsize, v);
      var c := if Child(w.tree, v, 0) != 0 then Child(w.tree, v, 0) else Child(w.tree, v, 1);
      DescendStep(w0.tree, w0.ht, w0.size, nb, rsize, v, c);
      StillAbove(w0, nb, rsize, c);
      v, rsize := LeastOfSubtree(c, v, rsize, nb, head);
      SmallestFound(w0, nb, v, rsize, i);
    }

    lemma LargeHead(v: View, c: int)
      requires BinsOK(v) && c in v.size && !IsSmall(v.size[c])
      ensures c in v.home && v.home[c] in v.ht && v.home[c] in v.size && SizeOK(v.size[v.home[c]])
    {
      assert MemberOK(v, c);
      NodeHome(v, v.home[c]);
    }

    /** With no tree bin marked, every binned chunk is small. */
    lemma NoTrees()
      requires Valid() && w.treemap == 0
      ensures forall c :: c in Size() ==> IsSmall(Size()[c])
    {
      hide Marked, Index;
      forall c | c in Size() && !IsSmall(Size()[c])
        ensures false
      {
        LargeHead(V(), c);
        RootExists(V().tree, V().ht, V().size, V().home[c]);
        NothingMarked(Index(Size()[V().home[c]]));
      }
    }

    /** insert_chunk */
    method InsertChunk(p: int, s: int, head: map<int, int>)
      requires Valid() && p >= HEAP_LOW && p !in Size() && SizeOK(s) && HeadsAgree(head, Size())
      modifies this
      ensures Valid() && Size() == old(Size())[p := s]
      ensures KeptOutside(old(V()), V(), old(Size()).Keys + {p})
    {
      hide BinsOK, KeptOutside, HeadsAgree, SizeOK;
      if IsSmall(s) {
        InsertSmallChunk(p, s);
      } else {
        InsertLargeChunk(p, s, head);
      }
    }

    /** unlink_chunk */
    method UnlinkChunk(p: int, s: int)
      requires Valid() && p in Size() && Size()[p] == s
      modifies this
      ensures Valid() && Size() == old(Size()) - {p}
      ensures KeptOutside(old(V()), V(), old(Size()).Keys)
    {
      hide BinsOK, KeptOutside;
      if IsSmall(s) {
        UnlinkSmallChunk(p, s);
      } else {
        UnlinkLargeChunk(p);
      }
    }

    /** Whether x is in the ring of h: the do-while loops of bin_find. */
    method InRing(h: int, x: int) returns (found: bool)
      requires Valid() && h in V().rings
      ensures found <==> x in V().rings[h]
    {
      hide TrieOK, MembersOK, MapsOK, HomesOK, Rd;
      ghost var s := V().rings[h];
      assert Ring(w.fd, w.bk, s) && s[0] == h;
      ghost var j: nat := 0;
      var p := h;
      found := p == x;
      while !found
        invariant j < |s| && p == s[j] && (found <==> p == x)
        invariant forall i :: 0 <= i < j ==> s[i] != x
        decreases |s| - j, !found
      {
        assert Rd(w.fd, s[j]) == s[Next(j, |s|)];
        p := Rd(w.fd, p);
        if p == h {
          assert Next(j, |s|) == 0;
          break;
        }
        j := j + 1;
        found := p == x;
      }
    }

    lemma InSmallBin(v: View, x: int, s: int)
      requires BinsOK(v) && x >= HEAP_LOW && SizeOK(s) && IsSmall(s) && (x in v.size ==> v.size[x] == s)
      ensures var b := SmallBinAt(SmallIndex(s));
              && SmallIndex(s) < NSMALLBINS && (Marked(v.smallmap, SmallIndex(s)) <==> b in v.rings)
              && (x in v.size <==> b in v.rings && x in v.rings[b])
    {
      hide Marked, Index, TrieOK;
      var b := SmallBinAt(SmallIndex(s));
      MapFacts(v, SmallIndex(s));
      if x in v.size {
        SmallHome(v, x);
        assert HomesOK(v.rings, v.home);
      }
      if b in v.rings && x in v.rings[b] {
        assert v.rings[b][Pos(v.rings[b], x)] in v.home;
      }
    }

    /** t is the trie node of size s, or 0 if there is none. */
    ghost predicate SizeNode(v: View, s: int, t: int) {
      if t != 0 then t in v.ht && t in v.size && v.size[t] == s
      else forall y :: y in v.ht ==> y in v.size && v.size[y] != s
    }

    lemma InRingOf(v: View, t: int, x: int)
      requires BinsOK(v) && x >= HEAP_LOW && t in v.rings && x in v.rings[t]
      ensures x in v.home && v.home[x] == t && x in v.size
    {
      hide TrieOK, MapsOK, MemberOK, RingHeadOK;
      var j := Pos(v.rings[t], x);
      assert HomesOK(v.rings, v.home);
      assert v.rings[t][j] in v.home;
    }

    /** A large chunk is in the ring of the one trie node of its size. */
    lemma InTreeBin(v: View, x: int, s: int, t: int)
      requires BinsOK(v) && x >= HEAP_LOW && SizeOK(s) && !IsSmall(s) && (x in v.size ==> v.size[x] == s)
      requires SizeNode(v, s, t)
      ensures t != 0 ==> t in v.rings
      ensures x in v.size <==> t != 0 && x in v.rings[t]
    {
      hide Index, MapsOK;
      if x in v.size {
        LargeHead(v, x);
        assert MemberOK(v, x);
        assert v.home[x] in v.ht && v.size[v.home[x]] == s && x in v.rings[v.home[x]];
        assert t != 0 ==> v.home[x] == t;
      }
      if t != 0 && x in v.rings[t] {
        InRingOf(v, t, x);
      }
    }

    lemma NoRootNoNode(v: View, s: int)
      requires BinsOK(v) && LargeSize(s) && Index(s) < NTREEBINS
      requires |v.tree.roots| == NTREEBINS && v.tree.roots[Index(s)] == 0
      ensures SizeNode(v, s, 0)
    {
      forall y | y in v.ht
        ensures y in v.size && v.size[y] != s
      {
        RootExists(v.tree, v.ht, v.size, y);
      }
    }

    /** The walk of bin_find: the trie node of size s, or 0. */
    method NodeOfSize(s: int, head: map<int, int>) returns (t: int)
      requires Valid() && LargeSize(s) && Index(s) < NTREEBINS && HeadsAgree(head, Size())
      requires w.tree.roots[Index(s)] != 0
      ensures SizeNode(V(), s, t)
    {
      hide Rd, BinsOK, TrieOK, Shl, Bit, Shr, Index, ChunkSize, OnPath;
      ghost var v := V();
      TreeView(v);
      t := w.tree.roots[Index(s)];
      var sizebits := Shl(s, LeftShift(Index(s)));
      RootHeight(v, s);
      PathNode(v, t);
      while t != 0 && ChunkSize(Rd(head, t)) != s
        invariant t != 0 ==> t in v.ht && t in v.size && OnPath(v.ht, v.size, t, s)
        invariant t != 0 ==> 5 <= v.ht[t] <= 32 && sizebits == Shl(s, 32 - v.ht[t])
        invariant t == 0 ==> SizeNode(v, s, 0)
        decreases if t == 0 then 0 else v.ht[t]
      {
        PathStep(v.tree, v.ht, v.size, t, s);
        WalkRegister(s, v.ht[t]);
        var c := Child(w.tree, t, sizebits / HALF_WORD);
        sizebits := (2 * sizebits) % WORD;
        if c == 0 {
          PathEnd(v.tree, v.ht, v.size, t, s);
          NodesSized(v);
        } else {
          PathNode(v, c);
        }
        t := c;
      }
    }

    /** bin_find for a chunk x of s bytes. */
    method BinFind(x: int, s: int, head: map<int, int>) returns (found: bool)
      requires Valid() && x >= HEAP_LOW && SizeOK(s) && HeadsAgree(head, Size()) && (x in Size() ==> Size()[x] == s)
      ensures found <==> x in Size()
    {
      hide Marked, Rd, BinsOK, TrieOK, Index;
      ghost var v := V();
      found := false;
      if IsSmall(s) {
        var i := SmallIndex(s);
        InSmallBin(v, x, s);
        if Marked(w.smallmap, i) {
          found := InRing(SmallBinAt(i), x);
        }
      } else {
        IndexBound(s);
        var i := Index(s);
        MapFacts(v, i);
        if Marked(w.treemap, i) {
          var t := NodeOfSize(s, head);
          InTreeBin(v, x, s, t);
          if t != 0 {
            found := InRing(t, x);
          }
        } else {
          NoRootNoNode(v, s);
          InTreeBin(v, x, s, 0);
        }
      }
    }

    /** A program writes its own data over link word k of an address that is not a binned chunk. */
    method StoreLink(k: nat, g: int, x: int)
      requires Valid() && 2 <= k < 8 && g >= HEAP_LOW && g !in Size()
      modifies this
      ensures Valid() && V() == LinkStored(old(V()), k, g, x)
    {
      hide BinsOK;
      LinkStoredOK(V(), k, g, x);
      if k == 2 {
        w := w.(fd := w.fd[g := x]);
      } else if k == 3 {
        w := w.(bk := w.bk[g := x]);
      } else if k == 4 {
        w := w.(tree := w.tree.(child0 := w.tree.child0[g := x]));
      } else if k == 5 {
        w := w.(tree := w.tree.(child1 := w.tree.child1[g := x]));
      } else if k == 6 {
        w := w.(tree := w.tree.(parent := w.tree.parent[g := x]));
      } else {
        w := w.(tree := w.tree.(index := w.tree.index[g := x]));
      }
    }
  }
}
