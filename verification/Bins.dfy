/** What it means for the bins to hold a given set of free chunks: small bins as rings through their
    headers, large chunks as rings hanging off trie nodes, and the two bitmaps. */
module Bins {
  import opened Words
  import opened Bitmaps
  import opened Layout
  import opened TreeIndex
  import opened Rings
  import opened Tries

  /** The bin words of memory and of malloc_state, with the ghost structure they spell out:
      rings and home (see Rings), trie heights, and the size of every binned chunk. */
  datatype View = View(smallmap: bv32, treemap: bv32, fd: map<int, int>, bk: map<int, int>, tree: Tree,
                       rings: map<int, seq<int>>, home: map<int, int>, ht: map<int, nat>, size: map<int, int>)

  ghost predicate SizeOK(s: int) {
    MIN_CHUNK_SIZE <= s < WORD && s % 32 == 0
  }

  ghost predicate SmallMember(v: View, c: int)
    requires c in v.size && SizeOK(v.size[c])
  {
    c in v.home && v.home[c] == SmallBinAt(SmallIndex(v.size[c]))
  }

  ghost predicate LargeMember(v: View, c: int)
    requires c in v.size && SizeOK(v.size[c])
  {
    && c in v.home && v.home[c] in v.ht && v.home[c] in v.size && v.size[v.home[c]] == v.size[c]
    && Index(v.size[c]) < NTREEBINS && Rd(v.tree.index, c) == Index(v.size[c])
    && (c !in v.ht ==> Rd(v.tree.parent, c) == 0 && Child(v.tree, c, 0) == 0 && Child(v.tree, c, 1) == 0)
  }

  ghost predicate MemberOK(v: View, c: int)
    requires c in v.size
  {
    && c >= HEAP_LOW && SizeOK(v.size[c])
    && if IsSmall(v.size[c]) then SmallMember(v, c) else LargeMember(v, c)
  }

  /** A ring hangs off a trie node, or off the header of a non-empty small bin. */
  ghost predicate RingHeadOK(v: View, h: int) {
    h in v.ht || (IsHeader(h) && h in v.rings && |v.rings[h]| >= 2)
  }

  ghost predicate MembersOK(v: View) {
    && (forall c {:trigger MemberOK(v, c)} :: c in v.size ==> MemberOK(v, c))
    && (forall c :: c in v.home ==> if c < HEAP_LOW then v.home[c] == c else c in v.size)
    && (forall h {:trigger RingHeadOK(v, h)} :: h in v.rings ==> RingHeadOK(v, h))
    && (forall h :: h in v.ht ==> h in v.rings)
  }

  ghost predicate MapsOK(v: View)
    requires |v.tree.roots| == NTREEBINS
  {
    && (forall i: nat {:trigger Marked(v.smallmap, i)} :: i < NSMALLBINS ==>
          (Marked(v.smallmap, i) <==> SmallBinAt(i) in v.rings))
    && (forall i: nat {:trigger Marked(v.treemap, i)} :: i < NTREEBINS ==>
          (Marked(v.treemap, i) <==> v.tree.roots[i] != 0))
  }

  ghost predicate BinsOK(v: View) {
    && RingsOK(v.fd, v.bk, v.rings, v.home)
    && TrieOK(v.tree, v.ht, v.size)
    && MembersOK(v)
    && MapsOK(v)
  }

  lemma HeaderFacts(i: nat)
    requires i < NSMALLBINS
    ensures IsHeader(SmallBinAt(i)) && SmallBinAt(i) < HEAP_LOW && SmallBinAt(i) != 0
  {
  }

  lemma HomeOfHeader(v: View, i: nat)
    requires BinsOK(v) && i < NSMALLBINS
    ensures SmallBinAt(i) in v.rings <==> SmallBinAt(i) in v.home
    ensures SmallBinAt(i) in v.rings ==>
              v.home[SmallBinAt(i)] == SmallBinAt(i) && |v.rings[SmallBinAt(i)]| >= 2
                && v.rings[SmallBinAt(i)][0] == SmallBinAt(i)
  {
    HeaderFacts(i);
    var b := SmallBinAt(i);
    if b in v.rings {
      HeadHome(v.fd, v.bk, v.rings, v.home, b);
      assert RingHeadOK(v, b);
    }
  }

  lemma NotHome(v: View, p: int)
    requires BinsOK(v) && p >= HEAP_LOW && p !in v.size
    ensures p !in v.home && p !in v.ht && p !in v.rings
  {
    if p in v.rings { HeadHome(v.fd, v.bk, v.rings, v.home, p); }
  }

  /** insert_small_chunk into an empty bin. */
  ghost function FirstSmall(v: View, p: int, s: int): View
    requires 0 <= s && SmallIndex(s) < NSMALLBINS
  {
    var b := SmallBinAt(SmallIndex(s));
    View(Mark(v.smallmap, SmallIndex(s)), v.treemap, v.fd[b := p][p := b], v.bk[b := p][p := b], v.tree,
         v.rings[b := [b, p]], v.home[b := b][p := b], v.ht, v.size[p := s])
  }

  /** insert_small_chunk into a non-empty bin: the chunk becomes the bin's first. */
  ghost function NextSmall(v: View, p: int, s: int): View
    requires 0 <= s && SmallBinAt(SmallIndex(s)) in v.rings && |v.rings[SmallBinAt(SmallIndex(s))]| > 0
  {
    var b := SmallBinAt(SmallIndex(s));
    var f := Rd(v.fd, b);
    View(v.smallmap, v.treemap, v.fd[b := p][p := f], v.bk[f := p][p := b], v.tree,
         v.rings[b := [b, p] + v.rings[b][1..]], v.home[p := b], v.ht, v.size[p := s])
  }

  lemma FirstSmallRing(fd: map<int, int>, bk: map<int, int>, rings: map<int, seq<int>>, home: map<int, int>, b: int,
                       p: int)
    requires RingsOK(fd, bk, rings, home) && b != p && b !in home && p !in home
    ensures RingsOK(fd[b := p][p := b], bk[b := p][p := b], rings[b := [b, p]], home[b := b][p := b])
  {
    var s := [b, p];
    assert Ring(fd[b := p][p := b], bk[b := p][p := b], s);
    AddRing(fd, bk, fd[b := p][p := b], bk[b := p][p := b], rings, home, s);
    assert HomeIn(home, s, b) == home[b := b][p := b];
  }

  lemma SmallMembers(v: View, v': View, p: int, s: int)
    requires MembersOK(v) && p >= HEAP_LOW && p !in v.size && p !in v.rings && SizeOK(s) && IsSmall(s)
    requires v'.ht == v.ht && v'.tree == v.tree && v'.size == v.size[p := s] && p !in v.ht
    requires var b := SmallBinAt(SmallIndex(s));
             && v'.home == v.home[b := b][p := b] && v'.rings.Keys == v.rings.Keys + {b} && |v'.rings[b]| >= 2
             && (forall h :: h in v.rings && h != b ==> v'.rings[h] == v.rings[h])
    ensures MembersOK(v')
  {
    hide Index, Rd;
    HeaderFacts(SmallIndex(s));
    forall c | c in v'.size
      ensures MemberOK(v', c)
    {
      if c != p { assert MemberOK(v, c); }
    }
    forall h | h in v'.rings
      ensures RingHeadOK(v', h)
    {
      if h in v.rings { assert RingHeadOK(v, h); }
    }
  }

  lemma MarkMaps(v: View, v': View, i: nat)
    requires |v.tree.roots| == NTREEBINS && MapsOK(v) && i < NSMALLBINS
    requires v'.smallmap == Mark(v.smallmap, i) && v'.treemap == v.treemap && v'.tree == v.tree
    requires v'.rings.Keys == v.rings.Keys + {SmallBinAt(i)}
    ensures MapsOK(v')
  {
    hide Marked, Mark;
    forall j: nat | j < NSMALLBINS
      ensures Marked(v'.smallmap, j) <==> SmallBinAt(j) in v'.rings
    {
      MarkClear(v.smallmap, i, j);
    }
  }

  lemma FirstSmallOK(v: View, p: int, s: int)
    requires BinsOK(v) && p >= HEAP_LOW && p !in v.size && SizeOK(s) && IsSmall(s)
    requires SmallBinAt(SmallIndex(s)) !in v.rings
    ensures BinsOK(FirstSmall(v, p, s))
  {
    var i := SmallIndex(s);
    var b := SmallBinAt(i);
    var v' := FirstSmall(v, p, s);
    HeaderFacts(i);
    HomeOfHeader(v, i);
    NotHome(v, p);
    FirstSmallRing(v.fd, v.bk, v.rings, v.home, b, p);
    TrieFrame(v.tree, v.tree, v.ht, v.size, v'.size);
    SmallMembers(v, v', p, s);
    MarkMaps(v, v', i);
  }

  lemma SameMaps(v: View, v': View)
    requires |v.tree.roots| == NTREEBINS && MapsOK(v) && v'.tree.roots == v.tree.roots
    requires v'.smallmap == v.smallmap && v'.treemap == v.treemap
    requires forall i: nat :: i < NSMALLBINS ==> (SmallBinAt(i) in v'.rings <==> SmallBinAt(i) in v.rings)
    ensures MapsOK(v')
  {
    hide Marked;
  }

  lemma NextSmallOK(v: View, p: int, s: int)
    requires BinsOK(v) && p >= HEAP_LOW && p !in v.size && SizeOK(s) && IsSmall(s)
    requires SmallBinAt(SmallIndex(s)) in v.rings
    ensures |v.rings[SmallBinAt(SmallIndex(s))]| > 0 && BinsOK(NextSmall(v, p, s))
  {
    var i := SmallIndex(s);
    HomeOfHeader(v, i);
    NotHome(v, p);
    InsertAfterHead(v.fd, v.bk, v.rings, v.home, SmallBinAt(i), p);
    var v' := NextSmall(v, p, s);
    TrieFrame(v.tree, v.tree, v.ht, v.size, v'.size);
    SmallMembers(v, v', p, s);
    SameMaps(v, v');
  }

  /** Unlinking the last chunk of a small bin: only the map changes. */
  ghost function LastSmallOut(v: View, p: int): View
    requires p in v.size && 0 <= v.size[p] && IsSmall(v.size[p])
  {
    var i := SmallIndex(v.size[p]);
    v.(smallmap := Clear(v.smallmap, i), rings := v.rings - {SmallBinAt(i)},
       home := v.home - {SmallBinAt(i), p}, size := v.size - {p})
  }

  /** Unlinking one of several chunks of a ring that keeps its head. */
  ghost function MemberOut(v: View, p: int): View
    requires p in v.home && v.home[p] in v.rings && p in v.rings[v.home[p]]
  {
    var f, r, h := Rd(v.fd, p), Rd(v.bk, p), v.home[p];
    v.(fd := v.fd[r := f], bk := v.bk[f := r], rings := v.rings[h := Without(v.rings[h], p)],
       home := v.home - {p}, size := v.size - {p})
  }

  lemma SmallHome(v: View, p: int)
    requires BinsOK(v) && p in v.size && IsSmall(v.size[p])
    ensures SizeOK(v.size[p]) && p >= HEAP_LOW && SmallIndex(v.size[p]) < NSMALLBINS
    ensures p in v.home && v.home[p] == SmallBinAt(SmallIndex(v.size[p])) && v.home[p] != p && p !in v.rings
    ensures SmallBinAt(SmallIndex(v.size[p])) in v.rings
  {
    assert MemberOK(v, p);
    HeaderFacts(SmallIndex(v.size[p]));
    if p in v.rings { HeadHome(v.fd, v.bk, v.rings, v.home, p); }
  }

  lemma NotInTrie(v: View, p: int)
    requires BinsOK(v) && p in v.size && p !in v.rings
    ensures p !in v.ht
  {
  }

  lemma LastSmallMembers(v: View, v': View, p: int, b: int)
    requires MembersOK(v) && p in v.size && p !in v.ht && b < HEAP_LOW <= p && p !in v.rings
    requires v'.ht == v.ht && v'.tree == v.tree && v'.size == v.size - {p}
    requires v'.home == v.home - {b, p} && v'.rings == v.rings - {b} && b !in v.ht
    requires forall c :: c in v.home && v.home[c] == b ==> c == b || c == p
    ensures MembersOK(v')
  {
    hide Index, Rd;
    forall c | c in v'.size
      ensures MemberOK(v', c)
    {
      assert MemberOK(v, c);
    }
    forall h | h in v'.rings
      ensures RingHeadOK(v', h)
    {
      assert RingHeadOK(v, h);
    }
  }

  lemma ClearMaps(v: View, v': View, i: nat)
    requires |v.tree.roots| == NTREEBINS && MapsOK(v) && i < NSMALLBINS
    requires v'.smallmap == Clear(v.smallmap, i) && v'.treemap == v.treemap && v'.tree == v.tree
    requires v'.rings.Keys == v.rings.Keys - {SmallBinAt(i)}
    ensures MapsOK(v')
  {
    hide Marked, Clear;
    forall j: nat | j < NSMALLBINS
      ensures Marked(v'.smallmap, j) <==> SmallBinAt(j) in v'.rings
    {
      MarkClear(v.smallmap, i, j);
    }
  }

  lemma LastSmallOutOK(v: View, p: int)
    requires BinsOK(v) && p in v.size && IsSmall(v.size[p]) && Rd(v.fd, p) == Rd(v.bk, p)
    ensures 0 <= v.size[p] && BinsOK(LastSmallOut(v, p))
  {
    SmallHome(v, p);
    var i := SmallIndex(v.size[p]);
    var b := SmallBinAt(i);
    OnlyOther(v.fd, v.bk, v.rings, v.home, p);
    DropRing(v.fd, v.bk, v.rings, v.home, b);
    assert (set c | c in v.rings[b]) == {b, p};
    var v' := LastSmallOut(v, p);
    NotInTrie(v, p);
    TrieFrame(v.tree, v.tree, v.ht, v.size, v'.size);
    LastSmallMembers(v, v', p, b);
    ClearMaps(v, v', i);
  }

  lemma MemberOutMembers(v: View, v': View, p: int)
    requires MembersOK(v) && p in v.size && p !in v.ht && p !in v.rings
    requires v'.ht == v.ht && v'.tree == v.tree && v'.size == v.size - {p} && v'.home == v.home - {p}
    requires p in v.home && v'.rings.Keys == v.rings.Keys
    requires forall h :: h in v.rings && h != v.home[p] ==> v'.rings[h] == v.rings[h]
    requires v.home[p] in v.rings && (v.home[p] !in v.ht ==> |v'.rings[v.home[p]]| >= 2)
    ensures MembersOK(v')
  {
    hide Index, Rd;
    forall c | c in v'.size
      ensures MemberOK(v', c)
    {
      assert MemberOK(v, c);
    }
    forall h | h in v'.rings
      ensures RingHeadOK(v', h)
    {
      assert RingHeadOK(v, h);
    }
  }

  /** A chunk that is in another one's ring heads none itself. */
  lemma NoHead(v: View, p: int)
    requires BinsOK(v) && p in v.home && v.home[p] != p
    ensures p !in v.rings && p !in v.ht
  {
    hide TrieOK, MapsOK, MemberOK, RingHeadOK;
    if p in v.rings { HeadHome(v.fd, v.bk, v.rings, v.home, p); }
  }

  /** The ring of a small bin keeps a chunk besides its header. */
  lemma TwoStay(v: View, p: int)
    requires BinsOK(v) && p in v.size && p in v.home && v.home[p] != p
    requires IsSmall(v.size[p]) ==> Rd(v.fd, p) != Rd(v.bk, p)
    ensures v.home[p] in v.rings && p in v.rings[v.home[p]]
    ensures v.home[p] !in v.ht ==> |Without(v.rings[v.home[p]], p)| >= 2
  {
    hide TrieOK, MapsOK, Index;
    OnlyOther(v.fd, v.bk, v.rings, v.home, p);
    assert MemberOK(v, p);
  }

  /** Unlinking a chunk that heads no ring from a ring that does not become a bare header. */
  lemma MemberOutOK(v: View, p: int)
    requires BinsOK(v) && p in v.size && p in v.home && v.home[p] != p
    requires IsSmall(v.size[p]) ==> Rd(v.fd, p) != Rd(v.bk, p)
    ensures v.home[p] in v.rings && p in v.rings[v.home[p]]
    ensures BinsOK(MemberOut(v, p))
  {
    hide NodeOK, RootOK, OnePerCell, OnePerSize, MemberOK, RingHeadOK, Ring, HomesOK, Without, IsSmall, Marked;
    RemoveMember(v.fd, v.bk, v.rings, v.home, p);
    NoHead(v, p);
    TwoStay(v, p);
    var v' := MemberOut(v, p);
    TrieFrame(v.tree, v.tree, v.ht, v.size, v'.size);
    MemberOutMembers(v, v', p);
    SameMaps(v, v');
  }
}
