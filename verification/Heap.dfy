/** The allocator's invariant over one segment, and what each kind of rewriting of its chunks keeps. */
module Heap {
  import opened Words
  import opened Layout
  import opened Bins
  import opened BinOps
  import opened Tiling

  /** All memory words. Every chunk address is 24 modulo 32, so the eight words of the 32-byte granule at a
      chunk address are its foot, head and link words; other granules hold user data in the same maps. */
  datatype Memory = Memory(head: map<int, int>, foot: map<int, int>, v: View)

  /** The word at byte address a. */
  function Word(m: Memory, a: int): int {
    var k := (a - 24) % 32 / 4;
    var g := a - (a - 24) % 32;
    if k == 0 then Rd(m.foot, g)
    else if k == 1 then Rd(m.head, g)
    else if k == 2 then Rd(m.v.fd, g)
    else if k == 3 then Rd(m.v.bk, g)
    else if k == 4 then Rd(m.v.tree.child0, g)
    else if k == 5 then Rd(m.v.tree.child1, g)
    else if k == 6 then Rd(m.v.tree.parent, g)
    else Rd(m.v.tree.index, g)
  }

  ghost predicate LinksKept(v: View, v': View, g: int) {
    && Rd(v.fd, g) == Rd(v'.fd, g) && Rd(v.bk, g) == Rd(v'.bk, g)
    && Rd(v.tree.child0, g) == Rd(v'.tree.child0, g) && Rd(v.tree.child1, g) == Rd(v'.tree.child1, g)
    && Rd(v.tree.parent, g) == Rd(v'.tree.parent, g) && Rd(v.tree.index, g) == Rd(v'.tree.index, g)
  }

  ghost predicate TagsKept(m: Memory, m': Memory, g: int) {
    Rd(m.head, g) == Rd(m'.head, g) && Rd(m.foot, g) == Rd(m'.foot, g)
  }

  /** The granules of a chunk at p keep everything but the chunk's own two tag words. */
  ghost predicate GranulesKept(m: Memory, m': Memory, p: int, n: int) {
    && (forall g {:trigger LinksKept(m.v, m'.v, g)} :: p <= g < p + n ==> LinksKept(m.v, m'.v, g))
    && (forall g {:trigger TagsKept(m, m', g)} :: p < g < p + n ==> TagsKept(m, m', g))
  }

  ghost predicate KeptFor(m: Memory, m': Memory, live: map<int, int>) {
    forall p {:trigger GranulesKept(m, m', p, live[p])} :: p in live ==> GranulesKept(m, m', p, live[p])
  }

  lemma GranuleOf(a: int, p: int)
    requires Aligned(p) && p <= a
    ensures var g := a - (a - 24) % 32;
            p <= g <= a < g + 32 && (g == p ==> (a - 24) % 32 == a - p)
  {
    var r := (a - 24) % 32;
    var i, j := (a - 24) / 32, (p - 24) / 32;
    assert a - 24 == 32 * i + r;
    assert p - 24 == 32 * j;
  }

  /** Granule by granule means word by word: the usable bytes [p + 8, p + n) of the chunk are unchanged. */
  lemma PayloadKept(m: Memory, m': Memory, p: int, n: int, a: int)
    requires GranulesKept(m, m', p, n) && Aligned(p) && p + 2 * 4 <= a < p + n
    ensures Word(m, a) == Word(m', a)
  {
    var g := a - (a - 24) % 32;
    var k := (a - 24) % 32 / 4;
    GranuleOf(a, p);
    assert LinksKept(m.v, m'.v, g);
    if g > p {
      assert TagsKept(m, m', g);
    }
  }

  lemma KeptTrans(m: Memory, m1: Memory, m2: Memory, live: map<int, int>)
    requires KeptFor(m, m1, live) && KeptFor(m1, m2, live)
    ensures KeptFor(m, m2, live)
  {
    forall p | p in live
      ensures GranulesKept(m, m2, p, live[p])
    {
      assert GranulesKept(m, m1, p, live[p]) && GranulesKept(m1, m2, p, live[p]);
      forall g | p <= g < p + live[p]
        ensures LinksKept(m.v, m2.v, g)
      {
        assert LinksKept(m.v, m1.v, g) && LinksKept(m1.v, m2.v, g);
      }
      forall g | p < g < p + live[p]
        ensures TagsKept(m, m2, g)
      {
        assert TagsKept(m, m1, g) && TagsKept(m1, m2, g);
      }
    }
  }

  lemma KeptFewer(m: Memory, m': Memory, live: map<int, int>, fewer: map<int, int>)
    requires KeptFor(m, m', live)
    requires forall p :: p in fewer ==> p in live && live[p] == fewer[p]
    ensures KeptFor(m, m', fewer)
  {
    forall p | p in fewer
      ensures GranulesKept(m, m', p, fewer[p])
    {
      assert GranulesKept(m, m', p, live[p]);
    }
  }

  /** Tag writes confined to [a, e] do not touch live chunks outside [a, e). */
  lemma TagWritesKeep(m: Memory, m': Memory, chunks: map<int, Chunk>, base: int, top: int, a: int, e: int,
                      keys: set<int>, live: map<int, int>)
    requires Tiled(chunks, base, top) && Boundary(chunks, top, a) && Boundary(chunks, top, e)
    requires m'.v == m.v && SameBut(m.head, m'.head, keys) && SameBut(m.foot, m'.foot, keys)
    requires forall k :: k in keys ==> a <= k <= e
    requires forall p :: p in live ==> p in chunks && chunks[p].size == live[p] && !(a <= p < e)
    ensures KeptFor(m, m', live)
  {
    hide Rd, Tiled;
    forall p | p in live
      ensures GranulesKept(m, m', p, live[p])
    {
      NothingInside(chunks, base, top, p, a);
      NothingInside(chunks, base, top, p, e);
      forall g | p < g < p + live[p]
        ensures TagsKept(m, m', g)
      {
        assert g !in keys;
      }
    }
  }

  /** Bin operations touch only the granules of free chunks. */
  lemma BinWritesKeep(m: Memory, m': Memory, chunks: map<int, Chunk>, base: int, top: int, keys: set<int>,
                      live: map<int, int>)
    requires Tiled(chunks, base, top) && m'.head == m.head && m'.foot == m.foot && KeptOutside(m.v, m'.v, keys)
    requires forall k :: k in keys ==> k in chunks && !chunks[k].inuse
    requires forall p :: p in live ==> p in chunks && chunks[p].size == live[p] && chunks[p].inuse
    ensures KeptFor(m, m', live)
  {
    hide Rd;
    forall p | p in live
      ensures GranulesKept(m, m', p, live[p])
    {
      forall g | p <= g < p + live[p]
        ensures LinksKept(m.v, m'.v, g)
      {
        assert ChunkOK(chunks, base, top, p);
        if g in keys { NothingInside(chunks, base, top, p, g); }
      }
    }
  }

  // ---- the invariant ----

  datatype State = State(base: int, end: int, cookie: int, head: map<int, int>, foot: map<int, int>,
                         dv: int, dvsize: int, top: int, topsize: int,
                         chunks: map<int, Chunk>, size: map<int, int>)

  ghost predicate IsFree(chunks: map<int, Chunk>, c: int) {
    c in chunks && !chunks[c].inuse
  }

  /** The bins hold exactly the free chunks other than the designated victim and those in `limbo`. */
  ghost predicate Binned(chunks: map<int, Chunk>, size: map<int, int>, dv: int, limbo: set<int>) {
    forall c :: c in size <==> IsFree(chunks, c) && c != dv && c !in limbo
  }

  ghost predicate SizesAgree(chunks: map<int, Chunk>, size: map<int, int>) {
    forall c :: c in size ==> c in chunks && size[c] == chunks[c].size
  }

  ghost predicate DvOK(chunks: map<int, Chunk>, dv: int, dvsize: int) {
    && (dvsize == 0 <==> dv == 0)
    && (dvsize != 0 ==> IsFree(chunks, dv) && chunks[dv].size == dvsize)
  }

  ghost predicate TopOK(s: State) {
    && 0 < s.topsize && s.topsize % 32 == 16 && s.top + s.topsize + TOP_FOOT_SIZE == s.end <= WORD
    && Rd(s.head, s.top) == s.topsize + 1
  }

  /** What the debug checkers of the allocator verify, for a heap in which the chunks of `limbo` are
      free but (temporarily) in no bin. */
  ghost predicate Sane(s: State, limbo: set<int>) {
    && Tiled(s.chunks, s.base, s.top)
    && Tagged(s.head, s.foot, s.chunks, s.cookie)
    && TopOK(s)
    && Binned(s.chunks, s.size, s.dv, limbo) && SizesAgree(s.chunks, s.size)
    && DvOK(s.chunks, s.dv, s.dvsize)
    && s.dv !in limbo && forall c :: c in limbo ==> IsFree(s.chunks, c)
  }
}
