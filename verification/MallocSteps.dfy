/** What each part of the allocator does to the chunks, as lemmas about values: the choice of a chunk, splitting,
    merging, extending and moving. */
module MallocSteps {
  import opened Words
  import opened Layout
  import opened TreeIndex
  import opened Tries
  import opened Bins
  import opened BinOps
  import opened Tiling
  import opened Heap
  import opened HeapSteps
  import opened Payload
  import opened Alignment

  lemma FirstTop(tbase: int, tsize: int, offset: int)
    requires HEAP_LOW <= tbase && tsize >= 4096 && (tbase + tsize) % 4096 == 0
    requires offset == (32 - (tbase + 8) % 32) % 32
    ensures Aligned(tbase + offset) && 0 <= offset < 32 && (tsize - TOP_FOOT_SIZE - offset) % 32 == 16
  {
    var k, r := (tbase + 8) / 32, (tbase + 8) % 32;
    var e := (tbase + tsize) / 4096;
    assert tbase + 8 == 32 * k + r;
    if r == 0 {
      Mod32(k - 1, 24);
      assert tsize - TOP_FOOT_SIZE - offset == 32 * (128 * e - k - 3) + 16;
      Mod32(128 * e - k - 3, 16);
    } else {
      Mod32(k, 24);
      assert tsize - TOP_FOOT_SIZE - offset == 32 * (128 * e - k - 4) + 16;
      Mod32(128 * e - k - 4, 16);
    }
  }

  lemma NotInLive(s: State, limbo: set<int>, p: int)
    requires Sane(s, limbo) && IsFree(s.chunks, p)
    ensures forall q :: q in Live(s.chunks) ==>
            q in s.chunks && s.chunks[q].size == Live(s.chunks)[q] && !(p <= q < p + s.chunks[p].size)
  {
  }

  /** Tag writes on a free chunk leave every live chunk's payload alone. */
  lemma FreeTagsKept(s: State, limbo: set<int>, m: Memory, p: int, h: map<int, int>, f: map<int, int>, keys: set<int>)
    requires Sane(s, limbo) && IsFree(s.chunks, p) && m.head == s.head && m.foot == s.foot
    requires SameBut(s.head, h, keys) && SameBut(s.foot, f, keys)
    requires forall k :: k in keys ==> p <= k <= p + s.chunks[p].size
    ensures KeptFor(m, Memory(h, f, m.v), Live(s.chunks))
  {
    hide KeptFor, Tagged, Binned, SizesAgree, DvOK, Rd;
    FreeChunk(s, limbo, p);
    NotInLive(s, limbo, p);
    TagWritesKeep(m, Memory(h, f, m.v), s.chunks, s.base, s.top, p, p + s.chunks[p].size, keys, Live(s.chunks));
  }

  lemma MarkWholeKeys(s: State, p: int, n: int)
    ensures SameBut(s.head, MarkedWhole(s, p, n).head, {p, p + n})
    ensures SameBut(s.foot, MarkedWhole(s, p, n).foot, {p, p + n})
  {
    hide SetPinuse;
  }

  lemma MarkKept(s: State, m: Memory, p: int, n: int)
    requires Sane(s, {p}) && p in s.chunks && n == s.chunks[p].size && m.head == s.head && m.foot == s.foot
    ensures KeptFor(m, Memory(MarkedWhole(s, p, n).head, MarkedWhole(s, p, n).foot, m.v), Live(s.chunks))
  {
    hide KeptFor, Tiled, Tagged, Binned, SizesAgree, DvOK, Rd, SameBut, MarkedWhole, Live, Sound, SizeOK;
    FreeChunk(s, {p}, p);
    MarkWholeKeys(s, p, n);
    FreeTagsKept(s, {p}, m, p, MarkedWhole(s, p, n).head, MarkedWhole(s, p, n).foot, {p, p + n});
  }

  lemma ReadSize(s: State, limbo: set<int>, p: int)
    requires Sane(s, limbo) && p in s.chunks
    ensures ChunkSize(Rd(s.head, p)) == s.chunks[p].size && s.chunks[p].size > 0
  {
    hide Apart, Rd, ChunkSize, Pack;
    assert ChunkOK(s.chunks, s.base, s.top, p);
    assert TagOK(s.head, s.foot, s.chunks, s.cookie, p);
    Unpack(s.chunks[p]);
  }

  lemma SplitWords(s: State, p: int, nb: int, rsize: int, h: map<int, int>, f: map<int, int>)
    requires nb > 0 && rsize > 0
    requires h == s.head[p := nb + 3][p + nb := rsize + 1] && f == s.foot[p + nb := s.cookie][p + nb + rsize := rsize]
    ensures SameBut(s.head, h, {p, p + nb}) && SameBut(s.foot, f, {p + nb, p + nb + rsize})
    ensures Rd(h, p) == nb + 3 && Rd(h, p + nb) == rsize + 1
    ensures Rd(f, p + nb) == s.cookie && Rd(f, p + nb + rsize) == rsize
  {
  }

  lemma SplitKept(s: State, m: Memory, p: int, nb: int, h: map<int, int>, f: map<int, int>)
    requires Sane(s, {p}) && p in s.chunks && 0 < nb < s.chunks[p].size && m.head == s.head && m.foot == s.foot
    requires SameBut(s.head, h, {p, p + nb}) && SameBut(s.foot, f, {p + nb, p + s.chunks[p].size})
    ensures KeptFor(m, Memory(h, f, m.v), Live(s.chunks))
  {
    hide KeptFor, Tagged, Binned, SizesAgree, DvOK, Rd;
    FreeTagsKept(s, {p}, m, p, h, f, {p, p + nb, p + s.chunks[p].size});
  }

  lemma BinKept(s: State, limbo: set<int>, m: Memory, v': View, keys: set<int>)
    requires Sane(s, limbo) && KeptOutside(m.v, v', keys)
    requires forall k :: k in keys ==> k in s.size || k in limbo || (k == s.dv && s.dv != 0)
    ensures KeptFor(m, Memory(m.head, m.foot, v'), Live(s.chunks))
  {
    hide KeptFor, KeptOutside, Tiled, Tagged, Rd;
    BinWritesKeep(m, Memory(m.head, m.foot, v'), s.chunks, s.base, s.top, keys, Live(s.chunks));
  }

  lemma ToBeBinned(s: State, limbo: set<int>, r: int)
    requires Sane(s, limbo) && r in limbo
    ensures r in s.chunks && r >= HEAP_LOW && r !in s.size && SizeOK(s.chunks[r].size)
  {
    hide Apart, Tagged, SizeOK, Rd;
    FreeChunk(s, limbo, r);
  }

  lemma KeptSame(m: Memory, live: map<int, int>)
    ensures KeptFor(m, m, live)
  {
  }

  lemma DvFacts(s: State, limbo: set<int>)
    requires Sane(s, limbo)
    ensures s.dvsize == 0 <==> s.dv == 0
    ensures s.dv !in limbo
    ensures s.dvsize != 0 ==>
            s.dv in s.chunks && !s.chunks[s.dv].inuse && s.chunks[s.dv].size == s.dvsize && s.dv !in s.size
  {
    hide Tiled, Tagged, Rd;
  }

  /** Exactly one block, at p and of n bytes, was added to the live blocks. */
  ghost predicate Added(before: map<int, Chunk>, after: map<int, Chunk>, p: int, n: int) {
    p !in Live(before) && Live(after) == Live(before)[p := n]
  }

  lemma AddedOne(s: State, p: int)
    requires Sane(s, {p}) && p in s.chunks
    ensures Added(s.chunks, One(s.chunks, p, p + s.chunks[p].size, true), p, s.chunks[p].size)
  {
    hide Sane;
    FreeInside(s, {p}, p);
  }

  lemma AddedTwo(s: State, p: int, nb: int)
    requires Sane(s, {p}) && p in s.chunks && 0 < nb < s.chunks[p].size
    ensures Added(s.chunks, Two(s.chunks, p, p + nb, p + s.chunks[p].size, true, false), p, nb)
  {
    hide Sane;
    FreeInside(s, {p}, p);
  }

  lemma AddedTop(s: State, nb: int)
    requires Sane(s, {}) && nb > 0
    ensures Added(s.chunks, EndAt(s.chunks, s.top, s.top + nb), s.top, nb)
  {
    hide Tagged, Binned, SizesAgree, DvOK, Rd, Apart;
    forall c | c in s.chunks
      ensures c < s.top
    {
      assert ChunkOK(s.chunks, s.base, s.top, c);
    }
  }

  lemma LiveGrows(before: map<int, Chunk>, after: map<int, Chunk>, p: int, n: int)
    requires Added(before, after, p, n)
    ensures forall q :: q in Live(before) ==> q in Live(after) && Live(after)[q] == Live(before)[q]
  {
    hide Live;
  }

  /** Chunk sizes are multiples of 32, so a rest smaller than a chunk is empty. */
  lemma Multiples(s: State, limbo: set<int>, p: int, nb: int)
    requires Sane(s, limbo) && p in s.chunks && Sound(nb) && nb <= s.chunks[p].size
    ensures nb > 0 && (s.chunks[p].size - nb < MIN_CHUNK_SIZE ==> s.chunks[p].size == nb)
  {
    hide Tagged, Binned, SizesAgree, DvOK, Rd, Apart;
    assert ChunkOK(s.chunks, s.base, s.top, p);
    Mod32(s.chunks[p].size / 32 - nb / 32, 0);
  }

  lemma RestOfSplit(s: State, p: int, nb: int)
    requires p in s.chunks && 0 < nb < s.chunks[p].size
    ensures var t := Two(s.chunks, p, p + nb, p + s.chunks[p].size, true, false);
            p + nb in t && t[p + nb].size == s.chunks[p].size - nb
  {
  }

  ghost predicate LargeRequest(nb: int) {
    Sound(nb) && SizeOK(nb) && !IsSmall(nb)
  }

  lemma LargeIs(nb: int)
    requires LargeRequest(nb)
    ensures LargeSize(nb) && 0 < nb < WORD
  {
  }

  lemma SizeBelow(n: int)
    requires SizeOK(n)
    ensures 0 < n < WORD
  {
  }

  lemma WrapDv(nb: int, dvs: int)
    requires 0 < nb < WORD && 0 <= dvs < WORD
    ensures Wrap(dvs - nb) == if dvs < nb then WORD - (nb - dvs) else dvs - nb
  {
  }

  ghost predicate DvTightest(s: State, nb: int) {
    nb <= s.dvsize && forall c :: c in s.size && s.size[c] >= nb ==> s.dvsize <= s.size[c]
  }

  /** p is a smallest binned chunk of at least nb bytes. */
  ghost predicate BestBinned(s: State, nb: int, p: int) {
    p in s.size && s.size[p] >= nb && forall c :: c in s.size && s.size[c] >= nb ==> s.size[p] <= s.size[c]
  }

  lemma DvRange(s: State)
    requires Sane(s, {})
    ensures 0 <= s.dvsize < WORD && s.top < WORD && 0 < s.topsize < WORD
  {
    hide Tagged, Rd, Apart, Binned, SizesAgree;
    if s.dvsize != 0 { FreeChunk(s, {}, s.dv); }
  }

  /** The comparison of wrapped excesses decides between the best binned chunk and the designated victim. */
  lemma VersusDv(s: State, nb: int, v: int)
    requires Sane(s, {}) && LargeRequest(nb) && (v != 0 ==> BestBinned(s, nb, v))
    ensures v != 0 ==> (s.size[v] - nb < Wrap(s.dvsize - nb) <==> s.dvsize < nb || s.size[v] < s.dvsize)
    ensures v != 0 && !(s.size[v] - nb < Wrap(s.dvsize - nb)) ==> DvTightest(s, nb)
  {
    hide Tagged, Rd, Apart, Wrap, Sane, SizeOK;
    if v != 0 {
      DvRange(s);
      LargeIs(nb);
      WrapDv(nb, s.dvsize);
      HeadsOK(s, {}, v);
      SizeBelow(s.size[v]);
    }
  }

  ghost predicate BinsTooSmall(s: State, nb: int) {
    forall c :: c in s.size ==> s.size[c] < nb
  }

  lemma BinnedChunk(s: State, c: int)
    requires Sane(s, {}) && c in s.size
    ensures c in s.chunks && s.chunks[c].size == s.size[c] && c >= HEAP_LOW
  {
    hide Tagged, Rd, Apart;
    assert ChunkOK(s.chunks, s.base, s.top, c);
  }

  ghost predicate NoSmallFit(s: State, nb: int) {
    forall c :: c in s.size && IsSmall(s.size[c]) ==> s.size[c] < nb
  }

  lemma SmallIs(nb: int)
    requires Sound(nb) && IsSmall(nb)
    ensures 0 < nb < MIN_LARGE_SIZE
  {
  }

  lemma NotNull(s: State, p: int)
    requires Sane(s, {}) && p in s.chunks
    ensures p >= HEAP_LOW
  {
    NoNull(s, {});
  }

  lemma TopFacts(s: State)
    requires Sane(s, {})
    ensures Aligned(s.top) && s.top >= HEAP_LOW && s.top !in s.chunks && Boundary(s.chunks, s.top, s.top)
    ensures forall c :: c in s.chunks ==> c < s.top
    ensures s.dvsize == 0 ==> s.dv < s.top
    ensures s.dv < s.top
  {
    hide Tagged, Binned, SizesAgree, Apart;
    forall c | c in s.chunks
      ensures c < s.top
    {
      assert ChunkOK(s.chunks, s.base, s.top, c);
    }
  }

  lemma TakeTopOK(s: State, nb: int, h: map<int, int>, f: map<int, int>)
    requires Sane(s, {}) && Sound(nb) && nb < s.topsize
    requires h == s.head[s.top + nb := s.topsize - nb + 1][s.top := nb + 3] && f == s.foot[s.top + nb := s.cookie]
    ensures Sane(s.(head := h, foot := f, chunks := EndAt(s.chunks, s.top, s.top + nb), top := s.top + nb,
            topsize := s.topsize - nb), {})
    ensures s.top >= HEAP_LOW
  {
    hide Tagged, Binned, SizesAgree, Apart;
    TopFacts(s);
    AlignedAfter(s.top, nb);
    PackIs(nb, true, true);
    EndOK(s, {}, s.top, s.top + nb, h, f, s.dv, s.dvsize, s.topsize - nb);
  }

  /** Tag writes from a on leave live chunks below a alone. */
  lemma TopKept(s: State, limbo: set<int>, m: Memory, h: map<int, int>, f: map<int, int>, a: int, n: int,
                live: map<int, int>)
    requires Sane(s, limbo) && m.head == s.head && m.foot == s.foot && Boundary(s.chunks, s.top, a) && a <= n
    requires SameBut(s.head, h, {a, n}) && SameBut(s.foot, f, {n})
    requires forall p :: p in live ==> p in s.chunks && s.chunks[p].size == live[p] && p < a
    ensures KeptFor(m, Memory(h, f, m.v), live)
  {
    hide Tagged, Binned, SizesAgree, DvOK, Rd, Apart;
    var m' := Memory(h, f, m.v);
    forall p | p in live
      ensures GranulesKept(m, m', p, live[p])
    {
      EndsBy(s.chunks, s.base, s.top, p, a);
    }
  }

  lemma TakeTopKept(s: State, m: Memory, nb: int, h: map<int, int>, f: map<int, int>)
    requires Sane(s, {}) && nb > 0 && m.head == s.head && m.foot == s.foot
    requires h == s.head[s.top + nb := s.topsize - nb + 1][s.top := nb + 3] && f == s.foot[s.top + nb := s.cookie]
    ensures KeptFor(m, Memory(h, f, m.v), Live(s.chunks))
  {
    hide KeptFor, Tagged, Binned, SizesAgree, DvOK;
    TopFacts(s);
    TopKept(s, {}, m, h, f, s.top, s.top + nb, Live(s.chunks));
  }

  const GRANULARITY := 4096

  const TRIM_THRESHOLD := 0x20_0000

  const MAX_SIZE_T := WORD - 1

  const SYS_ALLOC_PADDING := TOP_FOOT_SIZE + MALLOC_ALIGNMENT

  const HALF_MAX := 0x7FFF_FFFF

  /** granularity_align in 32 bits */
  function GranularityAlign(n: int): int {
    var m := Wrap(n + GRANULARITY - 1);
    m - m % GRANULARITY
  }

  /** The request overflows, or the memory it needs is at least half the address space or lies beyond it. */
  ghost predicate CannotGrow(nb: int, ts: int, e: int) {
    || GranularityAlign(nb + SYS_ALLOC_PADDING) <= nb
    || GranularityAlign(nb - ts + SYS_ALLOC_PADDING) >= HALF_MAX
    || e + GranularityAlign(nb - ts + SYS_ALLOC_PADDING) > WORD
  }

  lemma AlignUp(n: int)
    requires 0 <= n
    ensures n + GRANULARITY - 1 < WORD ==> n <= GranularityAlign(n)
    ensures WORD <= n + GRANULARITY - 1 < WORD + WORD ==> GranularityAlign(n) <= n + GRANULARITY - 1 - WORD
    ensures GranularityAlign(n) % 32 == 0 && GranularityAlign(n) >= 0
  {
    var m := Wrap(n + GRANULARITY - 1);
    Mod32(128 * (m / 4096), 0);
  }

  lemma GrowthSize(s: State, nb: int, asize: int, ssize: int)
    requires Sane(s, {}) && s.topsize <= nb < WORD && (Sound(nb) || nb == WORD - 1)
    requires asize == GranularityAlign(nb + SYS_ALLOC_PADDING) > nb
    requires ssize == GranularityAlign(nb - s.topsize + SYS_ALLOC_PADDING)
    ensures ssize % 32 == 0 && nb < s.topsize + ssize && Sound(nb) && ssize >= 0
  {
    hide Tiled, Tagged, Binned, SizesAgree, DvOK;
    AlignUp(nb + SYS_ALLOC_PADDING);
    AlignUp(nb - s.topsize + SYS_ALLOC_PADDING);
  }

  lemma GrowKept(s: State, m: Memory, d: int)
    requires Sane(s, {}) && m.head == s.head && m.foot == s.foot
    ensures KeptFor(m, Memory(s.head[s.top := s.topsize + d + 1], m.foot, m.v), Live(s.chunks))
  {
    hide KeptFor, Tagged, Binned, SizesAgree, DvOK;
    TopFacts(s);
    TopKept(s, {}, m, s.head[s.top := s.topsize + d + 1], m.foot, s.top, s.top, Live(s.chunks));
  }

  /** The choice for a small request of padded size nb: an exact small bin, else the designated victim,
      else the smallest sufficient binned chunk, else top. */
  ghost predicate SmallChoice(s: State, nb: int, p: int) {
    if exists c :: c in s.size && s.size[c] == nb then p in s.size && s.size[p] == nb
    else if nb <= s.dvsize then p == s.dv
    else if !BinsTooSmall(s, nb) then BestBinned(s, nb, p)
    else p == s.top
  }

  /** The choice for a large request: the tightest of all free chunks, the designated victim winning ties, else top. */
  ghost predicate LargeChoice(s: State, nb: int, p: int) {
    if BinsTooSmall(s, nb) || DvTightest(s, nb) then p == if nb <= s.dvsize then s.dv else s.top
    else BestBinned(s, nb, p) && (nb <= s.dvsize ==> s.size[p] < s.dvsize)
  }

  /** No chunk, nor top, can hold nb bytes. */
  ghost predicate NothingFits(s: State, nb: int) {
    BinsTooSmall(s, nb) && s.dvsize < nb && s.topsize <= nb
  }

  /** When dlmalloc returns 0: the request is too large, or nothing holds it and the space does not grow. */
  ghost predicate Refused(s: State, bytes: nat, granted: bool) {
    || bytes >= MAX_REQUEST
    || (NothingFits(s, RequestSize(bytes)) && (granted ==> CannotGrow(RequestSize(bytes), s.topsize, s.end)))
  }

  /** When internal_memalign returns 0: the request is too large for the alignment, or the over-allocation is
      refused. */
  ghost predicate AlignedRefused(s: State, alignment: nat, bytes: nat, granted: bool) {
    || bytes >= MAX_REQUEST - Rounded(alignment)
    || Refused(s, RequestSize(bytes) + Rounded(alignment) + MIN_CHUNK_SIZE - CHUNK_OVERHEAD, granted)
  }

  lemma SmallSound(nb: int)
    requires Sound(nb) && IsSmall(nb)
    ensures nb % 8 == 0 && nb / 8 < 31 && nb / 8 % 4 == 0 && 8 * (nb / 8) == nb && nb > 0
  {
  }

  lemma NextSmallest(s: State, nb: int, i: nat, p: int)
    requires i < 32 && nb <= 8 * i && p in s.size && s.size[p] == 8 * i
    requires forall c :: c in s.size && IsSmall(s.size[c]) && s.size[c] >= nb ==> s.size[c] >= 8 * i
    ensures BestBinned(s, nb, p) && !BinsTooSmall(s, nb)
  {
  }

  lemma ExactFits(s: State, nb: int, p: int)
    requires p in s.size && s.size[p] == nb
    ensures !BinsTooSmall(s, nb)
  {
  }

  lemma BestExists(s: State, nb: int, p: int)
    requires BestBinned(s, nb, p)
    ensures !BinsTooSmall(s, nb)
  {
  }

  lemma RequestIs(bytes: nat)
    requires bytes < MAX_REQUEST
    ensures Sound(RequestSize(bytes)) && 0 < RequestSize(bytes) < WORD - 1 && SizeOK(RequestSize(bytes))
    ensures bytes <= MAX_SMALL_REQUEST <==> IsSmall(RequestSize(bytes))
    ensures bytes > MAX_SMALL_REQUEST ==> LargeRequest(RequestSize(bytes))
  {
    RequestFits(bytes);
    SmallRequest(bytes);
  }

  lemma OnlySmallChunks(s: State, nb: int)
    requires !IsSmall(nb) && forall c :: c in s.size ==> IsSmall(s.size[c])
    ensures BinsTooSmall(s, nb)
  {
  }

  lemma BestBeatsDv(s: State, nb: int, p: int)
    requires BestBinned(s, nb, p) && (s.dvsize < nb || s.size[p] < s.dvsize)
    ensures p in s.size && !DvTightest(s, nb)
  {
  }

  lemma DvLoose(s: State, nb: int)
    ensures s.dvsize < nb ==> !DvTightest(s, nb)
  {
  }

  /** No chunk is as large as the size that stands for an impossible request. */
  lemma HugeRequest(s: State)
    requires Sane(s, {})
    ensures s.dvsize < WORD - 1 && s.topsize < WORD - 1
  {
    hide Tagged, Rd, Apart, Binned, SizesAgree;
    if s.dvsize != 0 { FreeChunk(s, {}, s.dv); }
  }

  /** Exactly the block at p was taken off the live blocks. */
  ghost predicate Removed(before: map<int, Chunk>, after: map<int, Chunk>, p: int) {
    p in Live(before) && Live(after) == Live(before) - {p}
  }

  ghost predicate Unlinked(s: State, q: int, e: int) {
    forall c :: c in s.chunks && q <= c < e ==> c !in s.size
  }

  ghost predicate LimboIn(limbo: set<int>, q: int, e: int) {
    forall c :: c in limbo ==> q <= c < e
  }

  lemma MergeWords(s: State, limbo: set<int>, q: int, e: int, p: int)
    requires Sane(s, limbo) && Region(s, q, e, p) && e in s.chunks
    ensures var h, f := s.head[e := ClearPinuse(Rd(s.head, e))][q := e - q + 1], s.foot[e := e - q];
            && q < e && q in s.chunks && s.chunks[q].pinuse
            && SameBut(s.head, h, {q, e}) && SameBut(s.foot, f, {e})
            && Rd(h, q) == e - q + 1 && Rd(h, e) == Pack(s.chunks[e].(pinuse := false)) && Rd(f, e) == e - q
  {
    hide Sane;
    NextHead(s, limbo, e);
  }

  lemma MergeKept(s: State, limbo: set<int>, m: Memory, q: int, e: int, p: int, h: map<int, int>, f: map<int, int>)
    requires Sane(s, limbo) && Region(s, q, e, p) && m.head == s.head && m.foot == s.foot
    requires SameBut(s.head, h, {q, e}) && SameBut(s.foot, f, {e})
    ensures KeptFor(m, Memory(h, f, m.v), Live(s.chunks) - {p})
  {
    hide KeptFor, Tagged, Binned, SizesAgree, DvOK, Rd;
    TagWritesKeep(m, Memory(h, f, m.v), s.chunks, s.base, s.top, q, e, {q, e}, Live(s.chunks) - {p});
  }

  /** Free chunks in a region that ends at top lie in front of p, so only the first can be one. */
  lemma DvInTopRegion(s: State, limbo: set<int>, q: int, p: int)
    requires Sane(s, limbo) && Region(s, q, s.top, p)
    ensures s.dv >= q ==> s.dv == q
  {
    hide Tagged, Binned, SizesAgree, Rd;
    NoNull(s, limbo);
    if s.dv >= q && s.dvsize != 0 {
      var d := s.dv;
      FreeChunk(s, limbo, d);
      if d != q {
        var r := Predecessor(s, limbo, q, d);
      }
    }
  }

  lemma TopRegion(s: State, limbo: set<int>, q: int, p: int)
    requires Sane(s, limbo) && Region(s, q, s.top, p)
    ensures q in s.chunks && s.chunks[q].pinuse && q < s.top < WORD && Aligned(q) && 0 < s.topsize
    ensures forall c :: c in s.chunks ==> c < s.top
    ensures s.dv >= q ==> s.dv == q
    ensures q > 0
  {
    hide Tagged, Binned, SizesAgree, Apart, Rd;
    forall c | c in s.chunks
      ensures c < s.top
    {
      assert ChunkOK(s.chunks, s.base, s.top, c);
    }
    assert ChunkOK(s.chunks, s.base, s.top, q);
    DvInTopRegion(s, limbo, q, p);
  }

  lemma TopMergeOK(s: State, limbo: set<int>, q: int, p: int, tsize: int)
    requires Sane(s, limbo) && Region(s, q, s.top, p) && Unlinked(s, q, s.top) && LimboIn(limbo, q, s.top)
    requires tsize == s.topsize + (s.top - q)
    ensures Sane(s.(head := s.head[q := tsize + 1], chunks := EndAt(s.chunks, q, q), top := q, topsize := tsize,
                    dv := if q == s.dv then 0 else s.dv, dvsize := if q == s.dv then 0 else s.dvsize), {})
  {
    hide Tagged, Binned, SizesAgree, DvOK, Apart;
    TopRegion(s, limbo, q, p);
    var h := s.head[q := tsize + 1];
    EndOK(s, limbo, q, q, h, s.foot, if q == s.dv then 0 else s.dv, if q == s.dv then 0 else s.dvsize, tsize);
  }

  lemma TopMergeKept(s: State, limbo: set<int>, m: Memory, q: int, p: int, tsize: int)
    requires Sane(s, limbo) && Region(s, q, s.top, p) && m.head == s.head && m.foot == s.foot
    ensures KeptFor(m, Memory(s.head[q := tsize + 1], m.foot, m.v), Live(s.chunks) - {p})
  {
    hide KeptFor, Tagged, Binned, SizesAgree, DvOK;
    TagWritesKeep(m, Memory(s.head[q := tsize + 1], m.foot, m.v), s.chunks, s.base, s.top, q, s.top, {q},
      Live(s.chunks) - {p});
  }

  lemma RegionIgnoresBins(s: State, s': State, q: int, e: int, p: int)
    requires Region(s, q, e, p) && s'.chunks == s.chunks && s'.top == s.top
    ensures Region(s', q, e, p)
  {
  }

  lemma LiveHead(s: State, p: int)
    requires Sane(s, {}) && p in Live(s.chunks)
    ensures p in s.chunks && s.chunks[p].inuse && ChunkSize(Rd(s.head, p)) == s.chunks[p].size > 0
    ensures Pinuse(Rd(s.head, p)) == s.chunks[p].pinuse
  {
    hide Apart, Rd, ChunkSize, Pack, Pinuse, Binned, SizesAgree, DvOK;
    assert ChunkOK(s.chunks, s.base, s.top, p);
    assert TagOK(s.head, s.foot, s.chunks, s.cookie, p);
    Unpack(s.chunks[p]);
  }

  lemma KeptForFewer(m: Memory, m': Memory, c: map<int, Chunk>, p: int)
    requires KeptFor(m, m', Live(c))
    ensures KeptFor(m, m', Live(c) - {p})
  {
    hide KeptFor, Live;
    KeptFewer(m, m', Live(c), Live(c) - {p});
  }

  lemma BetweenTwo(s: State, limbo: set<int>, q: int, e: int, p0: int)
    requires Sane(s, limbo) && q in s.chunks && p0 in s.chunks
    requires q + s.chunks[q].size == p0 && p0 + s.chunks[p0].size == e
    ensures forall c :: c in s.chunks && q <= c < e ==> c == q || c == p0
  {
    hide Tagged, Rd, Binned, SizesAgree, DvOK;
  }

  lemma BackBinnedMembers(s: State, q: int, e: int, p0: int)
    requires Sane(s, {}) && IsFree(s.chunks, q) && q != s.dv && p0 in s.chunks && s.chunks[p0].inuse
    requires forall c :: c in s.chunks && q <= c < e ==> c == q || c == p0
    ensures q in s.size && forall c :: c in s.chunks && q <= c < e ==> c == q || c !in s.size
    ensures !(q <= s.dv < e)
  {
    hide Tagged, Rd, Tiled;
    NoNull(s, {});
  }

  /** With the free chunk in front of p0 taken out of its bin, nothing in the region is binned. */
  lemma BackBinned(s: State, q: int, e: int, p0: int)
    requires Sane(s, {}) && Region(s, q, e, p0) && IsFree(s.chunks, q) && q != s.dv
    requires q + s.chunks[q].size == p0 && p0 + s.chunks[p0].size == e
    ensures q in s.size && forall c :: c in s.chunks && q <= c < e ==> c == q || c !in s.size
    ensures !(q <= s.dv < e)
  {
    hide Tagged, Rd, Binned;
    BetweenTwo(s, {}, q, e, p0);
    BackBinnedMembers(s, q, e, p0);
  }

  lemma BackDv(s: State, q: int, e: int, p0: int)
    requires Sane(s, {}) && Region(s, q, e, p0) && q == s.dv && IsFree(s.chunks, q)
    requires q + s.chunks[q].size == p0 && p0 + s.chunks[p0].size == e
    ensures Unlinked(s, q, e) && s.dv != 0 && q <= s.dv < e
  {
    hide Tagged, Rd;
    BetweenTwo(s, {}, q, e, p0);
    NoNull(s, {});
  }

  lemma LoneUnlinked(s: State, p0: int, e: int)
    requires Sane(s, {}) && p0 in s.chunks && s.chunks[p0].inuse && e == p0 + s.chunks[p0].size
    ensures Unlinked(s, p0, e) && !(p0 <= s.dv < e)
  {
    hide Tagged, Rd;
    NoNull(s, {});
    forall c | c in s.chunks && p0 <= c < e
      ensures c == p0
    {
    }
  }

  /** Nothing of the region is binned; the designated victim, if inside, is its first chunk. */
  ghost predicate Ready(s: State, q: int, e: int) {
    Unlinked(s, q, e) && (q <= s.dv < e ==> s.dv == q && s.dv != 0)
  }

  lemma ForwardDv(s: State, limbo: set<int>, q: int, e: int, p: int)
    requires Sane(s, limbo) && Region(s, q, e, p) && Unlinked(s, q, e)
    requires LimboIn(limbo, q, e) && e == s.dv && IsFree(s.chunks, e)
    ensures s.dvsize == s.chunks[e].size > 0 && s.dv != 0
    ensures Unlinked(s, q, e + s.dvsize) && LimboIn(limbo, q, e + s.dvsize)
  {
    hide Tagged, Rd;
    NoNull(s, limbo);
    FreeChunk(s, limbo, e);
    forall c | c in s.chunks && e <= c < e + s.chunks[e].size
      ensures c == e
    {
      OnlyStart(s, limbo, e, c);
    }
  }

  lemma ForwardBinned(s: State, limbo: set<int>, q: int, e: int, p: int)
    requires Sane(s, limbo) && LimboIn(limbo, q, e) && IsFree(s.chunks, e) && e != s.dv
    ensures e in s.size
  {
    hide Tagged, Rd, Tiled;
  }

  lemma ForwardReady(s: State, s2: State, limbo: set<int>, q: int, e: int, p: int)
    requires Sane(s, limbo) && Region(s, q, e, p) && Ready(s, q, e)
    requires LimboIn(limbo, q, e) && IsFree(s.chunks, e) && e != s.dv
    requires s2 == s.(size := s.size - {e}) && Region(s, q, e + s.chunks[e].size, p)
    ensures Region(s2, q, e + s.chunks[e].size, p) && Unlinked(s2, q, e + s.chunks[e].size)
    ensures LimboIn(limbo + {e}, q, e + s.chunks[e].size)
    ensures s.dv == q ==> s.dv != 0
    ensures s.dv != q ==> !(q <= s.dv < e + s.chunks[e].size)
  {
    hide Tagged, Rd;
    NoNull(s, limbo);
    FreeChunk(s, limbo, e);
    forall c | c in s.chunks && e <= c < e + s.chunks[e].size
      ensures c == e
    {
      OnlyStart(s, limbo, e, c);
    }
  }

  lemma RegionEnd(s: State, q: int, e: int, p: int)
    requires Region(s, q, e, p)
    ensures Boundary(s.chunks, s.top, e) && q < e && q in s.chunks
  {
  }

  lemma LiveShrinks(before: map<int, Chunk>, after: map<int, Chunk>, p: int)
    requires Removed(before, after, p)
    ensures Live(after) == Live(before) - {p}
  {
    hide Live;
  }

  /** The block at p now has n bytes; all other live blocks are as before. */
  ghost predicate Resized(before: map<int, Chunk>, after: map<int, Chunk>, p: int, n: int) {
    p in Live(before) && Live(after) == Live(before)[p := n]
  }

  /** A chunk outside [a, e) ends by a, or begins at e or later; in the latter case e is not top. */
  lemma ClearOfSpan(s: State, limbo: set<int>, a: int, e: int, p: int)
    requires Sane(s, limbo) && a in s.chunks && Boundary(s.chunks, s.top, e) && a < e && p in s.chunks && !(a <= p < e)
    ensures p + s.chunks[p].size <= a || (e <= p && e != s.top)
  {
    hide Tagged, Binned, SizesAgree, DvOK, Rd;
    NothingInside(s.chunks, s.base, s.top, p, a);
    assert ChunkOK(s.chunks, s.base, s.top, p);
  }

  /** Tag writes at a, and beyond its first n bytes, keep those bytes and all other live chunks. */
  lemma ResizeKept(s: State, limbo: set<int>, m: Memory, a: int, e: int, n: int, h: map<int, int>, f: map<int, int>,
                   keys: set<int>, live: map<int, int>)
    requires Sane(s, limbo) && a in s.chunks && Boundary(s.chunks, s.top, e) && a < e && n > 0
    requires m.head == s.head && m.foot == s.foot && SameBut(s.head, h, keys) && SameBut(s.foot, f, keys)
    requires forall k :: k in keys ==> k == a || (a + n <= k && (k <= e || e == s.top))
    requires forall p :: p in live ==>
             if p == a then live[p] == n else p in s.chunks && s.chunks[p].size == live[p] && !(a <= p < e)
    ensures KeptFor(m, Memory(h, f, m.v), live)
  {
    hide Tagged, Binned, SizesAgree, DvOK, Rd;
    var m' := Memory(h, f, m.v);
    forall p | p in live
      ensures GranulesKept(m, m', p, live[p])
    {
      if p != a {
        ClearOfSpan(s, limbo, a, e, p);
      }
      forall g | p < g < p + live[p]
        ensures TagsKept(m, m', g)
      {
        assert g !in keys;
      }
    }
  }

  lemma LiveTag(s: State, p: int)
    requires Sane(s, {}) && p in Live(s.chunks)
    ensures p in s.chunks && s.chunks[p].inuse && Rd(s.head, p) == Pack(s.chunks[p]) && s.chunks[p].size % 32 == 0
    ensures ChunkSize(Rd(s.head, p)) == s.chunks[p].size > 0 && Sound(s.chunks[p].size)
    ensures Boundary(s.chunks, s.top, p + s.chunks[p].size)
  {
    hide Apart, Rd, ChunkSize, Pack, Binned, SizesAgree, DvOK;
    assert ChunkOK(s.chunks, s.base, s.top, p);
    assert TagOK(s.head, s.foot, s.chunks, s.cookie, p);
    Unpack(s.chunks[p]);
  }

  /** What a live chunk p and the limbo space behind it, up to e, look like. */
  ghost predicate Span(s: State, limbo: set<int>, p: int, e: int) {
    && p in Live(s.chunks) && Boundary(s.chunks, s.top, e) && p + s.chunks[p].size <= e
    && Unlinked(s, p, e) && LimboIn(limbo, p, e)
    && forall c :: c in s.chunks && p < c < e ==> IsFree(s.chunks, c)
  }

  lemma SpanHead(s: State, limbo: set<int>, p: int, e: int)
    requires Sane(s, limbo) && Span(s, limbo, p, e)
    ensures p in s.chunks && s.chunks[p].inuse && Rd(s.head, p) == Pack(s.chunks[p]) && s.chunks[p].size % 32 == 0
    ensures 0 < s.chunks[p].size <= e - p
  {
    hide Apart, Rd, Pack, Binned, SizesAgree, DvOK;
    assert ChunkOK(s.chunks, s.base, s.top, p);
    assert TagOK(s.head, s.foot, s.chunks, s.cookie, p);
  }

  lemma ExtendOK(s: State, limbo: set<int>, p: int, n: int, h: map<int, int>, f: map<int, int>)
    requires Sane(s, limbo) && Span(s, limbo, p, p + n)
    requires h == InuseHead(s.head, p, n) && f == s.foot[p + n := s.cookie]
    ensures p in s.chunks
    ensures Sane(s.(head := h, foot := f, chunks := One(s.chunks, p, p + n, true),
                    dv := if p <= s.dv < p + n then 0 else s.dv,
                    dvsize := if p <= s.dv < p + n then 0 else s.dvsize), {})
  {
    hide Sane, Pack, InuseHead, SetPinuse;
    SpanHead(s, limbo, p, p + n);
    OnceInuse(s.head, p, n, s.chunks[p]);
    NextInuse(s, limbo, h, p + n);
    LiveOneOK(s, limbo, p, p + n, h, f,
              if p <= s.dv < p + n then 0 else s.dv, if p <= s.dv < p + n then 0 else s.dvsize);
  }

  lemma ExtendKept(s: State, limbo: set<int>, m: Memory, p: int, n: int, h: map<int, int>, f: map<int, int>)
    requires Sane(s, limbo) && Span(s, limbo, p, p + n)
    requires h == InuseHead(s.head, p, n) && f == s.foot[p + n := s.cookie]
    requires m.head == s.head && m.foot == s.foot
    ensures KeptFor(m, Memory(h, f, m.v), Live(s.chunks))
  {
    hide Sane, Pack, InuseHead, SetPinuse, KeptFor;
    SpanHead(s, limbo, p, p + n);
    OnceInuse(s.head, p, n, s.chunks[p]);
    ResizeKept(s, limbo, m, p, p + n, s.chunks[p].size, h, f, {p, p + n}, Live(s.chunks));
  }

  lemma LiveExtended(s: State, limbo: set<int>, p: int, e: int)
    requires Sane(s, limbo) && Span(s, limbo, p, e)
    ensures p in s.chunks && p < e && Resized(s.chunks, One(s.chunks, p, e, true), p, e - p)
  {
    hide Tagged, Binned, SizesAgree, DvOK, Rd;
    SpanHead(s, limbo, p, e);
  }

  /** The block at p can become nb bytes long without moving. */
  ghost predicate RoomInPlace(s: State, p: int, nb: int)
    requires p in s.chunks
  {
    var n := s.chunks[p].size;
    || nb <= n
    || (p + n == s.top && nb < n + s.topsize)
    || (IsFree(s.chunks, p + n) && nb <= n + s.chunks[p + n].size)
  }

  /** The live blocks, of which the one at p counts only as far as it is still part of the resized block. */
  ghost function Common(live: map<int, int>, p: int, nb: int): map<int, int>
    requires p in live
  {
    live[p := if nb < live[p] then nb else live[p]]
  }

  /** The live block at p gave up what lies beyond its first nb bytes, and possibly space behind it, to a second
      live block. */
  ghost predicate Divided(before: map<int, Chunk>, after: map<int, Chunk>, p: int, nb: int, n: int) {
    && p in Live(before) && p + nb !in Live(before) && nb != 0
    && Live(after) == Live(before)[p := nb][p + nb := n - nb]
  }

  lemma Undivided(before: map<int, Chunk>, mid: map<int, Chunk>, after: map<int, Chunk>, p: int, nb: int, n: int)
    requires Divided(before, mid, p, nb, n) && Removed(mid, after, p + nb)
    ensures Resized(before, after, p, nb) && Live(mid) - {p + nb} == Live(before)[p := nb]
  {
    hide Live;
  }

  lemma SplitLiveOK(s: State, limbo: set<int>, p: int, nb: int, n: int, h: map<int, int>, f: map<int, int>)
    requires Sane(s, limbo) && Span(s, limbo, p, p + n) && Sound(nb) && nb < n && !(p <= s.dv < p + n)
    requires h == InuseHead(InuseHead(s.head, p, nb), p + nb, n - nb)
    requires f == s.foot[p + nb := s.cookie][p + n := s.cookie]
    ensures p in s.chunks
    ensures Sane(s.(head := h, foot := f, chunks := Two(s.chunks, p, p + nb, p + n, true, true)), {})
  {
    hide Sane, Pack, InuseHead, SetPinuse;
    SpanHead(s, limbo, p, p + n);
    FrontThenBack(s.head, p, nb, n, s.chunks[p]);
    NextInuse(s, limbo, h, p + n);
    LiveTwoOK(s, limbo, p, p + nb, p + n, h, f);
  }

  lemma SplitLiveKept(s: State, limbo: set<int>, m: Memory, p: int, nb: int, n: int, h: map<int, int>, f: map<int, int>)
    requires Sane(s, limbo) && Span(s, limbo, p, p + n) && 0 < nb < n
    requires h == InuseHead(InuseHead(s.head, p, nb), p + nb, n - nb)
    requires f == s.foot[p + nb := s.cookie][p + n := s.cookie]
    requires m.head == s.head && m.foot == s.foot
    ensures KeptFor(m, Memory(h, f, m.v), Common(Live(s.chunks), p, nb))
  {
    hide Sane, Pack, InuseHead, SetPinuse, KeptFor;
    SpanHead(s, limbo, p, p + n);
    FrontThenBack(s.head, p, nb, n, s.chunks[p]);
    var k := if nb < s.chunks[p].size then nb else s.chunks[p].size;
    ResizeKept(s, limbo, m, p, p + n, k, h, f, {p, p + nb, p + n}, Live(s.chunks)[p := k]);
  }

  lemma LiveSplitNew(s: State, limbo: set<int>, p: int, nb: int, n: int)
    requires Sane(s, limbo) && Span(s, limbo, p, p + n) && 0 < nb < n
    ensures p + nb !in Live(s.chunks)
  {
    hide Tagged, Binned, SizesAgree, DvOK, Rd;
  }

  lemma LiveSplit(s: State, limbo: set<int>, p: int, nb: int, n: int)
    requires Sane(s, limbo) && Span(s, limbo, p, p + n) && 0 < nb < n
    ensures p in s.chunks
    ensures Divided(s.chunks, Two(s.chunks, p, p + nb, p + n, true, true), p, nb, n)
  {
    hide Tagged, Binned, SizesAgree, DvOK, Rd;
    LiveSplitNew(s, limbo, p, nb, n);
  }

  /** The live chunk in front of top is the last chunk. */
  lemma LastChunk(s: State, p: int)
    requires Sane(s, {}) && p in Live(s.chunks) && p + s.chunks[p].size == s.top
    ensures forall c :: c in s.chunks && p <= c ==> c == p && c !in s.size
    ensures s.dv < p
  {
    hide Tagged, Rd;
    NoNull(s, {});
    forall c | c in s.chunks && p <= c
      ensures c == p
    {
      assert ChunkOK(s.chunks, s.base, s.top, c);
    }
  }

  lemma IntoTopOK(s: State, p: int, nb: int, newtopsize: int, h: map<int, int>, f: map<int, int>)
    requires Sane(s, {}) && p in Live(s.chunks) && p + s.chunks[p].size == s.top && Sound(nb)
    requires s.chunks[p].size < nb < s.chunks[p].size + s.topsize && newtopsize == s.chunks[p].size + s.topsize - nb
    requires h == InuseHead(s.head, p, nb)[p + nb := newtopsize + 1] && f == s.foot[p + nb := s.cookie]
    ensures Sane(s.(head := h, foot := f, chunks := EndAt(s.chunks, p, p + nb), top := p + nb, topsize := newtopsize),
            {})
  {
    hide Tagged, Binned, SizesAgree, Apart, Pack, SetPinuse;
    LiveTag(s, p);
    SoundPositive(nb);
    OnceInuse(s.head, p, nb, s.chunks[p]);
    hide InuseHead;
    TopFacts(s);
    BoundaryAligned(s.chunks, s.base, s.top, p);
    AlignedAfter(p, nb);
    LastChunk(s, p);
    EndOK(s, {}, p, p + nb, h, f, s.dv, s.dvsize, newtopsize);
  }

  lemma IntoTopKept(s: State, m: Memory, p: int, nb: int, newtopsize: int, h: map<int, int>, f: map<int, int>)
    requires Sane(s, {}) && p in Live(s.chunks) && p + s.chunks[p].size == s.top && s.chunks[p].size < nb
    requires h == InuseHead(s.head, p, nb)[p + nb := newtopsize + 1] && f == s.foot[p + nb := s.cookie]
    requires m.head == s.head && m.foot == s.foot
    ensures KeptFor(m, Memory(h, f, m.v), Live(s.chunks))
  {
    hide Sane, Pack, SetPinuse, KeptFor;
    LiveTag(s, p);
    OnceInuse(s.head, p, nb, s.chunks[p]);
    LastChunk(s, p);
    hide InuseHead;
    ResizeKept(s, {}, m, p, s.top, s.chunks[p].size, h, f, {p, p + nb}, Live(s.chunks));
  }

  lemma IntoTopLive(s: State, p: int, nb: int)
    requires Sane(s, {}) && p in Live(s.chunks) && p + s.chunks[p].size == s.top && s.chunks[p].size < nb
    ensures Resized(s.chunks, EndAt(s.chunks, p, p + nb), p, nb)
  {
    hide Tagged, Binned, SizesAgree, DvOK, Rd;
    LastChunk(s, p);
    LiveTag(s, p);
  }

  ghost predicate BeforeDv(s: State, p: int, nb: int, dsize: int) {
    && Sane(s, {}) && p in Live(s.chunks) && p + s.chunks[p].size == s.dv && s.chunks[p].size < nb
    && dsize == s.chunks[p].size + s.dvsize - nb > 0
  }

  /** The designated victim behind p is a chunk of dvsize bytes that an in-use chunk follows. */
  lemma AfterDv(s: State, p: int)
    requires Sane(s, {}) && p in Live(s.chunks) && p + s.chunks[p].size == s.dv
    ensures s.dvsize > 0 && s.dv in s.chunks && s.chunks[s.dv].size == s.dvsize && IsFree(s.chunks, s.dv)
    ensures var e := s.dv + s.dvsize; e in s.chunks && s.chunks[e].inuse && e < s.top
    ensures forall c :: c in s.chunks && p <= c < s.dv + s.dvsize ==> (c == p || c == s.dv) && c !in s.size
  {
    hide Tagged, Rd;
    NoNull(s, {});
    LiveTag(s, p);
    DvFacts(s, {});
    FreeChunk(s, {}, s.dv);
    BetweenTwo(s, {}, p, s.dv + s.dvsize, s.dv);
  }

  lemma IntoDvWords(s: State, p: int, nb: int, dsize: int, h: map<int, int>, f: map<int, int>)
    requires BeforeDv(s, p, nb, dsize)
    requires var h1 := InuseHead(s.head, p, nb)[p + nb := dsize + 1]; var n := p + nb + dsize;
             h == h1[n := ClearPinuse(Rd(h1, n))] && f == s.foot[p + nb := s.cookie][n := dsize]
    ensures var e := p + nb + dsize;
            && p in s.chunks && e in s.chunks && s.chunks[e].inuse && e != s.top
            && SameBut(s.head, h, {p, p + nb, e}) && SameBut(s.foot, f, {p + nb, e})
            && Rd(h, p) == Pack(Chunk(nb, true, s.chunks[p].pinuse)) && Rd(h, p + nb) == Pack(Chunk(dsize, false, true))
            && NextHeadOK(s, h, e, false) && Rd(f, p + nb) == s.cookie && Rd(f, e) == dsize
  {
    hide Sane, SetPinuse, Pack, ClearPinuse;
    LiveTag(s, p);
    AfterDv(s, p);
    OnceInuse(s.head, p, nb, s.chunks[p]);
    PackIs(dsize, false, true);
    var e := p + nb + dsize;
    NextHead(s, {}, e);
  }

  lemma IntoDvOK(s: State, p: int, nb: int, dsize: int, h: map<int, int>, f: map<int, int>)
    requires BeforeDv(s, p, nb, dsize) && Sound(nb)
    requires var h1 := InuseHead(s.head, p, nb)[p + nb := dsize + 1]; var n := p + nb + dsize;
             h == h1[n := ClearPinuse(Rd(h1, n))] && f == s.foot[p + nb := s.cookie][n := dsize]
    ensures p in s.chunks
    ensures Sane(s.(head := h, foot := f, chunks := Two(s.chunks, p, p + nb, p + nb + dsize, true, false), dv := p + nb,
            dvsize := dsize), {})
  {
    hide Sane, SetPinuse, Pack, ClearPinuse, NextHeadOK, SameBut, Sound;
    IntoDvWords(s, p, nb, dsize, h, f);
    hide InuseHead;
    AfterDv(s, p);
    SoundPositive(nb);
    LiveTag(s, p);
    LiveTwoDvOK(s, {}, p, p + nb, p + nb + dsize, h, f);
  }

  lemma IntoDvKept(s: State, m: Memory, p: int, nb: int, dsize: int, h: map<int, int>, f: map<int, int>)
    requires BeforeDv(s, p, nb, dsize) && m.head == s.head && m.foot == s.foot
    requires var h1 := InuseHead(s.head, p, nb)[p + nb := dsize + 1]; var n := p + nb + dsize;
             h == h1[n := ClearPinuse(Rd(h1, n))] && f == s.foot[p + nb := s.cookie][n := dsize]
    ensures KeptFor(m, Memory(h, f, m.v), Live(s.chunks))
  {
    hide Sane, SetPinuse, Pack, ClearPinuse, NextHeadOK, KeptFor, Rd;
    IntoDvWords(s, p, nb, dsize, h, f);
    hide InuseHead;
    AfterDv(s, p);
    LiveTag(s, p);
    var e := p + nb + dsize;
    ResizeKept(s, {}, m, p, e, s.chunks[p].size, h, f, {p, p + nb, e}, Live(s.chunks));
  }

  lemma IntoDvLive(s: State, p: int, nb: int, dsize: int)
    requires BeforeDv(s, p, nb, dsize)
    ensures p in s.chunks && Resized(s.chunks, Two(s.chunks, p, p + nb, p + nb + dsize, true, false), p, nb)
  {
    hide Sane, Rd;
    AfterDv(s, p);
    LiveTag(s, p);
  }

  lemma NotNullLive(s: State, p: int)
    requires Sane(s, {}) && p in Live(s.chunks)
    ensures p >= HEAP_LOW
  {
    NoNull(s, {});
  }

  /** The room behind p, by what is there. */
  lemma RoomBehind(s: State, p: int, nb: int)
    requires Sane(s, {}) && p in Live(s.chunks)
    ensures var n := s.chunks[p].size; var next := p + n;
            && (nb <= n ==> RoomInPlace(s, p, nb))
            && (n < nb && next == s.top ==> (RoomInPlace(s, p, nb) <==> nb < n + s.topsize))
            && (n < nb && next != s.top && next == s.dv ==> (RoomInPlace(s, p, nb) <==> nb <= n + s.dvsize))
            && (n < nb && next != s.top && IsFree(s.chunks, next) ==>
                (RoomInPlace(s, p, nb) <==> nb <= n + s.chunks[next].size))
            && (n < nb && next != s.top && !IsFree(s.chunks, next) ==> !RoomInPlace(s, p, nb))
  {
    hide Tagged, Rd, Tiled;
    TopNotChunk(s, {});
    NoNull(s, {});
    DvFacts(s, {});
  }

  lemma CommonWhole(s: State, p: int, nb: int)
    requires p in Live(s.chunks) && s.chunks[p].size < nb
    ensures Common(Live(s.chunks), p, nb) == Live(s.chunks)
  {
  }

  /** What is kept of the resized block includes the part it has in common with the old one. */
  lemma CommonKept(m: Memory, m': Memory, live: map<int, int>, p: int, nb: int)
    requires p in live && KeptFor(m, m', live[p := nb])
    ensures KeptFor(m, m', Common(live, p, nb))
  {
    forall q | q in Common(live, p, nb)
      ensures GranulesKept(m, m', q, Common(live, p, nb)[q])
    {
      assert GranulesKept(m, m', q, live[p := nb][q]);
    }
  }

  lemma SameSize(c: map<int, Chunk>, p: int)
    requires p in Live(c)
    ensures Resized(c, c, p, c[p].size)
  {
  }

  lemma LoneSpan(s: State, p: int)
    requires Sane(s, {}) && p in Live(s.chunks)
    ensures Span(s, {}, p, p + s.chunks[p].size) && !(p <= s.dv < p + s.chunks[p].size)
  {
    hide Tagged, Rd;
    LiveTag(s, p);
    LoneUnlinked(s, p, p + s.chunks[p].size);
    forall c | c in s.chunks && p <= c < p + s.chunks[p].size
      ensures c == p
    {
      OnlyStart(s, {}, p, c);
    }
  }

  /** The sizes of p and of the free chunk behind it are multiples of 32, so a rest smaller than a chunk is empty. */
  lemma JoinedMultiples(s: State, limbo: set<int>, p: int, nb: int)
    requires Sane(s, limbo) && p in Live(s.chunks) && IsFree(s.chunks, p + s.chunks[p].size) && Sound(nb)
    ensures var n := s.chunks[p].size + s.chunks[p + s.chunks[p].size].size;
            nb <= n && n - nb < MIN_CHUNK_SIZE ==> n == nb
  {
    hide Tagged, Binned, SizesAgree, DvOK, Rd, Apart;
    assert ChunkOK(s.chunks, s.base, s.top, p) && ChunkOK(s.chunks, s.base, s.top, p + s.chunks[p].size);
    Mod32(s.chunks[p].size / 32 + s.chunks[p + s.chunks[p].size].size / 32 - nb / 32, 0);
  }

  /** p and the free chunk behind it, once that is in no bin. */
  lemma JoinedSpan(s: State, s': State, limbo: set<int>, p: int)
    requires Sane(s, {}) && p in Live(s.chunks) && IsFree(s.chunks, p + s.chunks[p].size)
    requires s' == s.(size := s'.size) && p + s.chunks[p].size !in s'.size && s'.size.Keys <= s.size.Keys
    requires limbo <= {p + s.chunks[p].size}
    ensures Span(s', limbo, p, p + s.chunks[p].size + s.chunks[p + s.chunks[p].size].size)
  {
    hide Tagged, Rd;
    var n := p + s.chunks[p].size;
    LiveTag(s, p);
    FreeChunk(s, {}, n);
    BetweenTwo(s, {}, p, n + s.chunks[n].size, n);
  }

  lemma NoDvInside(s: State, p: int)
    requires Sane(s, {}) && p in Live(s.chunks)
    requires IsFree(s.chunks, p + s.chunks[p].size) && p + s.chunks[p].size != s.dv
    ensures !(p <= s.dv < p + s.chunks[p].size + s.chunks[p + s.chunks[p].size].size)
  {
    hide Tagged, Rd;
    var n := p + s.chunks[p].size;
    NoNull(s, {});
    LiveTag(s, p);
    FreeChunk(s, {}, n);
    BetweenTwo(s, {}, p, n + s.chunks[n].size, n);
  }

  lemma Mod4096(k: int)
    ensures k * GRANULARITY % GRANULARITY == 0
  {
  }

  lemma PagesOf(s: State, n: int)
    requires Sane(s, {}) && 0 < n < s.topsize
    ensures var extra := ((n + (GRANULARITY - 1)) / GRANULARITY - 1) * GRANULARITY;
            && 0 <= extra < n <= extra + GRANULARITY && extra % GRANULARITY == 0 && -extra % GRANULARITY == 0
            && -extra % 32 == 0 && extra < HALF_MAX && s.end <= WORD
  {
    hide Tagged, Binned, SizesAgree, DvOK, Apart;
    var k := (n + (GRANULARITY - 1)) / GRANULARITY - 1;
    Mod32(-128 * k, 0);
    Mod4096(k);
    Mod4096(-k);
  }

  lemma LiveSize(c: map<int, Chunk>, p: int)
    requires p in Live(c)
    ensures p in c && Live(c)[p] == c[p].size
  {
  }

  lemma OneWritten(f: map<int, int>, g: int, x: int)
    ensures SameBut(f, f[g := x], {g}) && SameBut(f, f, {g})
  {
  }

  lemma StoredWhere(s: State, p: int, w: int, a: int)
    requires Sane(s, {}) && p in Live(s.chunks) && p + 8 <= a < p + Live(s.chunks)[p] && w == a - a % 4
    ensures var g := Granule(w);
            && p in s.chunks && p <= g < p + s.chunks[p].size && (Slot(w) < 2 ==> p < g) && g >= HEAP_LOW
            && g !in s.size
  {
    hide Rd;
    LiveTag(s, p);
    BoundaryAligned(s.chunks, s.base, s.top, p);
    WordInside(p, s.chunks[p].size, a);
    GranuleInside(p, s.chunks[p].size, w);
    NoNull(s, {});
    hide Tagged, Granule, Slot;
    if Granule(w) in s.chunks {
      OnlyStart(s, {}, p, Granule(w));
    }
  }

  /** Tag words strictly inside a chunk are no tags. */
  lemma StoredTag(s: State, p: int, g: int, h: map<int, int>, f: map<int, int>)
    requires Sane(s, {}) && p in s.chunks && p < g < p + s.chunks[p].size
    requires SameBut(s.head, h, {g}) && SameBut(s.foot, f, {g})
    ensures Sane(s.(head := h, foot := f), {})
  {
    hide Binned, SizesAgree, DvOK, Rd, Pack;
    forall c | c in s.chunks
      ensures TagOK(h, f, s.chunks, s.cookie, c)
    {
      assert TagOK(s.head, s.foot, s.chunks, s.cookie, c);
      assert ChunkOK(s.chunks, s.base, s.top, c);
      NothingInside(s.chunks, s.base, s.top, p, c);
      NothingInside(s.chunks, s.base, s.top, p, c + s.chunks[c].size);
    }
    NothingInside(s.chunks, s.base, s.top, p, s.top);
  }

  lemma ByteIs(m: Memory, a: int)
    ensures ByteAt(m, a) == Digit(Word(m, a - a % 4), a % 4)
  {
  }

  lemma SameNone(m: Memory, p: int, m': Memory, q: int)
    ensures SameBytes(m, p, m', q, 0)
  {
  }

  lemma SameMore(m: Memory, p: int, m1: Memory, m2: Memory, q: int, i: nat)
    requires SameBytes(m, p, m1, q, i) && ByteAt(m2, q + i) == ByteAt(m, p + i)
    requires forall c :: c != q + i ==> ByteAt(m2, c) == ByteAt(m1, c)
    ensures SameBytes(m, p, m2, q, i + 1)
  {
    hide ByteAt;
    forall j | 0 <= j < i + 1
      ensures SameByte(m, p, m2, q, j)
    {
      if j < i { assert SameByte(m, p, m1, q, j); }
    }
  }

  lemma ApartBlocks(s: State, p: int, q: int)
    requires Sane(s, {}) && p in Live(s.chunks) && q in Live(s.chunks) && p != q
    ensures p + Live(s.chunks)[p] <= q || q + Live(s.chunks)[q] <= p
  {
    LiveDisjoint(s.chunks, s.base, s.top, p, q);
  }

  lemma StoreKept(s: State, m: Memory, q: int, a: int, b: int)
    requires Sane(s, {}) && q in Live(s.chunks) && q + 8 <= a < q + Live(s.chunks)[q]
    ensures KeptFor(m, ByteStored(m, a, b), Live(s.chunks) - {q})
  {
    hide Rd, Word, SetDigit, WordStored, GranulesKept;
    var w := a - a % 4;
    LiveTag(s, q);
    BoundaryAligned(s.chunks, s.base, s.top, q);
    WordInside(q, s.chunks[q].size, a);
    hide Tagged, Binned, SizesAgree, DvOK;
    forall p | p in Live(s.chunks) - {q}
      ensures GranulesKept(m, ByteStored(m, a, b), p, Live(s.chunks)[p])
    {
      LiveTag(s, p);
      BoundaryAligned(s.chunks, s.base, s.top, p);
      ApartBlocks(s, p, q);
      StoreKeeps(m, w, SetDigit(Word(m, w), a % 4, b), q, s.chunks[q].size, p, s.chunks[p].size);
    }
  }

  /** The block at p was replaced by one of n bytes at q, which is p itself or was not live. */
  ghost predicate Exchanged(before: map<int, Chunk>, after: map<int, Chunk>, p: int, q: int, n: int) {
    && p in Live(before) && (q == p || q !in Live(before))
    && Live(after) == (Live(before) - {p})[q := n]
  }

  lemma MoveFits(s1: State, before: map<int, Chunk>, p: int, q: int, bytes: nat)
    requires Sane(s1, {}) && bytes < MAX_REQUEST && p in Live(before) && Added(before, s1.chunks, q, RequestSize(bytes))
    ensures p != q && p in Live(s1.chunks) && q in Live(s1.chunks) && Live(s1.chunks)[p] == Live(before)[p]
    ensures Live(s1.chunks)[q] == RequestSize(bytes) && bytes + 8 <= RequestSize(bytes)
    ensures p in s1.chunks && ChunkSize(Rd(s1.head, p)) == Live(before)[p] >= MIN_CHUNK_SIZE
  {
    hide RequestSize, Rd, ChunkSize;
    RequestFits(bytes);
    hide Sane;
    LiveTag(s1, p);
  }

  lemma MoveReplaced(before: map<int, Chunk>, mid: map<int, Chunk>, after: map<int, Chunk>, p: int, q: int, n: int)
    requires p in Live(before) && Added(before, mid, q, n) && Removed(mid, after, p)
    ensures Exchanged(before, after, p, q, n)
  {
    hide Live;
  }

  lemma MoveKept(before: map<int, Chunk>, mid: map<int, Chunk>, m: Memory, m1: Memory, m2: Memory, m3: Memory, p: int,
                 q: int, n: int)
    requires Added(before, mid, q, n) && KeptFor(m, m1, Live(before))
    requires KeptFor(m1, m2, Live(mid) - {q}) && KeptFor(m2, m3, Live(mid) - {p})
    ensures KeptFor(m, m3, Live(before) - {p})
  {
    hide Live, KeptFor;
    var live := Live(before) - {p};
    KeptFewer(m, m1, Live(before), live);
    KeptFewer(m1, m2, Live(mid) - {q}, live);
    KeptFewer(m2, m3, Live(mid) - {p}, live);
    KeptTrans(m, m1, m2, live);
    KeptTrans(m, m2, m3, live);
  }

  lemma LiveAligned(s: State, p: int)
    requires Sane(s, {}) && p in Live(s.chunks)
    ensures Aligned(p) && Live(s.chunks)[p] % 32 == 0
  {
    hide Rd;
    LiveTag(s, p);
    BoundaryAligned(s.chunks, s.base, s.top, p);
  }

  lemma ThreeCopies(m: Memory, m1: Memory, m2: Memory, m3: Memory, p: int, q: int, k: int, n: int, l: int)
    requires SameBytes(m, p, m1, p, k) && SameBytes(m1, p, m2, q, n) && SameBytes(m2, q, m3, q, l) && n <= k && n <= l
    ensures SameBytes(m, p, m3, q, n)
  {
    hide ByteAt;
    forall i | 0 <= i < n
      ensures SameByte(m, p, m3, q, i)
    {
      assert SameByte(m, p, m1, p, i) && SameByte(m1, p, m2, q, i) && SameByte(m2, q, m3, q, i);
    }
  }

  lemma KeptAt(m: Memory, m': Memory, live: map<int, int>, p: int)
    requires KeptFor(m, m', live) && p in live
    ensures GranulesKept(m, m', p, live[p])
  {
  }

  /** The old block's bytes survive the allocation, are copied, and survive the old block's release. */
  lemma MoveBytes(s1: State, before: map<int, Chunk>, m: Memory, m1: Memory, m2: Memory, m3: Memory, p: int, q: int,
                  bytes: nat)
    requires Sane(s1, {}) && bytes < MAX_REQUEST && p in Live(before) && Added(before, s1.chunks, q, RequestSize(bytes))
    requires KeptFor(m, m1, Live(before)) && KeptFor(m2, m3, Live(s1.chunks) - {p})
    requires var n := Least(Live(before)[p] - 8, bytes); SameBytes(m1, p + 8, m2, q + 8, n)
    ensures SameBytes(m, p + 8, m3, q + 8, Least(Live(before)[p] - 8, bytes))
  {
    hide RequestSize, KeptFor, SameBytes, Rd, Live, ChunkSize;
    var n := Least(Live(before)[p] - 8, bytes);
    MoveFits(s1, before, p, q, bytes);
    LiveAligned(s1, p);
    LiveAligned(s1, q);
    hide Sane;
    KeptAt(m, m1, Live(before), p);
    BytesKept(m, m1, p, Live(before)[p]);
    KeptAt(m2, m3, Live(s1.chunks) - {p}, q);
    BytesKept(m2, m3, q, Live(s1.chunks)[q]);
    ThreeCopies(m, m1, m2, m3, p + 8, q + 8, Live(before)[p] - 8, n, Live(s1.chunks)[q] - 8);
  }

  lemma FewerBytes(m: Memory, p: int, m': Memory, q: int, n: int, k: int)
    requires SameBytes(m, p, m', q, n) && k <= n
    ensures SameBytes(m, p, m', q, k)
  {
  }

  lemma InPlace(s: State, m: Memory, m': Memory, after: map<int, Chunk>, p: int, bytes: nat)
    requires Sane(s, {}) && bytes < MAX_REQUEST && Resized(s.chunks, after, p, RequestSize(bytes))
    requires KeptFor(m, m', Common(Live(s.chunks), p, RequestSize(bytes)))
    ensures Exchanged(s.chunks, after, p, p, RequestSize(bytes))
    ensures SameBytes(m, p + 8, m', p + 8, Least(Live(s.chunks)[p] - 8, bytes))
    ensures KeptFor(m, m', Live(s.chunks) - {p})
  {
    hide RequestSize, KeptFor, SameBytes, Rd;
    var nb, live := RequestSize(bytes), Live(s.chunks);
    RequestFits(bytes);
    LiveTag(s, p);
    BoundaryAligned(s.chunks, s.base, s.top, p);
    hide Sane;
    KeptFewer(m, m', Common(live, p, nb), live - {p});
    KeptAt(m, m', Common(live, p, nb), p);
    BytesKept(m, m', p, Common(live, p, nb)[p]);
    FewerBytes(m, p + 8, m', p + 8, Common(live, p, nb)[p] - 8, Least(live[p] - 8, bytes));
  }

  lemma LeadIsLive(c: map<int, Chunk>, mid: map<int, Chunk>, p: int, lead: int)
    requires p in c && Divided(c, mid, p, lead, c[p].size)
    ensures p in Live(mid)
  {
    hide Live;
  }

  lemma LeadLive(before: map<int, Chunk>, c: map<int, Chunk>, mid: map<int, Chunk>, after: map<int, Chunk>, p: int,
                 lead: int)
    requires p in c && Added(before, c, p, c[p].size) && Divided(c, mid, p, lead, c[p].size) && Removed(mid, after, p)
    ensures Added(before, after, p + lead, c[p].size - lead)
  {
    hide Live;
  }

  lemma LeadRest(before: map<int, Chunk>, c: map<int, Chunk>, mid: map<int, Chunk>, p: int, lead: int)
    requires p in c && Added(before, c, p, c[p].size) && Divided(c, mid, p, lead, c[p].size)
    ensures forall q :: q in Live(before) ==> q in Live(mid) - {p} && (Live(mid) - {p})[q] == Live(before)[q]
  {
    hide Live;
  }

  ghost predicate LeadWords(s: State, p: int, lead: int, h: map<int, int>, f: map<int, int>)
    requires p in s.chunks
  {
    var n := s.chunks[p].size;
    && h == InuseHead(InuseHead(s.head, p + lead, n - lead), p, lead)
    && f == s.foot[p + lead + (n - lead) := s.cookie][p + lead := s.cookie]
  }

  lemma LeadOK(s: State, p: int, lead: int, h: map<int, int>, f: map<int, int>)
    requires Sane(s, {}) && p in Live(s.chunks) && Sound(lead) && lead < s.chunks[p].size && LeadWords(s, p, lead, h, f)
    ensures Sane(s.(head := h, foot := f, chunks := Two(s.chunks, p, p + lead, p + s.chunks[p].size, true, true)), {})
  {
    hide Sane, Pack, InuseHead, SetPinuse;
    var n := s.chunks[p].size;
    LiveTag(s, p);
    LoneSpan(s, p);
    SoundPositive(lead);
    Mod32(n / 32 - lead / 32, 0);
    BackThenFront(s.head, p, lead, n, s.chunks[p]);
    NextInuse(s, {}, h, p + n);
    LiveTwoOK(s, {}, p, p + lead, p + n, h, f);
  }

  lemma OthersClear(s: State, before: map<int, Chunk>, p: int)
    requires Sane(s, {}) && p in Live(s.chunks) && Added(before, s.chunks, p, s.chunks[p].size)
    ensures forall q :: q in Live(before) ==>
              q != p && q in s.chunks && s.chunks[q].size == Live(before)[q] && !(p <= q < p + s.chunks[p].size)
  {
    forall q | q in Live(before)
      ensures q != p && q in s.chunks && s.chunks[q].size == Live(before)[q] && !(p <= q < p + s.chunks[p].size)
    {
      assert q in Live(s.chunks);
      if p <= q < p + s.chunks[p].size { OnlyStart(s, {}, p, q); }
    }
  }

  lemma LeadKept(s: State, m: Memory, before: map<int, Chunk>, p: int, lead: int, h: map<int, int>, f: map<int, int>)
    requires Sane(s, {}) && p in Live(s.chunks) && Sound(lead) && lead < s.chunks[p].size && LeadWords(s, p, lead, h, f)
    requires Added(before, s.chunks, p, s.chunks[p].size) && m.head == s.head && m.foot == s.foot
    ensures KeptFor(m, Memory(h, f, m.v), Live(before))
  {
    hide Sane, Pack, InuseHead, SetPinuse, KeptFor;
    var n := s.chunks[p].size;
    LiveTag(s, p);
    LoneSpan(s, p);
    SoundPositive(lead);
    Mod32(n / 32 - lead / 32, 0);
    BackThenFront(s.head, p, lead, n, s.chunks[p]);
    LiveGrows(before, s.chunks, p, n);
    OthersClear(s, before, p);
    ResizeKept(s, {}, m, p, p + n, lead, h, f, {p, p + lead, p + n}, Live(before));
  }

  lemma TailLive(before: map<int, Chunk>, mid: map<int, Chunk>, after: map<int, Chunk>, p: int, nb: int)
    requires p in mid && Added(before, mid, p, mid[p].size) && Resized(mid, after, p, nb)
    ensures Added(before, after, p, nb)
    ensures p in Live(mid)
    ensures forall q :: q in Live(before) ==>
            q in Common(Live(mid), p, nb) && Common(Live(mid), p, nb)[q] == Live(before)[q]
  {
    hide Live;
  }

  lemma Overallocated(s: State, before: map<int, Chunk>, p: int, req: nat)
    requires Sane(s, {}) && req < MAX_REQUEST && Added(before, s.chunks, p, RequestSize(req))
    ensures p in Live(s.chunks) && p in s.chunks && s.chunks[p].size == RequestSize(req) >= req + CHUNK_OVERHEAD
    ensures p >= HEAP_LOW && (p + 8) % 32 == 0 && s.chunks[p].size % 32 == 0 && p + s.chunks[p].size <= WORD
  {
    hide Rd, RequestSize;
    RequestFits(req);
    LiveTag(s, p);
    BoundaryAligned(s.chunks, s.base, s.top, p);
    BoundaryAligned(s.chunks, s.base, s.top, p + s.chunks[p].size);
    NoNull(s, {});
    Mod32(p / 32 + 1, 0);
  }

  lemma BlockSize(s: State, before: map<int, Chunk>, p: int)
    requires Sane(s, {}) && exists n :: Added(before, s.chunks, p, n)
    ensures p in Live(s.chunks) && Added(before, s.chunks, p, s.chunks[p].size)
    ensures ChunkSize(Rd(s.head, p)) == s.chunks[p].size
    ensures forall n :: Added(before, s.chunks, p, n) ==> n == s.chunks[p].size
  {
    hide Sane, ChunkSize, Rd;
    LiveTag(s, p);
  }

  lemma AlignedBy32(s: State, mem: int, alignment: nat)
    requires Sane(s, {}) && mem - 8 in Live(s.chunks) && alignment <= 32
    ensures AlignedFor(mem, alignment)
  {
    hide Live, Sane;
    LiveAligned(s, mem - 8);
    PowersOfTwo();
    assert IsPower(32);
    Mod32((mem - 8) / 32 + 1, 0);
  }

  lemma LiveOrFree(s: State, p: int)
    requires Sane(s, {}) && p in s.chunks
    ensures var c := s.chunks[p];
            && ChunkSize(Rd(s.head, p)) == c.size > 0 && Cinuse(Rd(s.head, p)) == c.inuse
            && Pinuse(Rd(s.head, p)) == c.pinuse
            && Boundary(s.chunks, s.top, p + c.size) && p + c.size <= s.top
            && c.size % 32 == 0
            && (p + c.size in s.chunks ==> s.chunks[p + c.size].pinuse == c.inuse) && (p + c.size == s.top ==> c.inuse)
  {
    hide Apart, Rd, ChunkSize, Cinuse, Pinuse, Pack, Binned, SizesAgree, DvOK;
    assert ChunkOK(s.chunks, s.base, s.top, p);
    assert TagOK(s.head, s.foot, s.chunks, s.cookie, p);
    Unpack(s.chunks[p]);
    TopNotChunk(s, {});
  }

  lemma OddHead(s: State)
    requires Sane(s, {})
    ensures Pinuse(Rd(s.head, s.top))
  {
    hide Tiled, Tagged, Binned, SizesAgree, DvOK;
    Mod2(16 * (s.topsize / 32) + 8, 1);
  }

  lemma WalkStart(s: State)
    requires Sane(s, {})
    ensures Boundary(s.chunks, s.top, s.base) && s.base <= s.top && s.top + s.topsize + TOP_FOOT_SIZE == s.end
    ensures Pinuse(Rd(s.head, s.base))
  {
    hide Binned, SizesAgree, DvOK, Apart, Rd, Pinuse, Cinuse, ChunkSize, Pack, Tagged;
    if s.base == s.top {
      OddHead(s);
    } else {
      LiveOrFree(s, s.base);
    }
  }

  /** The size under which bin_find looks for q is that of the bins, and q is in them if it is free and not the
      victim. */
  lemma WalkFind(s: State, q: int)
    requires Sane(s, {}) && q in s.chunks
    ensures q >= HEAP_LOW && SizeOK(ChunkSize(Rd(s.head, q))) && (q in s.size ==> s.size[q] == ChunkSize(Rd(s.head, q)))
    ensures q in s.size <==> !s.chunks[q].inuse && q != s.dv
  {
    hide Apart, Rd, ChunkSize, Cinuse, Pinuse, Pack, Tagged, DvOK;
    LiveOrFree(s, q);
    assert ChunkOK(s.chunks, s.base, s.top, q);
  }

  lemma WalkStep(s: State, q: int)
    requires Sane(s, {}) && q in s.chunks
    ensures var c := s.chunks[q]; var e := q + c.size;
            && ChunkSize(Rd(s.head, q)) == c.size > 0 && Cinuse(Rd(s.head, q)) == c.inuse
            && Pinuse(Rd(s.head, q)) == c.pinuse
            && Boundary(s.chunks, s.top, e) && e <= s.top
            && (Pinuse(Rd(s.head, e)) <==> c.inuse) && (!c.inuse ==> Rd(s.foot, e) == c.size && c.pinuse)
            && (!c.inuse ==> Cinuse(Rd(s.head, e))) && c.size % 32 == 0
            && (!c.pinuse ==> var r := q - Rd(s.foot, q); r + ChunkSize(Rd(s.head, r)) == q)
  {
    hide Rd, ChunkSize, Cinuse, Pinuse, Pack;
    LiveOrFree(s, q);
    var c := s.chunks[q];
    var e := q + c.size;
    if e in s.chunks {
      LiveOrFree(s, e);
    } else {
      OddHead(s);
    }
    if !c.inuse { FreeChunk(s, {}, q); }
    if !c.pinuse {
      var r := PrevChunk(s, {}, q);
      LiveOrFree(s, r);
    }
  }

  lemma WalkLast(s: State, lastq: int, q: int)
    requires Sane(s, {}) && q in s.chunks && !s.chunks[q].inuse
    requires lastq != 0 ==> lastq in s.chunks && lastq + s.chunks[lastq].size == q
    ensures lastq != 0 ==> Cinuse(Rd(s.head, lastq))
  {
    hide Rd, ChunkSize, Cinuse, Pinuse, Pack;
    FreeChunk(s, {}, q);
    if lastq != 0 { LiveOrFree(s, lastq); }
  }
}
