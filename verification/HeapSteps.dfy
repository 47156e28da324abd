/** Each rewriting of chunks and tags that the allocator performs, with the invariant it keeps. */
module HeapSteps {
  import opened Words
  import opened Layout
  import opened Bins
  import opened Tiling
  import opened Heap

  /** Free chunks, and their sizes, after a region became one chunk. */
  lemma FreeAfterOne(chunks: map<int, Chunk>, a: int, e: int, u: bool)
    requires a in chunks && a < e
    ensures forall c :: IsFree(One(chunks, a, e, u), c) <==> (IsFree(chunks, c) && !(a <= c < e)) || (c == a && !u)
    ensures forall c :: c in chunks && !(a <= c < e) && c != a ==>
            c in One(chunks, a, e, u) && One(chunks, a, e, u)[c].size == chunks[c].size
  {
  }

  lemma FreeAfterTwo(chunks: map<int, Chunk>, a: int, b: int, e: int, u: bool, w: bool)
    requires a in chunks && a < b < e
    ensures forall c :: IsFree(Two(chunks, a, b, e, u, w), c) <==>
              (IsFree(chunks, c) && !(a <= c < e)) || (c == a && !u) || (c == b && !w)
    ensures forall c :: c in chunks && !(a <= c < e) ==>
            c in Two(chunks, a, b, e, u, w) && Two(chunks, a, b, e, u, w)[c].size == chunks[c].size
  {
  }

  lemma FreeAfterEnd(chunks: map<int, Chunk>, a: int, n: int)
    ensures forall c :: IsFree(EndAt(chunks, a, n), c) <==> IsFree(chunks, c) && c < a
    ensures forall c :: c in chunks && c < a ==>
            c in EndAt(chunks, a, n) && EndAt(chunks, a, n)[c].size == chunks[c].size
  {
  }

  /** Only a itself begins inside the chunk at a. */
  lemma OnlyStart(s: State, limbo: set<int>, a: int, c: int)
    requires Sane(s, limbo) && a in s.chunks && c in s.chunks && a <= c < a + s.chunks[a].size
    ensures c == a
  {
  }

  /** A free chunk is followed by an in-use chunk whose pinuse bit is clear. */
  lemma FreeChunk(s: State, limbo: set<int>, p: int)
    requires Sane(s, limbo) && IsFree(s.chunks, p)
    ensures var c := s.chunks[p]; var e := p + c.size;
            && c.pinuse && Sound(c.size) && SizeOK(c.size) && Aligned(p) && s.base <= p && e < s.top
            && e in s.chunks && s.chunks[e].inuse && !s.chunks[e].pinuse
            && Rd(s.head, p) == Pack(c) && Rd(s.head, e) == Pack(s.chunks[e]) && Rd(s.foot, e) == c.size
            && s.chunks[e].size % 32 == 0 && p >= HEAP_LOW
  {
    assert ChunkOK(s.chunks, s.base, s.top, p);
    var e := p + s.chunks[p].size;
    assert ChunkOK(s.chunks, s.base, s.top, e);
    assert TagOK(s.head, s.foot, s.chunks, s.cookie, p);
    assert TagOK(s.head, s.foot, s.chunks, s.cookie, e);
  }

  /** set_inuse_and_pinuse on a whole free chunk. */
  function MarkedWhole(s: State, p: int, n: int): State {
    var head1 := s.head[p := n + 3];
    s.(head := head1[p + n := SetPinuse(Rd(head1, p + n))], foot := s.foot[p + n := s.cookie])
  }

  lemma FreeInside(s: State, limbo: set<int>, p: int)
    requires Sane(s, limbo) && p in limbo && p in s.chunks
    ensures s.chunks[p].size > 0 && IsFree(s.chunks, p)
    ensures forall c :: c in s.chunks && p <= c < p + s.chunks[p].size ==> c == p
  {
    assert ChunkOK(s.chunks, s.base, s.top, p);
  }

  lemma MarkWholeWords(s: State, p: int, n: int, c: Chunk)
    requires n > 0 && Rd(s.head, p + n) == Pack(c) && c.size % 32 == 0 && SetPinuse(Pack(c)) == Pack(c.(pinuse := true))
    ensures var s', e := MarkedWhole(s, p, n), p + n;
            && SameBut(s.head, s'.head, {p, e}) && SameBut(s.foot, s'.foot, {e})
            && Rd(s'.head, p) == Pack(Chunk(n, true, true)) && Rd(s'.head, e) == Pack(c.(pinuse := true))
            && Rd(s'.foot, e) == s.cookie
  {
  }

  lemma MarkWholeTags(s: State, limbo: set<int>, p: int, n: int)
    requires Sane(s, limbo) && p in limbo && p in s.chunks && n == s.chunks[p].size
    ensures var s' := MarkedWhole(s, p, n);
            && Tiled(One(s.chunks, p, p + n, true), s.base, s.top)
            && Tagged(s'.head, s'.foot, One(s.chunks, p, p + n, true), s.cookie)
            && Rd(s'.head, s.top) == s.topsize + 1
  {
    hide Tagged, Binned, SizesAgree, Pack, ChunkSize, One, SetPinuse, DvOK, Rd, MarkedWhole, ChunkOK, Apart, Aligned,
         Sound;
    var e := p + n;
    var s' := MarkedWhole(s, p, n);
    FreeChunk(s, limbo, p);
    Unpack(s.chunks[e]);
    OneTiled(s.chunks, s.base, s.top, p, e, true);
    MarkWholeWords(s, p, n, s.chunks[e]);
    OneTagged(s.head, s.foot, s'.head, s'.foot, s.chunks, s.cookie, s.base, s.top, p, e, true);
  }

  lemma MarkWholeBins(s: State, limbo: set<int>, p: int, e: int)
    requires Binned(s.chunks, s.size, s.dv, limbo) && SizesAgree(s.chunks, s.size) && DvOK(s.chunks, s.dv, s.dvsize)
    requires s.dv !in limbo && forall c :: c in limbo ==> IsFree(s.chunks, c)
    requires p in limbo && p in s.chunks && p < e && forall c :: c in s.chunks && p <= c < e ==> c == p
    ensures var chunks' := One(s.chunks, p, e, true);
            && Binned(chunks', s.size, s.dv, limbo - {p}) && SizesAgree(chunks', s.size)
            && DvOK(chunks', s.dv, s.dvsize)
            && forall c :: c in limbo - {p} ==> IsFree(chunks', c)
  {
    hide One;
    FreeAfterOne(s.chunks, p, e, true);
  }

  lemma MarkWholeOK(s: State, limbo: set<int>, p: int, n: int)
    requires Sane(s, limbo) && p in limbo && p in s.chunks && n == s.chunks[p].size
    ensures Sane(MarkedWhole(s, p, n).(chunks := One(s.chunks, p, p + n, true)), limbo - {p})
  {
    hide Tiled, Tagged, Binned, SizesAgree, Rd, One, DvOK, SetPinuse, IsFree;
    FreeInside(s, limbo, p);
    MarkWholeTags(s, limbo, p, n);
    MarkWholeBins(s, limbo, p, p + n);
  }

  // ---- splitting a free chunk into an allocated front and a free rest ----

  lemma PackIs(n: int, u: bool, w: bool)
    ensures Pack(Chunk(n, u, w)) == n + (if u then 2 else 0) + (if w then 1 else 0)
  {
  }

  lemma SoundPositive(n: int)
    requires Sound(n)
    ensures n >= MIN_CHUNK_SIZE
  {
  }

  lemma SplitTags(s: State, limbo: set<int>, p: int, nb: int, head': map<int, int>, foot': map<int, int>)
    requires Sane(s, limbo) && IsFree(s.chunks, p) && Sound(nb) && nb < s.chunks[p].size
    requires var e := p + s.chunks[p].size;
             && SameBut(s.head, head', {p, p + nb}) && SameBut(s.foot, foot', {p + nb, e})
             && Rd(head', p) == nb + 3 && Rd(head', p + nb) == s.chunks[p].size - nb + 1
             && Rd(foot', p + nb) == s.cookie && Rd(foot', e) == s.chunks[p].size - nb
    ensures var chunks' := Two(s.chunks, p, p + nb, p + s.chunks[p].size, true, false);
            && Tiled(chunks', s.base, s.top) && Tagged(head', foot', chunks', s.cookie)
            && Rd(head', s.top) == s.topsize + 1
  {
    hide Tagged, Binned, SizesAgree, Pack, ChunkSize, Two, DvOK, Rd, ChunkOK, Apart, Aligned, Sound;
    var e := p + s.chunks[p].size;
    FreeChunk(s, limbo, p);
    SoundPositive(nb);
    TwoTiled(s.chunks, s.base, s.top, p, p + nb, e, true, false);
    PackIs(nb, true, true);
    PackIs(e - (p + nb), false, true);
    assert s.chunks[e].(pinuse := false) == s.chunks[e];
    TwoTagged(s.head, s.foot, head', foot', s.chunks, s.cookie, s.base, s.top, p, p + nb, e, true, false);
  }

  lemma NotDv(s: State, p: int, r: int, e: int)
    requires DvOK(s.chunks, s.dv, s.dvsize) && p < r < e && forall c :: c in s.chunks && p <= c < e ==> c == p
    ensures s.dvsize != 0 ==> s.dv != r
    ensures s.dvsize == 0 ==> s.dv == 0
  {
  }

  lemma TwoRest(chunks: map<int, Chunk>, p: int, r: int, e: int)
    requires p in chunks && p < r < e
    ensures var t := Two(chunks, p, r, e, true, false); r in t && t[r] == Chunk(e - r, false, true)
  {
  }

  lemma SplitBins(s: State, limbo: set<int>, p: int, r: int, e: int)
    requires Binned(s.chunks, s.size, s.dv, limbo) && SizesAgree(s.chunks, s.size) && DvOK(s.chunks, s.dv, s.dvsize)
    requires s.dv !in limbo && forall c :: c in limbo ==> IsFree(s.chunks, c)
    requires p in limbo && p in s.chunks && p < r < e && r >= HEAP_LOW && forall c :: c in s.chunks && p <= c < e ==>
             c == p
    ensures var chunks' := Two(s.chunks, p, r, e, true, false);
            && Binned(chunks', s.size, s.dv, limbo - {p} + {r}) && SizesAgree(chunks', s.size)
            && DvOK(chunks', s.dv, s.dvsize)
            && s.dv != r && r !in s.size && (forall c :: c in limbo - {p} + {r} ==> IsFree(chunks', c))
            && chunks'[r].size == e - r
  {
    hide Two;
    FreeAfterTwo(s.chunks, p, r, e, true, false);
    TwoRest(s.chunks, p, r, e);
    NotDv(s, p, r, e);
  }

  lemma BaseAddress(s: State, limbo: set<int>, q: int)
    requires Sane(s, limbo) && q in s.chunks
    ensures q >= HEAP_LOW
  {
    assert ChunkOK(s.chunks, s.base, s.top, q);
  }

  /** The front is live, the rest r is free and in no bin yet. */
  lemma SplitOK(s: State, limbo: set<int>, p: int, nb: int, head': map<int, int>, foot': map<int, int>)
    requires Sane(s, limbo) && p in limbo && p in s.chunks && Sound(nb) && nb < s.chunks[p].size
    requires var e := p + s.chunks[p].size;
             && SameBut(s.head, head', {p, p + nb}) && SameBut(s.foot, foot', {p + nb, e})
             && Rd(head', p) == nb + 3 && Rd(head', p + nb) == s.chunks[p].size - nb + 1
             && Rd(foot', p + nb) == s.cookie && Rd(foot', e) == s.chunks[p].size - nb
    ensures Sane(s.(head := head', foot := foot',
            chunks := Two(s.chunks, p, p + nb, p + s.chunks[p].size, true, false)),
                 limbo - {p} + {p + nb})
  {
    hide Tiled, Tagged, Binned, SizesAgree, Rd, Two, DvOK, IsFree, Sound;
    FreeInside(s, limbo, p);
    SplitTags(s, limbo, p, nb, head', foot');
    SoundPositive(nb);
    BaseAddress(s, limbo, p);
    SplitBins(s, limbo, p, p + nb, p + s.chunks[p].size);
  }

  // ---- merging free neighbours ----

  /** The region [q, e) becomes one free chunk; e is in use and its pinuse bit is cleared. */
  lemma MergeTags(s: State, limbo: set<int>, q: int, e: int, head': map<int, int>, foot': map<int, int>)
    requires Sane(s, limbo) && q in s.chunks && s.chunks[q].pinuse && e in s.chunks && s.chunks[e].inuse && q < e
    requires SameBut(s.head, head', {q, e}) && SameBut(s.foot, foot', {e})
    requires Rd(head', q) == e - q + 1 && Rd(head', e) == Pack(s.chunks[e].(pinuse := false)) && Rd(foot', e) == e - q
    ensures var chunks' := One(s.chunks, q, e, false);
            && Tiled(chunks', s.base, s.top) && Tagged(head', foot', chunks', s.cookie)
            && Rd(head', s.top) == s.topsize + 1
  {
    hide Tagged, Binned, SizesAgree, Pack, ChunkSize, One, DvOK, Rd, Apart, Aligned, Sound;
    assert ChunkOK(s.chunks, s.base, s.top, e) && ChunkOK(s.chunks, s.base, s.top, q);
    OneTiled(s.chunks, s.base, s.top, q, e, false);
    PackIs(e - q, false, true);
    OneTagged(s.head, s.foot, head', foot', s.chunks, s.cookie, s.base, s.top, q, e, false);
  }

  lemma MergeBins(s: State, limbo: set<int>, q: int, e: int)
    requires q in s.chunks && q < e
    requires Binned(s.chunks, s.size, s.dv, limbo) && SizesAgree(s.chunks, s.size) && DvOK(s.chunks, s.dv, s.dvsize)
    requires forall c :: c in s.chunks && q <= c < e ==> c !in s.size && c != s.dv
    requires forall c :: c in limbo ==> q <= c < e
    ensures var chunks' := One(s.chunks, q, e, false);
            && Binned(chunks', s.size, s.dv, {q}) && SizesAgree(chunks', s.size) && DvOK(chunks', s.dv, s.dvsize)
            && s.dv != q && IsFree(chunks', q)
  {
    hide One;
    FreeAfterOne(s.chunks, q, e, false);
  }

  /** The merged chunk in no bin yet. */
  lemma MergeOK(s: State, limbo: set<int>, q: int, e: int, head': map<int, int>, foot': map<int, int>)
    requires Sane(s, limbo) && q in s.chunks && s.chunks[q].pinuse && e in s.chunks && s.chunks[e].inuse && q < e
    requires SameBut(s.head, head', {q, e}) && SameBut(s.foot, foot', {e})
    requires Rd(head', q) == e - q + 1 && Rd(head', e) == Pack(s.chunks[e].(pinuse := false)) && Rd(foot', e) == e - q
    requires forall c :: c in s.chunks && q <= c < e ==> c !in s.size && c != s.dv
    requires forall c :: c in limbo ==> q <= c < e
    ensures Sane(s.(head := head', foot := foot', chunks := One(s.chunks, q, e, false)), {q})
  {
    hide Tiled, Tagged, Rd, One, IsFree, Pack, Binned, SizesAgree, DvOK;
    MergeTags(s, limbo, q, e, head', foot');
    MergeBins(s, limbo, q, e);
  }

  lemma OneIs(chunks: map<int, Chunk>, q: int, e: int)
    requires q in chunks && q < e
    ensures q in One(chunks, q, e, false) && One(chunks, q, e, false)[q].size == e - q
    ensures !One(chunks, q, e, false)[q].inuse
  {
  }

  lemma MergeDvBins(s: State, limbo: set<int>, q: int, e: int)
    requires q in s.chunks && q < e && q >= HEAP_LOW
    requires Binned(s.chunks, s.size, s.dv, limbo) && SizesAgree(s.chunks, s.size)
    requires forall c :: c in s.chunks && q <= c < e ==> c !in s.size
    requires q <= s.dv < e && forall c :: c in limbo ==> q <= c < e
    ensures var chunks' := One(s.chunks, q, e, false);
            && Binned(chunks', s.size, q, {}) && SizesAgree(chunks', s.size) && DvOK(chunks', q, e - q)
  {
    hide One;
    FreeAfterOne(s.chunks, q, e, false);
    OneIs(s.chunks, q, e);
  }

  /** The merged chunk as the designated victim. */
  lemma MergeDvOK(s: State, limbo: set<int>, q: int, e: int, head': map<int, int>, foot': map<int, int>)
    requires Sane(s, limbo) && q in s.chunks && s.chunks[q].pinuse && e in s.chunks && s.chunks[e].inuse && q < e
    requires SameBut(s.head, head', {q, e}) && SameBut(s.foot, foot', {e})
    requires Rd(head', q) == e - q + 1 && Rd(head', e) == Pack(s.chunks[e].(pinuse := false)) && Rd(foot', e) == e - q
    requires forall c :: c in s.chunks && q <= c < e ==> c !in s.size
    requires s.dv != 0 && q <= s.dv < e && forall c :: c in limbo ==> q <= c < e
    ensures Sane(s.(head := head', foot := foot', chunks := One(s.chunks, q, e, false), dv := q, dvsize := e - q), {})
  {
    hide Tiled, Tagged, Rd, One, IsFree, Pack, Binned, SizesAgree, DvOK;
    MergeTags(s, limbo, q, e, head', foot');
    BaseAddress(s, limbo, q);
    MergeDvBins(s, limbo, q, e);
  }

  // ---- the end of the segment ----

  /** Everything from a on becomes top space, except that [a, n) may become one live chunk. */
  lemma EndTags(s: State, limbo: set<int>, a: int, n: int, head': map<int, int>, foot': map<int, int>)
    requires Sane(s, limbo) && Boundary(s.chunks, s.top, a) && a <= n < WORD && Aligned(n)
    requires a == n ==> a in s.chunks && s.chunks[a].pinuse
    requires SameBut(s.head, head', {a, n}) && SameBut(s.foot, foot', if a < n then {n} else {})
    requires a < n ==> Rd(head', a) == Pack(Chunk(n - a, true, if a in s.chunks then s.chunks[a].pinuse else true))
    requires a < n ==> Rd(foot', n) == s.cookie
    ensures Tiled(EndAt(s.chunks, a, n), s.base, n) && Tagged(head', foot', EndAt(s.chunks, a, n), s.cookie)
  {
    hide Tagged, Binned, SizesAgree, Pack, ChunkSize, EndAt, DvOK, Rd, Apart, Aligned, Sound, ChunkOK;
    EndTiled(s.chunks, s.base, s.top, a, n);
    EndTagged(s.head, s.foot, head', foot', s.chunks, s.cookie, s.base, s.top, a, n);
  }

  lemma NoNull(s: State, limbo: set<int>)
    requires Sane(s, limbo)
    ensures forall c :: c in s.chunks ==> c >= HEAP_LOW
  {
    hide Tagged, Rd, Apart;
    forall c | c in s.chunks
      ensures c >= HEAP_LOW
    {
      assert ChunkOK(s.chunks, s.base, s.top, c);
    }
  }

  lemma TopAligned(s: State, limbo: set<int>, n: int, topsize': int)
    requires Sane(s, limbo) && Aligned(n) && n + topsize' == s.top + s.topsize
    ensures topsize' % 32 == 16
  {
    hide Tagged, Binned, SizesAgree, DvOK, ChunkOK, Apart;
    Mod32(s.top / 32 + s.topsize / 32 - n / 32, 16);
  }

  lemma EndBins(s: State, limbo: set<int>, a: int, n: int, dv': int, dvsize': int)
    requires Binned(s.chunks, s.size, s.dv, limbo) && SizesAgree(s.chunks, s.size) && DvOK(s.chunks, s.dv, s.dvsize)
    requires forall c :: c in s.chunks && a <= c ==> c !in s.size
    requires forall c :: c in limbo ==> a <= c
    requires if s.dv >= a then dv' == 0 && dvsize' == 0 else dv' == s.dv && dvsize' == s.dvsize
    requires 0 !in s.chunks
    ensures var chunks' := EndAt(s.chunks, a, n);
            && Binned(chunks', s.size, dv', {}) && SizesAgree(chunks', s.size) && DvOK(chunks', dv', dvsize')
  {
    hide EndAt;
    FreeAfterEnd(s.chunks, a, n);
  }

  lemma EndOK(s: State, limbo: set<int>, a: int, n: int, head': map<int, int>, foot': map<int, int>, dv': int,
              dvsize': int, topsize': int)
    requires Sane(s, limbo) && Boundary(s.chunks, s.top, a) && a <= n < WORD && Aligned(n)
    requires a == n ==> a in s.chunks && s.chunks[a].pinuse
    requires SameBut(s.head, head', {a, n}) && SameBut(s.foot, foot', if a < n then {n} else {})
    requires a < n ==> Rd(head', a) == Pack(Chunk(n - a, true, if a in s.chunks then s.chunks[a].pinuse else true))
    requires a < n ==> Rd(foot', n) == s.cookie
    requires n + topsize' == s.top + s.topsize && 0 < topsize' && Rd(head', n) == topsize' + 1
    requires forall c :: c in s.chunks && a <= c ==> c !in s.size
    requires forall c :: c in limbo ==> a <= c
    requires if s.dv >= a then dv' == 0 && dvsize' == 0 else dv' == s.dv && dvsize' == s.dvsize
    ensures Sane(s.(head := head', foot := foot', chunks := EndAt(s.chunks, a, n), dv := dv', dvsize := dvsize',
                    top := n, topsize := topsize'), {})
  {
    hide Tiled, Tagged, Rd, EndAt, IsFree, Pack, Binned, SizesAgree, DvOK;
    EndTags(s, limbo, a, n, head', foot');
    NoNull(s, limbo);
    EndBins(s, limbo, a, n, dv', dvsize');
    TopAligned(s, limbo, n, topsize');
  }

  // ---- bins ----

  /** An unbinned free chunk enters a bin. */
  lemma BinOK(s: State, limbo: set<int>, r: int, size': map<int, int>)
    requires Sane(s, limbo) && r in limbo && r in s.chunks && size' == s.size[r := s.chunks[r].size]
    ensures Sane(s.(size := size'), limbo - {r})
  {
    hide Tiled, Tagged, Rd;
  }

  /** A binned chunk leaves its bin. */
  lemma UnbinOK(s: State, limbo: set<int>, c: int, size': map<int, int>)
    requires Sane(s, limbo) && c in s.size && size' == s.size - {c}
    ensures Sane(s.(size := size'), limbo + {c})
  {
    hide Tiled, Tagged, Rd;
  }

  /** The designated victim is given up, and either becomes unbinned or is replaced. */
  lemma DropDvOK(s: State, limbo: set<int>)
    requires Sane(s, limbo) && s.dv != 0
    ensures Sane(s.(dv := 0, dvsize := 0), limbo + {s.dv})
  {
    hide Tiled, Tagged, Rd;
    NoNull(s, limbo);
  }

  lemma SizePositive(s: State, limbo: set<int>, r: int)
    requires Sane(s, limbo) && r in s.chunks
    ensures s.chunks[r].size > 0
  {
    assert ChunkOK(s.chunks, s.base, s.top, r);
  }

  lemma NewDvOK(s: State, r: int)
    requires Sane(s, {r}) && r in s.chunks && s.dv == 0
    ensures Sane(s.(dv := r, dvsize := s.chunks[r].size), {})
  {
    hide Tiled, Tagged, Rd;
    NoNull(s, {r});
    SizePositive(s, {r}, r);
  }

  // ---- live chunks that change their extent ----

  /** set_inuse: keeps p's own pinuse bit and sets the next chunk's. */
  function InuseHead(head: map<int, int>, p: int, n: int): map<int, int> {
    var h := head[p := Rd(head, p) % 2 + n + 2];
    h[p + n := SetPinuse(Rd(h, p + n))]
  }

  /** The head word of the chunk, or of top, that begins at e. */
  ghost predicate NextHeadOK(s: State, head': map<int, int>, e: int, w: bool) {
    && (e in s.chunks ==> Rd(head', e) == Pack(s.chunks[e].(pinuse := w)))
    && (e == s.top ==> Rd(head', e) == s.topsize + 1)
  }

  lemma LiveOneTags(s: State, limbo: set<int>, a: int, e: int, head': map<int, int>, foot': map<int, int>)
    requires Sane(s, limbo) && a in s.chunks && Boundary(s.chunks, s.top, e) && a < e
    requires SameBut(s.head, head', {a, e}) && SameBut(s.foot, foot', {e})
    requires Rd(head', a) == Pack(Chunk(e - a, true, s.chunks[a].pinuse)) && NextHeadOK(s, head', e, true)
    requires Rd(foot', e) == s.cookie
    ensures Tiled(One(s.chunks, a, e, true), s.base, s.top) && Tagged(head', foot', One(s.chunks, a, e, true), s.cookie)
    ensures Rd(head', s.top) == s.topsize + 1
  {
    hide Tagged, Binned, SizesAgree, Pack, ChunkSize, One, DvOK, Rd, Apart, Aligned, Sound;
    assert ChunkOK(s.chunks, s.base, s.top, a);
    OneTiled(s.chunks, s.base, s.top, a, e, true);
    OneTagged(s.head, s.foot, head', foot', s.chunks, s.cookie, s.base, s.top, a, e, true);
  }

  lemma LiveOneBins(s: State, limbo: set<int>, a: int, e: int, dv': int, dvsize': int)
    requires a in s.chunks && a < e && forall c :: c in s.chunks ==> c >= HEAP_LOW
    requires Binned(s.chunks, s.size, s.dv, limbo) && SizesAgree(s.chunks, s.size) && DvOK(s.chunks, s.dv, s.dvsize)
    requires forall c :: c in s.chunks && a <= c < e ==> c !in s.size
    requires forall c :: c in limbo ==> a <= c < e
    requires if a <= s.dv < e then dv' == 0 && dvsize' == 0 else dv' == s.dv && dvsize' == s.dvsize
    ensures var chunks' := One(s.chunks, a, e, true);
            && Binned(chunks', s.size, dv', {}) && SizesAgree(chunks', s.size) && DvOK(chunks', dv', dvsize')
  {
    hide One;
    FreeAfterOne(s.chunks, a, e, true);
  }

  /** The region [a, e), of which nothing is binned, becomes one live chunk. */
  lemma LiveOneOK(s: State, limbo: set<int>, a: int, e: int, head': map<int, int>, foot': map<int, int>, dv': int,
                  dvsize': int)
    requires Sane(s, limbo) && a in s.chunks && Boundary(s.chunks, s.top, e) && a < e
    requires SameBut(s.head, head', {a, e}) && SameBut(s.foot, foot', {e})
    requires Rd(head', a) == Pack(Chunk(e - a, true, s.chunks[a].pinuse)) && NextHeadOK(s, head', e, true)
    requires Rd(foot', e) == s.cookie
    requires forall c :: c in s.chunks && a <= c < e ==> c !in s.size
    requires forall c :: c in limbo ==> a <= c < e
    requires if a <= s.dv < e then dv' == 0 && dvsize' == 0 else dv' == s.dv && dvsize' == s.dvsize
    ensures Sane(s.(head := head', foot := foot', chunks := One(s.chunks, a, e, true), dv := dv', dvsize := dvsize'),
            {})
  {
    hide Tiled, Tagged, Rd, One, IsFree, Pack, Binned, SizesAgree, DvOK;
    LiveOneTags(s, limbo, a, e, head', foot');
    NoNull(s, limbo);
    LiveOneBins(s, limbo, a, e, dv', dvsize');
  }

  /** The region [a, e), of which nothing is binned, becomes a live chunk and a second chunk from b on. */
  lemma LiveTwoTags(s: State, limbo: set<int>, a: int, b: int, e: int, w: bool, head': map<int, int>,
                    foot': map<int, int>)
    requires Sane(s, limbo) && a in s.chunks && Boundary(s.chunks, s.top, e) && a < b < e && Sound(b - a)
    requires !w ==> e != s.top && s.chunks[e].inuse
    requires SameBut(s.head, head', {a, b, e}) && SameBut(s.foot, foot', {b, e})
    requires Rd(head', a) == Pack(Chunk(b - a, true, s.chunks[a].pinuse)) && Rd(head', b) == Pack(Chunk(e - b, w, true))
    requires NextHeadOK(s, head', e, w)
    requires Rd(foot', b) == s.cookie && Rd(foot', e) == if w then s.cookie else e - b
    ensures Tiled(Two(s.chunks, a, b, e, true, w), s.base, s.top)
    ensures Tagged(head', foot', Two(s.chunks, a, b, e, true, w), s.cookie)
    ensures Rd(head', s.top) == s.topsize + 1
  {
    hide Tagged, Binned, SizesAgree, Pack, ChunkSize, Two, DvOK, Rd, Apart, Aligned, Sound;
    BoundaryAligned(s.chunks, s.base, s.top, e);
    TwoTiled(s.chunks, s.base, s.top, a, b, e, true, w);
    TwoTagged(s.head, s.foot, head', foot', s.chunks, s.cookie, s.base, s.top, a, b, e, true, w);
  }

  lemma LiveTwoBins(s: State, limbo: set<int>, a: int, b: int, e: int)
    requires a in s.chunks && a < b < e
    requires Binned(s.chunks, s.size, s.dv, limbo) && SizesAgree(s.chunks, s.size) && DvOK(s.chunks, s.dv, s.dvsize)
    requires forall c :: c in s.chunks && a <= c < e ==> c !in s.size && c != s.dv
    requires forall c :: c in limbo ==> a <= c < e
    ensures var chunks' := Two(s.chunks, a, b, e, true, true);
            && Binned(chunks', s.size, s.dv, {}) && SizesAgree(chunks', s.size) && DvOK(chunks', s.dv, s.dvsize)
  {
    hide Two;
    FreeAfterTwo(s.chunks, a, b, e, true, true);
  }

  lemma LiveTwoOK(s: State, limbo: set<int>, a: int, b: int, e: int, head': map<int, int>, foot': map<int, int>)
    requires Sane(s, limbo) && a in s.chunks && Boundary(s.chunks, s.top, e) && a < b < e && Sound(b - a)
    requires SameBut(s.head, head', {a, b, e}) && SameBut(s.foot, foot', {b, e})
    requires Rd(head', a) == Pack(Chunk(b - a, true, s.chunks[a].pinuse))
    requires Rd(head', b) == Pack(Chunk(e - b, true, true))
    requires NextHeadOK(s, head', e, true)
    requires Rd(foot', b) == s.cookie && Rd(foot', e) == s.cookie
    requires forall c :: c in s.chunks && a <= c < e ==> c !in s.size && c != s.dv
    requires forall c :: c in limbo ==> a <= c < e
    ensures Sane(s.(head := head', foot := foot', chunks := Two(s.chunks, a, b, e, true, true)), {})
  {
    hide Tiled, Tagged, Rd, Two, IsFree, Pack, Binned, SizesAgree, DvOK;
    LiveTwoTags(s, limbo, a, b, e, true, head', foot');
    LiveTwoBins(s, limbo, a, b, e);
  }

  lemma NotBinnedInside(s: State, a: int, b: int, e: int)
    requires SizesAgree(s.chunks, s.size) && a < b < e && forall c :: c in s.chunks && a <= c < e ==> c !in s.size
    ensures b !in s.size
  {
  }

  lemma LiveTwoDvBins(s: State, limbo: set<int>, a: int, b: int, e: int)
    requires a in s.chunks && HEAP_LOW <= a < b < e
    requires Binned(s.chunks, s.size, s.dv, limbo) && SizesAgree(s.chunks, s.size)
    requires forall c :: c in s.chunks && a <= c < e ==> c !in s.size
    requires a <= s.dv < e && forall c :: c in limbo ==> a <= c < e
    ensures var chunks' := Two(s.chunks, a, b, e, true, false);
            && Binned(chunks', s.size, b, {}) && SizesAgree(chunks', s.size) && DvOK(chunks', b, e - b)
  {
    hide Two;
    FreeAfterTwo(s.chunks, a, b, e, true, false);
    TwoRest(s.chunks, a, b, e);
    NotBinnedInside(s, a, b, e);
  }

  /** As before, with a free second chunk that becomes the designated victim. */
  lemma LiveTwoDvOK(s: State, limbo: set<int>, a: int, b: int, e: int, head': map<int, int>, foot': map<int, int>)
    requires Sane(s, limbo) && a in s.chunks && Boundary(s.chunks, s.top, e) && a < b < e && Sound(b - a)
    requires e != s.top && s.chunks[e].inuse
    requires SameBut(s.head, head', {a, b, e}) && SameBut(s.foot, foot', {b, e})
    requires Rd(head', a) == Pack(Chunk(b - a, true, s.chunks[a].pinuse))
    requires Rd(head', b) == Pack(Chunk(e - b, false, true))
    requires NextHeadOK(s, head', e, false)
    requires Rd(foot', b) == s.cookie && Rd(foot', e) == e - b
    requires forall c :: c in s.chunks && a <= c < e ==> c !in s.size
    requires a <= s.dv < e && forall c :: c in limbo ==> a <= c < e
    ensures Sane(s.(head := head', foot := foot', chunks := Two(s.chunks, a, b, e, true, false), dv := b,
            dvsize := e - b), {})
  {
    hide Tiled, Tagged, Rd, Two, IsFree, Pack, Binned, SizesAgree, DvOK, Sound;
    LiveTwoTags(s, limbo, a, b, e, false, head', foot');
    BaseAddress(s, limbo, a);
    LiveTwoDvBins(s, limbo, a, b, e);
  }

  /** The binned chunks' head words give their sizes. */
  lemma HeadsOK(s: State, limbo: set<int>, c: int)
    requires Sane(s, limbo) && c in s.size
    ensures c in s.chunks && ChunkSize(Rd(s.head, c)) == s.size[c] && SizeOK(s.size[c]) && c >= HEAP_LOW
  {
    hide Apart, Rd, SizeOK;
    assert c in s.chunks && IsFree(s.chunks, c);
    FreeChunk(s, limbo, c);
    Unpack(s.chunks[c]);
  }

  lemma TopHeadOnly(s: State, h: int)
    requires Tiled(s.chunks, s.base, s.top) && Tagged(s.head, s.foot, s.chunks, s.cookie)
    ensures Tagged(s.head[s.top := h], s.foot, s.chunks, s.cookie)
  {
    forall p | p in s.chunks
      ensures TagOK(s.head[s.top := h], s.foot, s.chunks, s.cookie, p)
    {
      assert TagOK(s.head, s.foot, s.chunks, s.cookie, p);
      assert ChunkOK(s.chunks, s.base, s.top, p);
    }
  }

  /** The segment, and top with it, grows or shrinks at its end. */
  lemma ResizeTopOK(s: State, d: int)
    requires Sane(s, {}) && d % 32 == 0 && s.topsize + d > 0 && s.end + d <= WORD
    ensures Sane(s.(head := s.head[s.top := s.topsize + d + 1], topsize := s.topsize + d, end := s.end + d), {})
  {
    hide Tiled, Tagged, Binned, SizesAgree, DvOK;
    TopHeadOnly(s, s.topsize + d + 1);
    Mod32(s.topsize / 32 + d / 32, 16);
  }

  // ---- regions around a chunk that is being freed ----

  /** [q, e) consists of the live chunk p and of free chunks only. */
  ghost predicate Region(s: State, q: int, e: int, p: int) {
    && q in s.chunks && s.chunks[q].pinuse && q <= p < e && p in s.chunks && s.chunks[p].inuse
    && Boundary(s.chunks, s.top, e)
    && forall c :: c in s.chunks && q <= c < e && c != p ==> IsFree(s.chunks, c)
  }

  /** Every chunk but the first has a chunk that ends where it begins. */
  lemma {:induction false} Predecessor(s: State, limbo: set<int>, q: int, p: int) returns (r: int)
    requires Sane(s, limbo) && q in s.chunks && p in s.chunks && q < p
    ensures r in s.chunks && q <= r < p && r + s.chunks[r].size == p && s.chunks[r].inuse == s.chunks[p].pinuse
    decreases p - q
  {
    assert ChunkOK(s.chunks, s.base, s.top, q) && ChunkOK(s.chunks, s.base, s.top, p);
    var n := q + s.chunks[q].size;
    if n == p {
      r := q;
    } else {
      r := Predecessor(s, limbo, n, p);
    }
  }

  /** With p's pinuse bit clear, p's foot word leads to the free chunk in front of it. */
  lemma PrevChunk(s: State, limbo: set<int>, p: int) returns (r: int)
    requires Sane(s, limbo) && p in s.chunks && !s.chunks[p].pinuse
    ensures IsFree(s.chunks, r) && r + s.chunks[r].size == p
    ensures s.chunks[r].size > 0 && Rd(s.foot, p) == s.chunks[r].size
    ensures s.chunks[r].pinuse
  {
    assert ChunkOK(s.chunks, s.base, s.top, p);
    r := Predecessor(s, limbo, s.base, p);
    assert ChunkOK(s.chunks, s.base, s.top, r);
    assert TagOK(s.head, s.foot, s.chunks, s.cookie, r);
  }

  lemma LoneRegion(s: State, limbo: set<int>, p: int)
    requires Sane(s, limbo) && p in s.chunks && s.chunks[p].inuse && s.chunks[p].pinuse
    ensures s.chunks[p].size > 0 && Region(s, p, p + s.chunks[p].size, p)
  {
    hide Tagged, Binned, SizesAgree, DvOK, Rd;
    assert ChunkOK(s.chunks, s.base, s.top, p);
  }

  lemma BackRegion(s: State, limbo: set<int>, r: int, p: int)
    requires Sane(s, limbo) && p in s.chunks && s.chunks[p].inuse && IsFree(s.chunks, r) && r + s.chunks[r].size == p
    ensures s.chunks[p].size > 0 && s.chunks[r].size > 0 && Region(s, r, p + s.chunks[p].size, p)
  {
    hide Tagged, Binned, SizesAgree, DvOK, Rd;
    assert ChunkOK(s.chunks, s.base, s.top, p) && ChunkOK(s.chunks, s.base, s.top, r);
  }

  lemma ForwardRegion(s: State, limbo: set<int>, q: int, e: int, p: int)
    requires Sane(s, limbo) && Region(s, q, e, p) && IsFree(s.chunks, e)
    ensures s.chunks[e].size > 0 && Region(s, q, e + s.chunks[e].size, p)
    ensures e + s.chunks[e].size in s.chunks && s.chunks[e + s.chunks[e].size].inuse
    ensures !s.chunks[e + s.chunks[e].size].pinuse
  {
    hide Tagged, Binned, SizesAgree, DvOK, Rd;
    assert ChunkOK(s.chunks, s.base, s.top, e);
    assert ChunkOK(s.chunks, s.base, s.top, e + s.chunks[e].size);
  }

  lemma TopHead(n: int)
    requires n % 32 == 16
    ensures !Cinuse(n + 1)
  {
    Mod4(8 * (n / 32) + 4, 1);
  }

  /** What the head word at the end of a region says. */
  lemma NextHead(s: State, limbo: set<int>, e: int)
    requires Sane(s, limbo) && Boundary(s.chunks, s.top, e)
    ensures Cinuse(Rd(s.head, e)) <==> e in s.chunks && s.chunks[e].inuse
    ensures e in s.chunks ==> e != s.top && ChunkSize(Rd(s.head, e)) == s.chunks[e].size
    ensures e in s.chunks ==> ClearPinuse(Rd(s.head, e)) == Pack(s.chunks[e].(pinuse := false))
    ensures e in s.chunks ==> Rd(s.head, e) == Pack(s.chunks[e]) && Pinuse(Rd(s.head, e)) == s.chunks[e].pinuse
  {
    hide Apart, Rd, ChunkSize, Pack, Cinuse, ClearPinuse, Binned, SizesAgree, DvOK, Pinuse;
    if e in s.chunks {
      assert ChunkOK(s.chunks, s.base, s.top, e);
      assert TagOK(s.head, s.foot, s.chunks, s.cookie, e);
      Unpack(s.chunks[e]);
    } else {
      TopHead(s.topsize);
    }
  }

  /** Freeing p inside its region. */
  lemma LiveAfterMerge(s: State, q: int, e: int, p: int)
    requires Region(s, q, e, p)
    ensures p in Live(s.chunks) && Live(One(s.chunks, q, e, false)) == Live(s.chunks) - {p}
  {
  }

  lemma LiveAfterEnd(s: State, limbo: set<int>, q: int, p: int)
    requires Sane(s, limbo) && Region(s, q, s.top, p)
    ensures p in Live(s.chunks) && Live(EndAt(s.chunks, q, q)) == Live(s.chunks) - {p}
  {
    hide Tagged, Binned, SizesAgree, DvOK, Rd, Apart;
    forall c | c in s.chunks
      ensures c < s.top
    {
      assert ChunkOK(s.chunks, s.base, s.top, c);
    }
  }

  // ---- set_inuse ----

  lemma TopPinuse(n: int)
    requires n % 32 == 16
    ensures SetPinuse(n + 1) == n + 1
  {
    Mod2(16 * (n / 32) + 8, 1);
  }

  lemma TopNotChunk(s: State, limbo: set<int>)
    requires Sane(s, limbo)
    ensures s.top !in s.chunks
  {
    hide Tagged, Binned, SizesAgree, DvOK, Apart, Rd;
    forall c | c in s.chunks
      ensures c < s.top
    {
      assert ChunkOK(s.chunks, s.base, s.top, c);
    }
  }

  /** The next chunk's head, or top's, after `head |= PINUSE_BIT`. */
  lemma NextInuse(s: State, limbo: set<int>, head': map<int, int>, e: int)
    requires Sane(s, limbo) && Boundary(s.chunks, s.top, e) && Rd(head', e) == SetPinuse(Rd(s.head, e))
    ensures NextHeadOK(s, head', e, true)
  {
    hide Apart, Rd, ChunkSize, Pack, SetPinuse, Binned, SizesAgree, DvOK;
    TopNotChunk(s, limbo);
    if e in s.chunks {
      assert TagOK(s.head, s.foot, s.chunks, s.cookie, e);
      assert ChunkOK(s.chunks, s.base, s.top, e);
      Unpack(s.chunks[e]);
    } else {
      TopPinuse(s.topsize);
    }
  }

  lemma PinuseBit(c: Chunk)
    requires c.size % 32 == 0
    ensures Pack(c) % 2 == if c.pinuse then 1 else 0
  {
    LowBits(c.size / 32, Pack(c) - c.size);
  }

  /** set_inuse on one chunk. */
  lemma OnceInuse(head: map<int, int>, p: int, n: int, c: Chunk)
    requires Rd(head, p) == Pack(c) && c.size % 32 == 0 && n > 0
    ensures var h := InuseHead(head, p, n);
            && Rd(h, p) == Pack(Chunk(n, true, c.pinuse)) && Rd(h, p + n) == SetPinuse(Rd(head, p + n))
            && SameBut(head, h, {p, p + n})
  {
    PinuseBit(c);
    hide SetPinuse;
  }

  lemma SetPinuseOdd(h: int)
    ensures SetPinuse(h) % 2 == 1
  {
    Mod2(h / 2, 1);
  }

  /** set_inuse on a chunk and then on the chunk split off behind it. */
  lemma FrontThenBack(head: map<int, int>, p: int, nb: int, n: int, c: Chunk)
    requires Rd(head, p) == Pack(c) && c.size % 32 == 0 && 0 < nb < n
    ensures var h := InuseHead(InuseHead(head, p, nb), p + nb, n - nb);
            && Rd(h, p) == Pack(Chunk(nb, true, c.pinuse)) && Rd(h, p + nb) == Pack(Chunk(n - nb, true, true))
            && Rd(h, p + n) == SetPinuse(Rd(head, p + n)) && SameBut(head, h, {p, p + nb, p + n})
  {
    PinuseBit(c);
    var h1 := InuseHead(head, p, nb);
    SetPinuseOdd(Rd(head, p + nb));
    assert Rd(h1, p + nb) % 2 == 1;
  }

  lemma StaleBit(b: int, n: int)
    requires 0 <= b < 2 && n % 32 == 0
    ensures SetPinuse(b + n + 2) == n + 3
  {
    var k := n / 32;
    assert n == 32 * k;
    Mod2(16 * k + 1, b);
  }

  /** set_inuse on the back part first, as memalign does; the stale pinuse bit it copies is then set. */
  lemma BackThenFront(head: map<int, int>, p: int, lead: int, n: int, c: Chunk)
    requires Rd(head, p) == Pack(c) && c.size % 32 == 0 && 0 < lead < n && (n - lead) % 32 == 0
    ensures var h := InuseHead(InuseHead(head, p + lead, n - lead), p, lead);
            && Rd(h, p) == Pack(Chunk(lead, true, c.pinuse)) && Rd(h, p + lead) == Pack(Chunk(n - lead, true, true))
            && Rd(h, p + n) == SetPinuse(Rd(head, p + n)) && SameBut(head, h, {p, p + lead, p + n})
  {
    PinuseBit(c);
    StaleBit(Rd(head, p + lead) % 2, n - lead);
  }
}
