/** Chunks tiling a segment from its base to the top chunk, and the boundary tags that record them. */
module Tiling {
  import opened Words
  import opened Layout

  datatype Chunk = Chunk(size: int, inuse: bool, pinuse: bool)

  /** The head word of a chunk. */
  function Pack(c: Chunk): int {
    c.size + (if c.inuse then 2 else 0) + (if c.pinuse then 1 else 0)
  }

  predicate Cinuse(h: int) {
    h % 4 >= 2
  }

  predicate Pinuse(h: int) {
    h % 2 == 1
  }

  function ClearPinuse(h: int): int {
    h - h % 2
  }

  function SetPinuse(h: int): int {
    h - h % 2 + 1
  }

  lemma Mod2(q: int, r: int)
    requires 0 <= r < 2
    ensures (2 * q + r) % 2 == r
  {
  }

  lemma Mod4(q: int, r: int)
    requires 0 <= r < 4
    ensures (4 * q + r) % 4 == r
  {
  }

  lemma Mod8(q: int, r: int)
    requires 0 <= r < 8
    ensures (8 * q + r) % 8 == r
  {
  }

  lemma LowBits(k: int, f: int)
    requires 0 <= f < 4
    ensures (32 * k + f) % 8 == f && (32 * k + f) % 4 == f && (32 * k + f) % 2 == f % 2
  {
    Mod8(4 * k, f);
    Mod4(8 * k, f);
    Mod2(16 * k + f / 2, f % 2);
  }

  lemma Unpack(c: Chunk)
    requires c.size % 32 == 0
    ensures ChunkSize(Pack(c)) == c.size && Cinuse(Pack(c)) == c.inuse && Pinuse(Pack(c)) == c.pinuse
    ensures ClearPinuse(Pack(c)) == Pack(c.(pinuse := false)) && SetPinuse(Pack(c)) == Pack(c.(pinuse := true))
  {
    LowBits(c.size / 32, Pack(c) - c.size);
  }

  lemma Mod32(q: int, r: int)
    requires 0 <= r < 32
    ensures (32 * q + r) % 32 == r
  {
  }

  predicate Aligned(p: int) {
    p % 32 == 24
  }

  predicate Sound(n: int) {
    MIN_CHUNK_SIZE <= n && n % 32 == 0
  }

  lemma AlignedBetween(a: int, b: int)
    requires Aligned(a) && Aligned(b) && a < b
    ensures Sound(b - a)
  {
    Mod32(b / 32 - a / 32, 0);
  }

  lemma AlignedAfter(a: int, n: int)
    requires Aligned(a) && n % 32 == 0
    ensures Aligned(a + n) && Aligned(a - n)
  {
    Mod32(a / 32 + n / 32, 24);
    Mod32(a / 32 - n / 32, 24);
  }

  /** p is a chunk that ends where the next one, or top, begins; the next chunk knows whether p is in use;
      no free chunk lies next to another free chunk or next to top. */
  ghost predicate ChunkOK(chunks: map<int, Chunk>, base: int, top: int, p: int)
    requires p in chunks
  {
    var c := chunks[p];
    && base <= p && Aligned(p) && Sound(c.size) && 0 < c.size && p + c.size <= top
    && (p + c.size == top ==> c.inuse)
    && (p + c.size != top ==> p + c.size in chunks && chunks[p + c.size].pinuse == c.inuse)
    && (!c.inuse ==> c.pinuse)
  }

  ghost predicate Apart(chunks: map<int, Chunk>) {
    forall p, q {:trigger chunks[p], chunks[q]} :: p in chunks && q in chunks && p < q ==> p + chunks[p].size <= q
  }

  ghost predicate Tiled(chunks: map<int, Chunk>, base: int, top: int) {
    && HEAP_LOW <= base <= top < WORD && Aligned(base) && Aligned(top)
    && (base != top ==> base in chunks && chunks[base].pinuse)
    && (forall p {:trigger ChunkOK(chunks, base, top, p)} :: p in chunks ==> ChunkOK(chunks, base, top, p))
    && Apart(chunks)
  }

  ghost predicate Boundary(chunks: map<int, Chunk>, top: int, e: int) {
    e == top || e in chunks
  }

  ghost function Cut(chunks: map<int, Chunk>, a: int, e: int): map<int, Chunk> {
    map p | p in chunks && !(a <= p < e) :: chunks[p]
  }

  ghost function Follow(chunks: map<int, Chunk>, e: int, u: bool): map<int, Chunk> {
    if e in chunks then chunks[e := chunks[e].(pinuse := u)] else chunks
  }

  /** The chunks from a up to e become a single chunk. */
  ghost function One(chunks: map<int, Chunk>, a: int, e: int, u: bool): map<int, Chunk>
    requires a in chunks
  {
    Follow(Cut(chunks, a, e), e, u)[a := Chunk(e - a, u, chunks[a].pinuse)]
  }

  /** The chunks from a up to e become two chunks that meet at b. */
  ghost function Two(chunks: map<int, Chunk>, a: int, b: int, e: int, u: bool, w: bool): map<int, Chunk>
    requires a in chunks
  {
    Follow(Cut(chunks, a, e), e, w)[a := Chunk(b - a, u, chunks[a].pinuse)][b := Chunk(e - b, w, u)]
  }

  /** The chunks below a, then (unless a is the new top) one in-use chunk from a to the new top n. */
  ghost function EndAt(chunks: map<int, Chunk>, a: int, n: int): map<int, Chunk> {
    var below := map p | p in chunks && p < a :: chunks[p];
    if a < n then below[a := Chunk(n - a, true, if a in chunks then chunks[a].pinuse else true)] else below
  }

  lemma BoundaryAligned(chunks: map<int, Chunk>, base: int, top: int, e: int)
    requires Tiled(chunks, base, top) && Boundary(chunks, top, e)
    ensures Aligned(e) && base <= e <= top
  {
    hide Aligned, Sound;
    if e in chunks { assert ChunkOK(chunks, base, top, e); }
  }

  lemma OneChunk(chunks: map<int, Chunk>, base: int, top: int, a: int, e: int, u: bool, p: int)
    requires Tiled(chunks, base, top) && a in chunks && Boundary(chunks, top, e)
    requires a < e <= top && Sound(e - a) && Aligned(a)
    requires u || chunks[a].pinuse
    requires !u ==> e != top && chunks[e].inuse
    requires p in One(chunks, a, e, u)
    ensures ChunkOK(One(chunks, a, e, u), base, top, p)
  {
    hide Aligned, Sound;
    assert ChunkOK(chunks, base, top, a);
    if p != a { assert ChunkOK(chunks, base, top, p); }
  }

  lemma EndsBy(chunks: map<int, Chunk>, base: int, top: int, q: int, e: int)
    requires Tiled(chunks, base, top) && q in chunks && Boundary(chunks, top, e) && q < e
    ensures q + chunks[q].size <= e
  {
    hide Aligned, Sound;
    assert ChunkOK(chunks, base, top, q);
  }

  lemma OneApart(chunks: map<int, Chunk>, base: int, top: int, a: int, e: int, u: bool)
    requires Tiled(chunks, base, top) && a in chunks && Boundary(chunks, top, e) && a < e
    ensures Apart(One(chunks, a, e, u))
  {
    hide Aligned, Sound, ChunkOK;
    forall q | q in chunks && q < e && q > a
      ensures q + chunks[q].size <= e
    {
      assert ChunkOK(chunks, base, top, q);
      EndsBy(chunks, base, top, q, e);
    }
  }

  lemma OneBase(chunks: map<int, Chunk>, base: int, top: int, a: int, e: int, u: bool)
    requires Tiled(chunks, base, top) && a in chunks && Boundary(chunks, top, e) && base <= a < e
    ensures base != top ==> base in One(chunks, a, e, u) && One(chunks, a, e, u)[base].pinuse
  {
    hide Aligned, Sound, ChunkOK, Apart;
  }

  lemma OneTiled(chunks: map<int, Chunk>, base: int, top: int, a: int, e: int, u: bool)
    requires Tiled(chunks, base, top) && a in chunks && Boundary(chunks, top, e) && a < e
    requires u || chunks[a].pinuse
    requires !u ==> e != top && chunks[e].inuse
    ensures Tiled(One(chunks, a, e, u), base, top)
  {
    var t := One(chunks, a, e, u);
    BoundaryAligned(chunks, base, top, a);
    BoundaryAligned(chunks, base, top, e);
    AlignedBetween(a, e);
    hide Aligned, Sound, ChunkOK, Apart;
    OneBase(chunks, base, top, a, e, u);
    OneApart(chunks, base, top, a, e, u);
    hide One;
    forall p | p in t
      ensures ChunkOK(t, base, top, p)
    {
      OneChunk(chunks, base, top, a, e, u, p);
    }
  }

  lemma TwoBase(chunks: map<int, Chunk>, base: int, top: int, a: int, b: int, e: int, u: bool, w: bool)
    requires Tiled(chunks, base, top) && a in chunks && Boundary(chunks, top, e) && base <= a < b < e
    ensures base != top ==> base in Two(chunks, a, b, e, u, w) && Two(chunks, a, b, e, u, w)[base].pinuse
  {
    hide Aligned, Sound, ChunkOK, Apart;
  }

  lemma TwoApart(chunks: map<int, Chunk>, base: int, top: int, a: int, b: int, e: int, u: bool, w: bool)
    requires Tiled(chunks, base, top) && a in chunks && Boundary(chunks, top, e) && a < b < e
    ensures Apart(Two(chunks, a, b, e, u, w))
  {
    hide Aligned, Sound, ChunkOK;
    forall q | q in chunks && q < e
      ensures q + chunks[q].size <= e
    {
      EndsBy(chunks, base, top, q, e);
    }
  }

  lemma TwoChunk(chunks: map<int, Chunk>, base: int, top: int, a: int, b: int, e: int, u: bool, w: bool, p: int)
    requires Tiled(chunks, base, top) && a in chunks && Boundary(chunks, top, e) && a < b < e <= top
    requires Sound(b - a) && Sound(e - b) && Aligned(b)
    requires (u || chunks[a].pinuse) && (u || w)
    requires !w ==> e != top && chunks[e].inuse
    requires p in Two(chunks, a, b, e, u, w)
    ensures ChunkOK(Two(chunks, a, b, e, u, w), base, top, p)
  {
    hide Aligned, Sound;
    assert ChunkOK(chunks, base, top, a);
    if p != a && p != b { assert ChunkOK(chunks, base, top, p); }
  }

  lemma TwoTiled(chunks: map<int, Chunk>, base: int, top: int, a: int, b: int, e: int, u: bool, w: bool)
    requires Tiled(chunks, base, top) && a in chunks && Boundary(chunks, top, e)
    requires a < b < e && Sound(b - a)
    requires (u || chunks[a].pinuse) && (u || w)
    requires !w ==> e != top && chunks[e].inuse
    ensures Tiled(Two(chunks, a, b, e, u, w), base, top)
  {
    var t := Two(chunks, a, b, e, u, w);
    BoundaryAligned(chunks, base, top, a);
    BoundaryAligned(chunks, base, top, e);
    AlignedAfter(a, b - a);
    AlignedBetween(b, e);
    hide Aligned, Sound, ChunkOK, Apart;
    TwoBase(chunks, base, top, a, b, e, u, w);
    TwoApart(chunks, base, top, a, b, e, u, w);
    hide Two;
    forall p | p in t
      ensures ChunkOK(t, base, top, p)
    {
      TwoChunk(chunks, base, top, a, b, e, u, w, p);
    }
  }

  lemma EndApart(chunks: map<int, Chunk>, base: int, top: int, a: int, n: int)
    requires Tiled(chunks, base, top) && Boundary(chunks, top, a)
    ensures Apart(EndAt(chunks, a, n))
  {
    hide Aligned, Sound, ChunkOK;
    forall q | q in chunks && q < a
      ensures q + chunks[q].size <= a
    {
      EndsBy(chunks, base, top, q, a);
    }
  }

  lemma EndChunk(chunks: map<int, Chunk>, base: int, top: int, a: int, n: int, p: int)
    requires Tiled(chunks, base, top) && Boundary(chunks, top, a) && a <= n && Aligned(a) && (a < n ==> Sound(n - a))
    requires a == n ==> a in chunks && chunks[a].pinuse
    requires p in EndAt(chunks, a, n)
    ensures ChunkOK(EndAt(chunks, a, n), base, n, p)
  {
    hide Aligned, Sound;
    if a in chunks { assert ChunkOK(chunks, base, top, a); }
    if p != a {
      assert ChunkOK(chunks, base, top, p);
      EndsBy(chunks, base, top, p, a);
    }
  }

  lemma EndTiled(chunks: map<int, Chunk>, base: int, top: int, a: int, n: int)
    requires Tiled(chunks, base, top) && Boundary(chunks, top, a) && a <= n < WORD && Aligned(n)
    requires a == n ==> a in chunks && chunks[a].pinuse
    ensures Tiled(EndAt(chunks, a, n), base, n)
  {
    var t := EndAt(chunks, a, n);
    BoundaryAligned(chunks, base, top, a);
    if a < n { AlignedBetween(a, n); }
    hide Aligned, Sound, ChunkOK, Apart;
    forall p | p in t
      ensures ChunkOK(t, base, n, p)
    {
      EndChunk(chunks, base, top, a, n, p);
    }
    EndApart(chunks, base, top, a, n);
    if a in chunks { assert ChunkOK(chunks, base, top, a); }
  }

  // ---- boundary tags ----

  /** The head word of p describes it; the word behind it is its size if it is free, and otherwise names
      the owning malloc_state. */
  ghost predicate TagOK(head: map<int, int>, foot: map<int, int>, chunks: map<int, Chunk>, cookie: int, p: int)
    requires p in chunks
  {
    && Rd(head, p) == Pack(chunks[p])
    && Rd(foot, p + chunks[p].size) == if chunks[p].inuse then cookie else chunks[p].size
  }

  ghost predicate Tagged(head: map<int, int>, foot: map<int, int>, chunks: map<int, Chunk>, cookie: int) {
    forall p {:trigger TagOK(head, foot, chunks, cookie, p)} :: p in chunks ==> TagOK(head, foot, chunks, cookie, p)
  }

  ghost predicate SameBut(f: map<int, int>, g: map<int, int>, keys: set<int>) {
    forall a :: a !in keys ==> Rd(f, a) == Rd(g, a)
  }

  /** A chunk outside [a, e) keeps its foot, and its head unless it is e. */
  lemma KeptTag(head: map<int, int>, foot: map<int, int>, head': map<int, int>, foot': map<int, int>,
                chunks: map<int, Chunk>, cookie: int, base: int, top: int, a: int, b: int, e: int, p: int)
    requires Tiled(chunks, base, top) && Tagged(head, foot, chunks, cookie)
    requires a in chunks && Boundary(chunks, top, e) && a < b <= e
    requires SameBut(head, head', {a, b, e}) && SameBut(foot, foot', {b, e})
    requires p in chunks && !(a <= p < e)
    ensures Rd(foot', p + chunks[p].size) == (if chunks[p].inuse then cookie else chunks[p].size)
    ensures p != e ==> Rd(head', p) == Pack(chunks[p])
  {
    hide Pack, Rd, Aligned, Sound;
    assert TagOK(head, foot, chunks, cookie, p);
    assert ChunkOK(chunks, base, top, p);
  }

  lemma OneTagged(head: map<int, int>, foot: map<int, int>, head': map<int, int>, foot': map<int, int>,
                  chunks: map<int, Chunk>, cookie: int, base: int, top: int, a: int, e: int, u: bool)
    requires Tiled(chunks, base, top) && Tagged(head, foot, chunks, cookie)
    requires a in chunks && Boundary(chunks, top, e) && a < e
    requires SameBut(head, head', {a, e}) && SameBut(foot, foot', {e})
    requires Rd(head', a) == Pack(Chunk(e - a, u, chunks[a].pinuse))
    requires e in chunks ==> Rd(head', e) == Pack(chunks[e].(pinuse := u))
    requires Rd(foot', e) == if u then cookie else e - a
    ensures Tagged(head', foot', One(chunks, a, e, u), cookie)
  {
    hide Pack, Rd, Aligned, Sound;
    var t := One(chunks, a, e, u);
    forall p | p in t
      ensures TagOK(head', foot', t, cookie, p)
    {
      if p != a { KeptTag(head, foot, head', foot', chunks, cookie, base, top, a, e, e, p); }
    }
  }

  lemma TwoTagged(head: map<int, int>, foot: map<int, int>, head': map<int, int>, foot': map<int, int>,
                  chunks: map<int, Chunk>, cookie: int, base: int, top: int, a: int, b: int, e: int, u: bool, w: bool)
    requires Tiled(chunks, base, top) && Tagged(head, foot, chunks, cookie)
    requires a in chunks && Boundary(chunks, top, e) && a < b < e
    requires SameBut(head, head', {a, b, e}) && SameBut(foot, foot', {b, e})
    requires Rd(head', a) == Pack(Chunk(b - a, u, chunks[a].pinuse)) && Rd(head', b) == Pack(Chunk(e - b, w, u))
    requires e in chunks ==> Rd(head', e) == Pack(chunks[e].(pinuse := w))
    requires Rd(foot', b) == if u then cookie else b - a
    requires Rd(foot', e) == if w then cookie else e - b
    ensures Tagged(head', foot', Two(chunks, a, b, e, u, w), cookie)
  {
    hide Pack, Rd, Aligned, Sound;
    var t := Two(chunks, a, b, e, u, w);
    forall p | p in t
      ensures TagOK(head', foot', t, cookie, p)
    {
      if p != a && p != b { KeptTag(head, foot, head', foot', chunks, cookie, base, top, a, b, e, p); }
    }
  }

  lemma EndTagged(head: map<int, int>, foot: map<int, int>, head': map<int, int>, foot': map<int, int>,
                  chunks: map<int, Chunk>, cookie: int, base: int, top: int, a: int, n: int)
    requires Tiled(chunks, base, top) && Tagged(head, foot, chunks, cookie)
    requires Boundary(chunks, top, a) && a <= n
    requires SameBut(head, head', {a, n}) && SameBut(foot, foot', if a < n then {n} else {})
    requires a < n ==> Rd(head', a) == Pack(Chunk(n - a, true, if a in chunks then chunks[a].pinuse else true))
    requires a < n ==> Rd(foot', n) == cookie
    ensures Tagged(head', foot', EndAt(chunks, a, n), cookie)
  {
    hide Pack, Rd, Aligned, Sound;
    var t := EndAt(chunks, a, n);
    forall p | p in t
      ensures TagOK(head', foot', t, cookie, p)
    {
      if p != a {
        assert TagOK(head, foot, chunks, cookie, p);
        EndsBy(chunks, base, top, p, a);
      }
    }
  }

  // ---- live blocks ----

  /** The blocks handed out and not yet freed, with their chunk sizes. */
  ghost function Live(chunks: map<int, Chunk>): map<int, int> {
    map p | p in chunks && chunks[p].inuse :: chunks[p].size
  }

  /** Different live blocks share no byte. */
  lemma LiveDisjoint(chunks: map<int, Chunk>, base: int, top: int, p: int, q: int)
    requires Tiled(chunks, base, top) && p in Live(chunks) && q in Live(chunks) && p != q
    ensures p + Live(chunks)[p] <= q || q + Live(chunks)[q] <= p
  {
  }

  /** No chunk, and not top, begins strictly inside a chunk. */
  lemma NothingInside(chunks: map<int, Chunk>, base: int, top: int, p: int, e: int)
    requires Tiled(chunks, base, top) && p in chunks && Boundary(chunks, top, e)
    ensures e <= p || p + chunks[p].size <= e
  {
    assert ChunkOK(chunks, base, top, p);
  }
}
