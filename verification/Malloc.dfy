/** The allocator over one segment: boundary tags, designated victim and top chunk, updated in place. */
module Malloc {
  import opened Words
  import opened Bitmaps
  import opened Layout
  import opened TreeIndex
  import opened Bins
  import opened BinOps
  import opened Tiling
  import opened Heap
  import opened HeapSteps
  import opened MallocSteps
  import opened Payload
  import opened Alignment

  class MallocState {
    const bins: FreeBins
    const base: int
    const magic: nat
    /** mark_inuse_foot: what the foot of a live chunk holds. */
    const cookie: int := Xor(GM, magic, 32)
    var head: map<int, int>
    var foot: map<int, int>
    var dv: int
    var dvsize: int
    var top: int
    var topsize: int
    var end: int
    var trimCheck: int
    ghost var chunks: map<int, Chunk>

    ghost function S(): State
      reads this, bins
    {
      State(base, end, cookie, head, foot, dv, dvsize, top, topsize, chunks, bins.Size())
    }

    ghost function M(): Memory
      reads this, bins
    {
      Memory(head, foot, bins.V())
    }

    ghost predicate Valid()
      reads this, bins
    {
      bins.Valid() && Sane(S(), {})
    }

    /** The first sys_alloc: the system granted [tbase, tbase + tsize), which ends on a page boundary, with
        whatever its words held before. */
    constructor (tbase: int, tsize: int, magic: nat, was: Memory)
      requires HEAP_LOW <= tbase && tbase + tsize <= WORD && tsize >= 4096 && (tbase + tsize) % 4096 == 0
      ensures Valid() && Live(chunks) == map[] && this.magic == magic && end == tbase + tsize
      ensures fresh(bins)
    {
      var b := new FreeBins(was.v.fd, was.v.bk, was.v.tree);
      var offset := (32 - (tbase + 8) % 32) % 32;
      bins := b;
      base := tbase + offset;
      this.magic := magic;
      top := tbase + offset;
      topsize := tsize - TOP_FOOT_SIZE - offset;
      head := was.head[tbase + offset := tsize - TOP_FOOT_SIZE - offset + 1];
      foot := was.foot;
      dv, dvsize := 0, 0;
      end := tbase + tsize;
      trimCheck := TRIM_THRESHOLD;
      chunks := map[];
      new;
      FirstTop(tbase, tsize, offset);
    }

    lemma HeadsForBins(limbo: set<int>)
      requires Sane(S(), limbo)
      ensures HeadsAgree(head, bins.Size())
    {
      hide Sane, ChunkSize, Rd, SizeOK;
      forall c | c in bins.Size()
        ensures ChunkSize(Rd(head, c)) == bins.Size()[c]
      {
        HeadsOK(S(), limbo, c);
      }
    }

    /** set_inuse_and_pinuse for the whole of a free chunk that is in no bin. */
    method MarkWhole(p: int, n: int)
      requires bins.Valid() && Sane(S(), {p}) && p in chunks && n == chunks[p].size
      modifies this`head, this`foot, this`chunks
      ensures Valid() && chunks == One(old(chunks), p, p + n, true)
      ensures KeptFor(old(M()), M(), Live(old(chunks)))
    {
      hide Sane, KeptFor, One, Live, SetPinuse, Rd, SameBut;
      ghost var s, m := S(), M();
      var h := head[p := n + 3];
      h := h[p + n := SetPinuse(Rd(h, p + n))];
      MarkWholeOK(s, {p}, p, n);
      assert {p} - {p} == {};
      MarkKept(s, m, p, n);
      head := h;
      foot := foot[p + n := cookie];
      chunks := One(chunks, p, p + n, true);
    }

    /** Allocates the first nb bytes of a free chunk that is in no bin; the rest stays free and unbinned. */
    method SplitFront(p: int, nb: int)
      requires bins.Valid() && Sane(S(), {p}) && p in chunks && Sound(nb) && nb + MIN_CHUNK_SIZE <= chunks[p].size
      modifies this`head, this`foot, this`chunks
      ensures bins.Valid() && Sane(S(), {p + nb})
      ensures chunks == Two(old(chunks), p, p + nb, p + old(chunks)[p].size, true, false)
      ensures KeptFor(old(M()), M(), Live(old(chunks)))
    {
      hide Sane, KeptFor, Two, Live, Rd, SameBut, Sound;
      ghost var s, m := S(), M();
      var rsize := ChunkSize(Rd(head, p)) - nb;
      ReadSize(s, {p}, p);
      var r := p + nb;
      var h := head[p := nb + 3];
      var f := foot[r := cookie];
      h := h[r := rsize + 1];
      f := f[r + rsize := rsize];
      SoundPositive(nb);
      SplitWords(s, p, nb, rsize, h, f);
      SplitOK(s, {p}, p, nb, h, f);
      assert {p} - {p} + {r} == {r};
      SplitKept(s, m, p, nb, h, f);
      head := h;
      foot := f;
      chunks := Two(chunks, p, r, r + rsize, true, false);
    }

    // ---- moving chunks in and out of bins ----

    /** insert_chunk for the unbinned chunk r. */
    method BinChunk(r: int, n: int)
      requires bins.Valid() && Sane(S(), {r}) && r in chunks && n == chunks[r].size
      modifies bins
      ensures Valid() && KeptFor(old(M()), M(), Live(chunks))
    {
      hide Sane, KeptFor, KeptOutside, Live, BinsOK, HeadsAgree, SizeOK;
      ghost var s, m := S(), M();
      ToBeBinned(s, {r}, r);
      HeadsForBins({r});
      bins.InsertChunk(r, n, head);
      BinOK(s, {r}, r, bins.Size());
      assert {r} - {r} == {};
      BinKept(s, {r}, m, bins.V(), s.size.Keys + {r});
    }

    /** unlink_chunk for the binned chunk c. */
    method UnbinChunk(c: int, ghost limbo: set<int>)
      requires bins.Valid() && Sane(S(), limbo) && c in bins.Size()
      modifies bins
      ensures bins.Valid() && Sane(S(), limbo + {c}) && bins.Size() == old(bins.Size()) - {c}
      ensures KeptFor(old(M()), M(), Live(chunks))
    {
      hide Sane, KeptFor, KeptOutside, Live, BinsOK, Rd, ChunkSize;
      ghost var s, m := S(), M();
      HeadsOK(s, limbo, c);
      bins.UnlinkChunk(c, ChunkSize(Rd(head, c)));
      UnbinOK(s, limbo, c, bins.Size());
      BinKept(s, limbo, m, bins.V(), s.size.Keys);
    }

    /** replace_dv: r becomes the designated victim, and the old one goes to its small bin. */
    method ReplaceDv(r: int, n: int)
      requires bins.Valid() && Sane(S(), {r}) && r in chunks && n == chunks[r].size && IsSmall(dvsize)
      modifies bins, this`dv, this`dvsize
      ensures Valid() && dv == r && dvsize == n && KeptFor(old(M()), M(), Live(chunks))
    {
      hide Sane, KeptFor, KeptOutside, Live, BinsOK, Rd, SizeOK;
      ghost var s, m := S(), M();
      DvFacts(s, {r});
      if dvsize != 0 {
        DropDvOK(s, {r});
        var s1 := s.(dv := 0, dvsize := 0);
        ToBeBinned(s1, {r} + {dv}, dv);
        bins.InsertSmallChunk(dv, dvsize);
        BinOK(s1, {r} + {dv}, dv, bins.Size());
        assert {r} + {dv} - {dv} == {r};
        NewDvOK(s1.(size := bins.Size()), r);
        BinKept(s, {r}, m, bins.V(), s.size.Keys + {dv});
      } else {
        NewDvOK(s, r);
        KeptSame(m, Live(chunks));
      }
      dvsize := n;
      dv := r;
    }

    // ---- allocation ----

    /** Uses the unbinned free chunk p for a request of nb bytes: whole, or split with the rest put in a bin. */
    method UseAndBin(p: int, nb: int, rsize: int)
      requires bins.Valid() && Sane(S(), {p}) && p in chunks && Sound(nb) && rsize == chunks[p].size - nb >= 0
      modifies bins, this`head, this`foot, this`chunks
      ensures Valid() && Added(old(chunks), chunks, p, nb) && KeptFor(old(M()), M(), Live(old(chunks)))
    {
      hide Sane, KeptFor, Live, BinsOK, Sound, One, Two, Added;
      ghost var s, m := S(), M();
      Multiples(s, {p}, p, nb);
      if rsize < MIN_CHUNK_SIZE {
        AddedOne(s, p);
        MarkWhole(p, rsize + nb);
      } else {
        AddedTwo(s, p, nb);
        SplitFront(p, nb);
        RestOfSplit(s, p, nb);
        ghost var m1 := M();
        BinChunk(p + nb, rsize);
        LiveGrows(s.chunks, chunks, p, nb);
        KeptFewer(m1, M(), Live(chunks), Live(s.chunks));
        KeptTrans(m, m1, M(), Live(s.chunks));
      }
    }

    /** Uses the unbinned free chunk p, the rest becoming the designated victim. */
    method UseAndKeepRest(p: int, nb: int, rsize: int)
      requires bins.Valid() && Sane(S(), {p}) && p in chunks && Sound(nb) && rsize == chunks[p].size - nb >= 0
      requires IsSmall(dvsize)
      modifies bins, this`head, this`foot, this`chunks, this`dv, this`dvsize
      ensures Valid() && Added(old(chunks), chunks, p, nb) && KeptFor(old(M()), M(), Live(old(chunks)))
    {
      hide Sane, KeptFor, Live, BinsOK, Sound, One, Two, Added;
      ghost var s, m := S(), M();
      Multiples(s, {p}, p, nb);
      if rsize < MIN_CHUNK_SIZE {
        AddedOne(s, p);
        MarkWhole(p, rsize + nb);
      } else {
        AddedTwo(s, p, nb);
        SplitFront(p, nb);
        RestOfSplit(s, p, nb);
        ghost var m1 := M();
        ReplaceDv(p + nb, rsize);
        LiveGrows(s.chunks, chunks, p, nb);
        KeptFewer(m1, M(), Live(chunks), Live(s.chunks));
        KeptTrans(m, m1, M(), Live(s.chunks));
      }
    }

    lemma BestOfLarge(s: State, nb: int, v: int)
      requires s == S() && LargeRequest(nb) && bins.BestLarge(nb, v)
      ensures v == 0 ==> BinsTooSmall(s, nb)
      ensures v != 0 ==> BestBinned(s, nb, v)
    {
    }

    /** The rest of tmalloc_large: uses the best fit v unless the designated victim fits at least as tightly. */
    method TmallocLarge(nb: int) returns (mem: int)
      requires Valid() && LargeRequest(nb)
      modifies bins, this`head, this`foot, this`chunks
      ensures Valid() && KeptFor(old(M()), M(), Live(old(chunks)))
      ensures mem == 0 ==> S() == old(S())
      ensures mem == 0 ==> BinsTooSmall(old(S()), nb) || DvTightest(old(S()), nb)
      ensures mem != 0 ==> Added(old(chunks), chunks, mem - 8, nb) && BestBinned(old(S()), nb, mem - 8)
      ensures mem != 0 ==> old(dvsize) < nb || old(bins.Size())[mem - 8] < old(dvsize)
    {
      hide Sane, KeptFor, Live, BinsOK, Sound, Added, HeadsAgree, SizeOK, Wrap;
      ghost var s, m := S(), M();
      HeadsForBins({});
      LargeIs(nb);
      var v, rsize := bins.FindBestFit(nb, head);
      DvRange(s);
      BestOfLarge(s, nb, v);
      WrapDv(nb, dvsize);
      VersusDv(s, nb, v);
      if v != 0 && rsize < Wrap(dvsize - nb) {
        BinnedChunk(s, v);
        UnbinChunk(v, {});
        assert {} + {v} == {v};
        ghost var m1 := M();
        UseAndBin(v, nb, rsize);
        KeptTrans(m, m1, M(), Live(s.chunks));
        mem := v + 8;
      } else {
        KeptSame(m, Live(chunks));
        mem := 0;
      }
    }

    lemma SmallestFits(s: State, nb: int, v: int)
      requires s == S() && Sound(nb) && IsSmall(nb) && bins.BestLarge(nb, v) && v != 0 && NoSmallFit(s, nb)
      ensures BestBinned(s, nb, v) && s.size[v] >= MIN_LARGE_SIZE > nb
    {
    }

    /** The rest of tmalloc_small: uses the smallest large chunk, its rest becoming the designated victim. */
    method TmallocSmall(nb: int) returns (mem: int)
      requires Valid() && Sound(nb) && IsSmall(nb) && IsSmall(dvsize) && bins.w.treemap != 0
      requires NoSmallFit(S(), nb)
      modifies bins, this`head, this`foot, this`chunks, this`dv, this`dvsize
      ensures Valid() && KeptFor(old(M()), M(), Live(old(chunks)))
      ensures mem != 0 && Added(old(chunks), chunks, mem - 8, nb) && BestBinned(old(S()), nb, mem - 8)
    {
      hide Sane, KeptFor, Live, BinsOK, Sound, Added, HeadsAgree, SizeOK;
      ghost var s, m := S(), M();
      HeadsForBins({});
      SmallIs(nb);
      var v, rsize := bins.FindSmallest(nb, head);
      SmallestFits(s, nb, v);
      BinnedChunk(s, v);
      UnbinChunk(v, {});
      assert {} + {v} == {v};
      ghost var m1 := M();
      UseAndKeepRest(v, nb, rsize);
      KeptTrans(m, m1, M(), Live(s.chunks));
      mem := v + 8;
    }

    /** Takes the front of the designated victim, or all of it if the rest would be no chunk. */
    method TakeDv(nb: int) returns (mem: int)
      requires Valid() && Sound(nb) && nb <= dvsize
      modifies this`head, this`foot, this`chunks, this`dv, this`dvsize
      ensures Valid() && KeptFor(old(M()), M(), Live(old(chunks)))
      ensures mem == old(dv) + 8 && mem != 0 && Added(old(chunks), chunks, mem - 8, nb)
    {
      hide Sane, KeptFor, Live, BinsOK, Sound, Added, Two, One;
      ghost var s := S();
      SoundPositive(nb);
      DvFacts(s, {});
      var rsize := dvsize - nb;
      var p := dv;
      Multiples(s, {}, p, nb);
      DropDvOK(s, {});
      assert {} + {p} == {p};
      NotNull(s, p);
      mem := p + 8;
      ghost var s1 := s.(dv := 0, dvsize := 0);
      if rsize >= MIN_CHUNK_SIZE {
        AddedTwo(s1, p, nb);
        dv := 0;
        dvsize := 0;
        SplitFront(p, nb);
        RestOfSplit(s1, p, nb);
        NewDvOK(S(), p + nb);
        dv := p + nb;
        dvsize := rsize;
      } else {
        AddedOne(s1, p);
        var dvs := dvsize;
        dvsize := 0;
        dv := 0;
        MarkWhole(p, dvs);
      }
    }

    /** Splits the request off the front of top. */
    method TakeTop(nb: int) returns (mem: int)
      requires Valid() && Sound(nb) && nb < topsize
      modifies this`head, this`foot, this`chunks, this`top, this`topsize
      ensures Valid() && KeptFor(old(M()), M(), Live(old(chunks)))
      ensures mem == old(top) + 8 && mem != 0 && Added(old(chunks), chunks, mem - 8, nb)
    {
      hide Sane, KeptFor, Live, BinsOK, Sound, Added, EndAt, Rd, SameBut, Pack;
      ghost var s, m := S(), M();
      SoundPositive(nb);
      var rsize := topsize - nb;
      var p := top;
      var r := p + nb;
      var h := head[r := rsize + 1];
      h := h[p := nb + 3];
      var f := foot[r := cookie];
      TakeTopOK(s, nb, h, f);
      AddedTop(s, nb);
      TakeTopKept(s, m, nb, h, f);
      topsize := rsize;
      top := r;
      head := h;
      foot := f;
      chunks := EndAt(chunks, p, r);
      mem := p + 8;
    }

    // ---- the system ----

    /** sys_alloc for an initialized space whose top is too small. `granted` is the answer of the system to the
        request for more memory: the segment grows in place, or it does not grow at all. */
    method SysAlloc(nb: int, granted: bool) returns (mem: int)
      requires Valid() && topsize <= nb < WORD && (Sound(nb) || nb == WORD - 1)
      modifies this`head, this`foot, this`chunks, this`top, this`topsize, this`end, this`trimCheck
      ensures Valid() && KeptFor(old(M()), M(), Live(old(chunks)))
      ensures mem != 0 ==> granted && mem == old(top) + 8 && Added(old(chunks), chunks, mem - 8, nb) && Sound(nb)
      ensures mem == 0 ==> S() == old(S()) && trimCheck == old(trimCheck)
      ensures mem == 0 <==> !granted || CannotGrow(nb, old(topsize), old(end))
    {
      hide Sane, KeptFor, Live, BinsOK, Sound, Added, Wrap, SameBut, Rd;
      ghost var s, m := S(), M();
      mem := 0;
      KeptSame(m, Live(chunks));
      var asize := GranularityAlign(nb + SYS_ALLOC_PADDING);
      if asize <= nb {
        return;
      }
      var ssize := GranularityAlign(nb - topsize + SYS_ALLOC_PADDING);
      GrowthSize(s, nb, asize, ssize);
      DvRange(s);
      if ssize < HALF_MAX && granted && end + ssize <= WORD {
        ResizeTopOK(s, ssize);
        GrowKept(s, m, ssize);
        head := head[top := topsize + ssize + 1];
        topsize := topsize + ssize;
        end := end + ssize;
        trimCheck := TRIM_THRESHOLD;
        ghost var m1 := M();
        mem := TakeTop(nb);
        KeptTrans(m, m1, M(), Live(s.chunks));
      }
    }

    // ---- dlmalloc ----

    /** A remainderless fit from small bin i. */
    method TakeSmall(i: nat, nb: int) returns (mem: int)
      requires Valid() && i < NSMALLBINS && Marked(bins.w.smallmap, i) && nb == 8 * i
      modifies bins, this`head, this`foot, this`chunks
      ensures Valid() && KeptFor(old(M()), M(), Live(old(chunks)))
      ensures mem != 0 && Added(old(chunks), chunks, mem - 8, nb)
      ensures mem - 8 in old(S()).size && old(S()).size[mem - 8] == nb
    {
      hide Sane, KeptFor, Live, BinsOK, Added, Marked, One, KeptOutside;
      ghost var s, m := S(), M();
      var p := bins.UnlinkFirstSmallChunk(i);
      BinnedChunk(s, p);
      UnbinOK(s, {}, p, bins.Size());
      assert {} + {p} == {p};
      BinKept(s, {}, m, bins.V(), s.size.Keys);
      ghost var m1 := M();
      AddedOne(S(), p);
      MarkWhole(p, 8 * i);
      KeptTrans(m, m1, M(), Live(s.chunks));
      mem := p + 8;
    }

    /** Splits the first chunk of small bin i. The rest is always a chunk, because the sizes of the chunks in
        the bins are multiples of 32, so the split needs no test. */
    method SplitSmall(i: nat, nb: int) returns (mem: int)
      requires Valid() && i < NSMALLBINS && Marked(bins.w.smallmap, i) && Sound(nb) && nb < 8 * i && IsSmall(dvsize)
      modifies bins, this`head, this`foot, this`chunks, this`dv, this`dvsize
      ensures Valid() && KeptFor(old(M()), M(), Live(old(chunks)))
      ensures mem != 0 && Added(old(chunks), chunks, mem - 8, nb)
      ensures mem - 8 in old(S()).size && old(S()).size[mem - 8] == 8 * i
    {
      hide Sane, KeptFor, Live, BinsOK, Added, Marked, One, Two, KeptOutside, Sound;
      ghost var s, m := S(), M();
      var p := bins.UnlinkFirstSmallChunk(i);
      BinnedChunk(s, p);
      UnbinOK(s, {}, p, bins.Size());
      assert {} + {p} == {p};
      BinKept(s, {}, m, bins.V(), s.size.Keys);
      ghost var m1 := M();
      var rsize := 8 * i - nb;
      Multiples(S(), {p}, p, nb);
      AddedTwo(S(), p, nb);
      SplitFront(p, nb);
      KeptTrans(m, m1, M(), Live(s.chunks));
      RestOfSplit(s, p, nb);
      ghost var m2 := M();
      ReplaceDv(p + nb, rsize);
      LiveGrows(s.chunks, chunks, p, nb);
      KeptFewer(m2, M(), Live(chunks), Live(s.chunks));
      KeptTrans(m, m2, M(), Live(s.chunks));
      mem := p + 8;
    }

    /** What the small map says about the chunks in the bins. */
    lemma SmallMapSays(s: State, nb: int)
      requires Valid() && s == S() && Sound(nb) && IsSmall(nb)
      ensures nb % 8 == 0 && nb / 8 < 31 && SmallIndex(nb) == nb / 8
      ensures !Marked(bins.w.smallmap, nb / 8 + 1)
      ensures !Marked(bins.w.smallmap, nb / 8) ==> forall c :: c in s.size ==> s.size[c] != nb
    {
      hide Marked, Sane, BinsOK;
      SmallSound(nb);
      if Marked(bins.w.smallmap, nb / 8 + 1) { MarkedMultiple(bins.V(), nb / 8 + 1); }
      forall c | c in s.size && s.size[c] == nb
        ensures Marked(bins.w.smallmap, nb / 8)
      {
        SmallMarked(bins.V(), c);
      }
    }

    /** No marked bin between nb's own and bin i: every small chunk of at least nb bytes is as large as bin i's. */
    lemma NoneBetween(s: State, nb: int, i: nat)
      requires Valid() && s == S() && Sound(nb) && IsSmall(nb) && nb / 8 < i <= 32
      requires forall j: nat :: nb / 8 <= j < i ==> !Marked(bins.w.smallmap, j)
      ensures forall c :: c in s.size && IsSmall(s.size[c]) && s.size[c] >= nb ==> s.size[c] >= 8 * i
    {
      hide Marked, Sane, BinsOK;
      SmallSound(nb);
      forall c | c in s.size && IsSmall(s.size[c]) && s.size[c] >= nb
        ensures s.size[c] >= 8 * i
      {
        SmallMarked(bins.V(), c);
      }
    }

    lemma NoLargeChunks(s: State, nb: int)
      requires Valid() && s == S() && bins.w.treemap == 0
      ensures forall c :: c in s.size ==> IsSmall(s.size[c])
    {
      hide Sane;
      bins.NoTrees();
    }

    /** The part of dlmalloc for small requests that looks at the bins first; returns 0 if the designated
        victim, top or the system must serve the request. */
    method SmallFromBins(nb: int) returns (mem: int)
      requires Valid() && Sound(nb) && IsSmall(nb)
      modifies bins, this`head, this`foot, this`chunks, this`dv, this`dvsize
      ensures Valid() && KeptFor(old(M()), M(), Live(old(chunks)))
      ensures mem != 0 ==> Added(old(chunks), chunks, mem - 8, nb) && SmallChoice(old(S()), nb, mem - 8)
      ensures mem != 0 ==> !BinsTooSmall(old(S()), nb)
      ensures mem == 0 ==> S() == old(S())
      ensures mem == 0 ==> forall c :: c in old(S()).size ==> old(S()).size[c] != nb
      ensures mem == 0 ==> nb <= old(dvsize) || BinsTooSmall(old(S()), nb)
    {
      hide Sane, KeptFor, Live, BinsOK, Added, Marked, Sound, And, FromBin, LowTwo, LowBit, BinsAbove, LeastBit,
           BestBinned;
      ghost var s, m := S(), M();
      SmallMapSays(s, nb);
      var idx := nb / 8;
      var smallbits := FromBin(bins.w.smallmap, idx);
      FirstTwoBins(bins.w.smallmap, idx);
      mem := 0;
      if LowTwo(smallbits) {
        if !LowBit(smallbits) {
          idx := idx + 1;
        }
        mem := TakeSmall(idx, 8 * idx);
        ExactFits(s, nb, mem - 8);
      } else if nb > dvsize {
        if smallbits != 0 {
          FirstBinAbove(bins.w.smallmap, idx);
          var i := Ctz(LeastBit(BinsAbove(smallbits, idx)));
          NoneBetween(s, nb, i);
          mem := SplitSmall(i, nb);
          NextSmallest(s, nb, i, mem - 8);
        } else {
          NoneBetween(s, nb, 32);
          if bins.w.treemap != 0 {
            mem := TmallocSmall(nb);
            BestExists(s, nb, mem - 8);
          } else {
            NoLargeChunks(s, nb);
            KeptSame(m, Live(chunks));
          }
        }
      } else {
        KeptSame(m, Live(chunks));
      }
    }

    /** The end of dlmalloc: the designated victim, top, or the system. */
    method FromRest(nb: int, granted: bool) returns (mem: int)
      requires Valid() && (Sound(nb) || (nb == WORD - 1 && dvsize < nb && topsize < nb)) && 0 < nb < WORD
      modifies this`head, this`foot, this`chunks, this`dv, this`dvsize, this`top, this`topsize, this`end, this`trimCheck
      ensures Valid() && KeptFor(old(M()), M(), Live(old(chunks)))
      ensures mem != 0 ==>
              Added(old(chunks), chunks, mem - 8, nb) && mem - 8 == if nb <= old(dvsize) then old(dv) else old(top)
      ensures mem == 0 ==> S() == old(S()) && dvsize < nb && topsize <= nb
      ensures nb == WORD - 1 ==> mem == 0
      ensures nb < WORD - 1 ==>
                (mem == 0 <==>
                 old(dvsize) < nb && old(topsize) <= nb && (granted ==> CannotGrow(nb, old(topsize), old(end))))
    {
      hide Sane, KeptFor, Live, BinsOK, Added, CannotGrow, SizeOK;
      if nb <= dvsize {
        mem := TakeDv(nb);
      } else if nb < topsize {
        mem := TakeTop(nb);
      } else {
        mem := SysAlloc(nb, granted);
      }
    }

    /** dlmalloc */
    method Malloc(bytes: nat, granted: bool) returns (mem: int)
      requires Valid() && bytes < WORD
      modifies bins, this`head, this`foot, this`chunks, this`dv, this`dvsize, this`top, this`topsize, this`end,
        this`trimCheck
      ensures Valid() && KeptFor(old(M()), M(), Live(old(chunks)))
      ensures mem == 0 ==> S() == old(S())
      ensures mem == 0 <==> Refused(old(S()), bytes, granted)
      ensures mem != 0 ==> Added(old(chunks), chunks, mem - 8, RequestSize(bytes))
      ensures mem != 0 ==> if bytes <= MAX_SMALL_REQUEST then SmallChoice(old(S()), RequestSize(bytes), mem - 8)
                           else LargeChoice(old(S()), RequestSize(bytes), mem - 8)
    {
      hide Sane, KeptFor, Live, BinsOK, Added, Sound, BinsTooSmall, DvTightest, BestBinned, CannotGrow, RequestSize,
           SizeOK;
      ghost var s, m := S(), M();
      var nb;
      KeptSame(m, Live(chunks));
      if bytes <= MAX_SMALL_REQUEST {
        RequestIs(bytes);
        nb := RequestSize(bytes);
        mem := SmallFromBins(nb);
        if mem != 0 {
          return;
        }
      } else if bytes >= MAX_REQUEST {
        nb := WORD - 1;
        HugeRequest(s);
      } else {
        RequestIs(bytes);
        nb := RequestSize(bytes);
        if bins.w.treemap != 0 {
          mem := TmallocLarge(nb);
          if mem != 0 {
            BestExists(s, nb, mem - 8);
            BestBeatsDv(s, nb, mem - 8);
            return;
          }
        } else {
          NoLargeChunks(s, nb);
          OnlySmallChunks(s, nb);
        }
      }
      DvLoose(s, nb);
      ghost var m1 := M();
      mem := FromRest(nb, granted);
      KeptTrans(m, m1, M(), Live(s.chunks));
    }

    // ---- dlfree and dispose_chunk ----

    /** set_free_with_pinuse for [q, e), which becomes an unbinned free chunk. */
    method MergeFree(q: int, e: int, ghost p: int, ghost limbo: set<int>)
      requires bins.Valid() && Sane(S(), limbo) && Region(S(), q, e, p) && e in chunks && chunks[e].inuse
      requires Unlinked(S(), q, e) && !(q <= dv < e) && LimboIn(limbo, q, e)
      modifies this`head, this`foot, this`chunks
      ensures bins.Valid() && Sane(S(), {q}) && q in chunks && chunks[q].size == e - q
      ensures Removed(old(chunks), chunks, p) && KeptFor(old(M()), M(), Live(old(chunks)) - {p})
    {
      hide Sane, KeptFor, Live, BinsOK, One, Region, Rd, SameBut, Pack, ClearPinuse;
      ghost var s, m := S(), M();
      var h := head[e := ClearPinuse(Rd(head, e))];
      h := h[q := e - q + 1];
      var f := foot[e := e - q];
      MergeWords(s, limbo, q, e, p);
      MergeOK(s, limbo, q, e, h, f);
      MergeKept(s, limbo, m, q, e, p, h, f);
      LiveAfterMerge(s, q, e, p);
      OneIs(s.chunks, q, e);
      head := h;
      foot := f;
      chunks := One(chunks, q, e, false);
    }

    /** As MergeFree, where the region holds the designated victim and becomes the new one. */
    method MergeIntoDv(q: int, e: int, ghost p: int, ghost limbo: set<int>)
      requires bins.Valid() && Sane(S(), limbo) && Region(S(), q, e, p) && e in chunks && chunks[e].inuse
      requires Unlinked(S(), q, e) && dv != 0 && q <= dv < e && LimboIn(limbo, q, e)
      modifies this`head, this`foot, this`chunks, this`dv, this`dvsize
      ensures Valid() && Removed(old(chunks), chunks, p) && KeptFor(old(M()), M(), Live(old(chunks)) - {p})
    {
      hide Sane, KeptFor, Live, BinsOK, One, Region, Rd, SameBut, Pack, ClearPinuse;
      ghost var s, m := S(), M();
      var h := head[e := ClearPinuse(Rd(head, e))];
      h := h[q := e - q + 1];
      var f := foot[e := e - q];
      MergeWords(s, limbo, q, e, p);
      MergeDvOK(s, limbo, q, e, h, f);
      MergeKept(s, limbo, m, q, e, p, h, f);
      LiveAfterMerge(s, q, e, p);
      dv := q;
      dvsize := e - q;
      head := h;
      foot := f;
      chunks := One(chunks, q, e, false);
    }

    /** The region ends at top and becomes part of it. */
    method MergeIntoTop(q: int, ghost p: int, ghost limbo: set<int>)
      requires bins.Valid() && Sane(S(), limbo) && Region(S(), q, top, p)
      requires Unlinked(S(), q, top) && LimboIn(limbo, q, top)
      modifies this`head, this`chunks, this`dv, this`dvsize, this`top, this`topsize
      ensures Valid() && Removed(old(chunks), chunks, p) && KeptFor(old(M()), M(), Live(old(chunks)) - {p})
      ensures top == q && end == old(end)
    {
      hide Sane, KeptFor, Live, BinsOK, EndAt, Region, Rd, SameBut;
      ghost var s, m := S(), M();
      var tsize := topsize + (top - q);
      TopMergeOK(s, limbo, q, p, tsize);
      TopMergeKept(s, limbo, m, q, p, tsize);
      LiveAfterEnd(s, limbo, q, p);
      if q == dv {
        dv := 0;
        dvsize := 0;
      }
      topsize := tsize;
      top := q;
      head := head[q := tsize + 1];
      chunks := EndAt(chunks, q, q);
    }

    /** The second half of dispose_chunk: what follows the region decides. */
    method Forward(p: int, psize0: int, next: int, ghost p0: int, ghost m: Memory, ghost limbo: set<int>)
      returns (intoTop: bool)
      requires bins.Valid() && Sane(S(), limbo) && Region(S(), p, next, p0) && psize0 == next - p
      requires Ready(S(), p, next) && LimboIn(limbo, p, next)
      requires next in chunks && chunks[next].inuse ==> p != dv
      requires KeptFor(m, M(), Live(chunks) - {p0})
      modifies bins, this`head, this`foot, this`chunks, this`dv, this`dvsize, this`top, this`topsize
      ensures Valid() && Removed(old(chunks), chunks, p0) && KeptFor(m, M(), Live(old(chunks)) - {p0})
      ensures end == old(end) && intoTop == (top != old(top))
    {
      hide Sane, KeptFor, BinsOK, Region, Rd, Pack, ChunkSize, Cinuse, Removed, Live, Unlinked;
      ghost var s, m1 := S(), M();
      ghost var live := Live(chunks) - {p0};
      intoTop := false;
      var psize := psize0;
      RegionEnd(s, p, next, p0);
      NextHead(s, limbo, next);
      if !Cinuse(Rd(head, next)) {
        if next == top {
          MergeIntoTop(p, p0, limbo);
          KeptTrans(m, m1, M(), live);
          intoTop := true;
          return;
        }
        ForwardRegion(s, limbo, p, next, p0);
        if next == dv {
          var dsize := dvsize + psize;
          ForwardDv(s, limbo, p, next, p0);
          MergeIntoDv(p, p + dsize, p0, limbo);
          KeptTrans(m, m1, M(), live);
          return;
        }
        var nsize := ChunkSize(Rd(head, next));
        psize := psize + nsize;
        ForwardBinned(s, limbo, p, next, p0);
        UnbinChunk(next, limbo);
        KeptForFewer(m1, M(), chunks, p0);
        KeptTrans(m, m1, M(), live);
        ghost var s2, m2 := S(), M();
        ForwardReady(s, s2, limbo, p, next, p0);
        if p == dv {
          MergeIntoDv(p, p + psize, p0, limbo + {next});
          KeptTrans(m, m2, M(), live);
          return;
        }
        MergeFree(p, p + psize, p0, limbo + {next});
        KeptTrans(m, m2, M(), live);
      } else {
        MergeFree(p, next, p0, limbo);
        KeptTrans(m, m1, M(), live);
      }
      ghost var m3 := M();
      BinChunk(p, psize);
      LiveShrinks(s.chunks, chunks, p0);
      KeptTrans(m, m3, M(), live);
    }

    /** dispose_chunk, and the consolidation of dlfree: the live chunk p becomes free and merges with the free
        chunks next to it, with the designated victim, or with top. */
    method Dispose(p0: int) returns (intoTop: bool)
      requires Valid() && p0 in Live(chunks)
      modifies bins, this`head, this`foot, this`chunks, this`dv, this`dvsize, this`top, this`topsize
      ensures Valid() && Removed(old(chunks), chunks, p0) && KeptFor(old(M()), M(), Live(old(chunks)) - {p0})
      ensures end == old(end) && intoTop == (top != old(top))
    {
      hide Sane, KeptFor, BinsOK, Region, Rd, Pack, ChunkSize, Pinuse, Cinuse, Removed, LinksKept;
      ghost var s, m := S(), M();
      ghost var live := Live(chunks) - {p0};
      ghost var limbo := {};
      LiveHead(s, p0);
      hide Live;
      var p := p0;
      var psize := ChunkSize(Rd(head, p));
      var next := p + psize;
      KeptSame(m, live);
      if !Pinuse(Rd(head, p)) {
        ghost var r := PrevChunk(s, {}, p);
        var prevsize := Rd(foot, p);
        BackRegion(s, {}, r, p0);
        psize := psize + prevsize;
        p := p - prevsize;
        if p != dv {
          BackBinned(s, p, next, p0);
          UnbinChunk(p, {});
          limbo := {} + {p};
          KeptForFewer(m, M(), chunks, p0);
          RegionIgnoresBins(s, S(), p, next, p0);
        } else {
          BackDv(s, p, next, p0);
          RegionEnd(s, p, next, p0);
          NextHead(s, {}, next);
          if Cinuse(Rd(head, next)) {
            MergeIntoDv(p, next, p0, {});
            intoTop := false;
            return;
          }
        }
      } else {
        LoneRegion(s, {}, p0);
        LoneUnlinked(s, p0, next);
      }
      intoTop := Forward(p, psize, next, p0, m, limbo);
    }

    // ---- realloc in place ----

    /** set_inuse(p, n) for all of [p, e). */
    method ExtendLive(p: int, n: int, ghost limbo: set<int>)
      requires bins.Valid() && Sane(S(), limbo) && Span(S(), limbo, p, p + n)
      modifies this`head, this`foot, this`chunks, this`dv, this`dvsize
      ensures Valid() && Resized(old(chunks), chunks, p, n)
      ensures KeptFor(old(M()), M(), Live(old(chunks)))
    {
      hide Sane, KeptFor, BinsOK, One, Rd, SameBut, Pack, InuseHead, Live, NextHeadOK;
      ghost var s, m := S(), M();
      SpanHead(s, limbo, p, p + n);
      var h := InuseHead(head, p, n);
      var f := foot[p + n := cookie];
      ExtendOK(s, limbo, p, n, h, f);
      ExtendKept(s, limbo, m, p, n, h, f);
      LiveExtended(s, limbo, p, p + n);
      head := h;
      foot := f;
      if p <= dv < p + n {
        dv := 0;
        dvsize := 0;
      }
      chunks := One(chunks, p, p + n, true);
    }

    /** set_inuse(p, nb) and set_inuse on the rest of [p, p + n), which becomes a block of its own. */
    method SplitLive(p: int, nb: int, n: int, ghost limbo: set<int>)
      requires bins.Valid() && Sane(S(), limbo) && Span(S(), limbo, p, p + n)
      requires Sound(nb) && nb < n && !(p <= dv < p + n)
      modifies this`head, this`foot, this`chunks
      ensures Valid() && end == old(end) && Divided(old(chunks), chunks, p, nb, n)
      ensures KeptFor(old(M()), M(), Common(Live(old(chunks)), p, nb))
    {
      hide Sane, KeptFor, BinsOK, Two, Rd, SameBut, Pack, InuseHead, Live, NextHeadOK, Sound, Divided, Common;
      ghost var s, m := S(), M();
      SoundPositive(nb);
      SpanHead(s, limbo, p, p + n);
      var r := p + nb;
      var h := InuseHead(head, p, nb);
      var f := foot[r := cookie];
      h := InuseHead(h, r, n - nb);
      f := f[r + (n - nb) := cookie];
      SplitLiveOK(s, limbo, p, nb, n, h, f);
      SplitLiveKept(s, limbo, m, p, nb, n, h, f);
      LiveSplit(s, limbo, p, nb, n);
      head := h;
      foot := f;
      chunks := Two(chunks, p, r, p + n, true, true);
    }

    /** The extension of p into top. */
    method ExtendIntoTop(p: int, nb: int)
      requires Valid() && p in Live(chunks) && p + chunks[p].size == top && Sound(nb)
      requires chunks[p].size < nb < chunks[p].size + topsize
      modifies this`head, this`foot, this`chunks, this`top, this`topsize
      ensures Valid() && Resized(old(chunks), chunks, p, nb)
      ensures KeptFor(old(M()), M(), Live(old(chunks)))
    {
      hide Sane, KeptFor, BinsOK, EndAt, Rd, SameBut, Pack, InuseHead, Live, Sound;
      ghost var s, m := S(), M();
      LiveTag(s, p);
      var newtopsize := ChunkSize(Rd(head, p)) + topsize - nb;
      var newtop := p + nb;
      var h := InuseHead(head, p, nb);
      var f := foot[newtop := cookie];
      h := h[newtop := newtopsize + 1];
      IntoTopOK(s, p, nb, newtopsize, h, f);
      IntoTopKept(s, m, p, nb, newtopsize, h, f);
      IntoTopLive(s, p, nb);
      head := h;
      foot := f;
      top := newtop;
      topsize := newtopsize;
      chunks := EndAt(chunks, p, newtop);
    }

    /** The extension of p into part of the designated victim behind it. */
    method ExtendIntoDv(p: int, nb: int, dsize: int)
      requires Valid() && p in Live(chunks) && p + chunks[p].size == dv && Sound(nb) && chunks[p].size < nb
      requires dsize == chunks[p].size + dvsize - nb > 0
      modifies this`head, this`foot, this`chunks, this`dv, this`dvsize
      ensures Valid() && Resized(old(chunks), chunks, p, nb)
      ensures KeptFor(old(M()), M(), Live(old(chunks)))
    {
      hide Sane, KeptFor, BinsOK, Two, Rd, SameBut, Pack, InuseHead, Live, Sound, ClearPinuse;
      ghost var s, m := S(), M();
      var r := p + nb;
      var n := r + dsize;
      var h := InuseHead(head, p, nb);
      var f := foot[r := cookie];
      h := h[r := dsize + 1];
      f := f[n := dsize];
      h := h[n := ClearPinuse(Rd(h, n))];
      IntoDvOK(s, p, nb, dsize, h, f);
      IntoDvKept(s, m, p, nb, dsize, h, f);
      IntoDvLive(s, p, nb, dsize);
      head := h;
      foot := f;
      dvsize := dsize;
      dv := r;
      chunks := Two(chunks, p, r, n, true, false);
    }

    /** dispose_chunk for the block that was split off p. */
    method DisposeRest(p: int, nb: int, ghost n: int, ghost before: map<int, Chunk>, ghost m: Memory)
      requires Valid() && Divided(before, chunks, p, nb, n) && KeptFor(m, M(), Common(Live(before), p, nb))
      modifies bins, this`head, this`foot, this`chunks, this`dv, this`dvsize, this`top, this`topsize
      ensures Valid() && end == old(end)
      ensures Resized(before, chunks, p, nb) && KeptFor(m, M(), Common(Live(before), p, nb))
    {
      hide Sane, KeptFor, BinsOK, Live, Resized;
      ghost var m1, mid := M(), chunks;
      var intoTop := Dispose(p + nb);
      Undivided(before, mid, chunks, p, nb, n);
      CommonKept(m1, M(), Live(before), p, nb);
      KeptTrans(m, m1, M(), Common(Live(before), p, nb));
    }

    /** The block is big enough: the rest, if there is any, is disposed of. */
    method Shrink(p: int, nb: int, oldsize: int)
      requires Valid() && p in Live(chunks) && Sound(nb) && nb <= oldsize == chunks[p].size
      modifies bins, this`head, this`foot, this`chunks, this`dv, this`dvsize, this`top, this`topsize
      ensures Valid() && end == old(end)
      ensures Resized(old(chunks), chunks, p, nb) && KeptFor(old(M()), M(), Common(Live(old(chunks)), p, nb))
    {
      hide Sane, KeptFor, BinsOK, Live, Sound, Resized;
      ghost var s, m := S(), M();
      LiveTag(s, p);
      Multiples(s, {}, p, nb);
      var rsize := oldsize - nb;
      if rsize >= MIN_CHUNK_SIZE {
        LoneSpan(s, p);
        SplitLive(p, nb, oldsize, {});
        DisposeRest(p, nb, oldsize, s.chunks, m);
      } else {
        KeptSame(m, Common(Live(chunks), p, nb));
        SameSize(chunks, p);
      }
    }

    /** Into the designated victim behind p, of which a chunk or nothing remains. */
    method GrowIntoDv(p: int, nb: int, oldsize: int) returns (newp: int)
      requires Valid() && p in Live(chunks) && Sound(nb) && oldsize == chunks[p].size < nb && p + oldsize == dv
      modifies this`head, this`foot, this`chunks, this`dv, this`dvsize
      ensures Valid()
      ensures newp == if nb <= oldsize + old(dvsize) then p else 0
      ensures newp == 0 ==> S() == old(S()) && M() == old(M())
      ensures newp != 0 ==> Resized(old(chunks), chunks, p, nb) && KeptFor(old(M()), M(), Live(old(chunks)))
    {
      hide Sane, KeptFor, BinsOK, Live, Sound, Resized;
      ghost var s := S();
      NotNullLive(s, p);
      newp := 0;
      AfterDv(s, p);
      DvFacts(s, {});
      if oldsize + dvsize >= nb {
        var dsize := oldsize + dvsize - nb;
        JoinedMultiples(s, {}, p, nb);
        if dsize >= MIN_CHUNK_SIZE {
          ExtendIntoDv(p, nb, dsize);
        } else {
          JoinedSpan(s, s, {}, p);
          ExtendLive(p, oldsize + dvsize, {});
        }
        newp := p;
      }
    }

    /** Into the binned free chunk behind p. */
    method GrowIntoNext(p: int, nb: int, oldsize: int) returns (newp: int)
      requires Valid() && p in Live(chunks) && Sound(nb) && oldsize == chunks[p].size < nb
      requires IsFree(chunks, p + oldsize) && p + oldsize != dv
      modifies bins, this`head, this`foot, this`chunks, this`dv, this`dvsize, this`top, this`topsize
      ensures Valid() && end == old(end)
      ensures newp == if nb <= oldsize + old(chunks[p + oldsize]).size then p else 0
      ensures newp == 0 ==> S() == old(S()) && M() == old(M())
      ensures newp != 0 ==> Resized(old(chunks), chunks, p, nb) && KeptFor(old(M()), M(), Live(old(chunks)))
    {
      hide Sane, KeptFor, BinsOK, Live, Sound, Resized, Rd, ChunkSize, Common;
      ghost var s, m := S(), M();
      NotNullLive(s, p);
      newp := 0;
      var next := p + oldsize;
      ForwardBinned(s, {}, p, next, p);
      HeadsOK(s, {}, next);
      BinnedChunk(s, next);
      var nextsize := ChunkSize(Rd(head, next));
      if oldsize + nextsize >= nb {
        var rsize := oldsize + nextsize - nb;
        JoinedMultiples(s, {}, p, nb);
        CommonWhole(s, p, nb);
        UnbinChunk(next, {});
        ghost var m1 := M();
        assert {} + {next} == {next};
        JoinedSpan(s, S(), {next}, p);
        if rsize < MIN_CHUNK_SIZE {
          ExtendLive(p, oldsize + nextsize, {next});
          KeptTrans(m, m1, M(), Live(s.chunks));
        } else {
          NoDvInside(s, p);
          SplitLive(p, nb, oldsize + nextsize, {next});
          KeptTrans(m, m1, M(), Live(s.chunks));
          DisposeRest(p, nb, oldsize + nextsize, s.chunks, m);
        }
        newp := p;
      }
    }

    /** try_realloc_chunk */
    method TryRealloc(p: int, nb: int) returns (newp: int)
      requires Valid() && p in Live(chunks) && Sound(nb)
      modifies bins, this`head, this`foot, this`chunks, this`dv, this`dvsize, this`top, this`topsize
      ensures Valid() && end == old(end)
      ensures newp == if old(RoomInPlace(S(), p, nb)) then p else 0
      ensures newp == 0 ==> S() == old(S()) && M() == old(M())
      ensures newp != 0 ==> Resized(old(chunks), chunks, p, nb)
      ensures newp != 0 ==> KeptFor(old(M()), M(), Common(Live(old(chunks)), p, nb))
    {
      hide Sane, KeptFor, BinsOK, Live, Rd, Sound, Cinuse, ChunkSize, Common, Resized, RoomInPlace;
      ghost var s, m := S(), M();
      LiveTag(s, p);
      NotNullLive(s, p);
      var oldsize := ChunkSize(Rd(head, p));
      var next := p + oldsize;
      NextHead(s, {}, next);
      RoomBehind(s, p, nb);
      newp := 0;
      if oldsize >= nb {
        Shrink(p, nb, oldsize);
        newp := p;
      } else {
        CommonWhole(s, p, nb);
        if next == top {
          if oldsize + topsize > nb {
            ExtendIntoTop(p, nb);
            newp := p;
          }
        } else if next == dv {
          newp := GrowIntoDv(p, nb, oldsize);
        } else if !Cinuse(Rd(head, next)) {
          newp := GrowIntoNext(p, nb, oldsize);
        }
      }
    }

    // ---- dlfree ----

    /** sys_trim with no padding: gives whole pages at the end of top back, keeping at least one byte of top beyond
        the segment overhead. `granted` says whether the system moves its break. */
    method SysTrim(granted: bool)
      requires Valid()
      modifies this`head, this`topsize, this`end, this`trimCheck
      ensures Valid() && end - topsize == old(end - topsize)
      ensures !granted || old(topsize) <= TOP_FOOT_SIZE ==> S() == old(S())
      ensures granted && old(topsize) > TOP_FOOT_SIZE ==> TOP_FOOT_SIZE < topsize <= TOP_FOOT_SIZE + GRANULARITY
      ensures (old(end) - end) % GRANULARITY == 0 && end <= old(end)
      ensures KeptFor(old(M()), M(), Live(chunks))
    {
      hide Sane, KeptFor, Live, BinsOK, Rd;
      ghost var s, m := S(), M();
      KeptSame(m, Live(chunks));
      if topsize > TOP_FOOT_SIZE {
        var unit := GRANULARITY;
        var extra := ((topsize - TOP_FOOT_SIZE + (unit - 1)) / unit - 1) * unit;
        PagesOf(s, topsize - TOP_FOOT_SIZE);
        if extra >= HALF_MAX {
          extra := HALF_MAX + 1 - unit;
        }
        var released := if granted then extra else 0;
        if released != 0 {
          ResizeTopOK(s, -released);
          GrowKept(s, m, -released);
          head := head[top := topsize - released + 1];
          topsize := topsize - released;
          end := end - released;
          trimCheck := TRIM_THRESHOLD;
        }
        if released == 0 && topsize > trimCheck {
          trimCheck := MAX_SIZE_T;
        }
      }
    }

    /** The malloc_state that a foot word names: get_mstate_for. */
    function OwnerOf(f: nat): int {
      Xor(f, magic, 32)
    }

    /** The footer of every live block decodes to the owning malloc_state. */
    lemma FootersDecode(p: int)
      requires Valid() && p in Live(chunks)
      ensures var f := Rd(foot, p + Live(chunks)[p]); f == cookie && f >= 0 && OwnerOf(f) == GM
    {
      hide Apart, Binned, SizesAgree, DvOK, Rd;
      assert TagOK(head, foot, chunks, cookie, p);
      PowersOfTwo();
      XorTwice(GM, magic, 32);
    }

    /** dlfree; the result is false if the footer does not name this malloc_state (a usage error). */
    method Free(mem: int, granted: bool) returns (ok: bool)
      requires Valid() && (mem == 0 || mem - 8 in Live(chunks))
      modifies bins, this`head, this`foot, this`chunks, this`dv, this`dvsize, this`top, this`topsize, this`end,
        this`trimCheck
      ensures Valid() && ok
      ensures mem == 0 ==> S() == old(S()) && M() == old(M())
      ensures mem != 0 ==>
              Removed(old(chunks), chunks, mem - 8) && KeptFor(old(M()), M(), Live(old(chunks)) - {mem - 8})
      ensures end != old(end) ==> granted && topsize <= TOP_FOOT_SIZE + GRANULARITY
    {
      hide Sane, KeptFor, Live, BinsOK, Removed, Rd, ChunkSize, Xor;
      ok := true;
      if mem != 0 {
        ghost var s, m := S(), M();
        var p := mem - 8;
        LiveTag(s, p);
        FootersDecode(p);
        LiveSize(chunks, p);
        if OwnerOf(Rd(foot, p + ChunkSize(Rd(head, p)))) != GM {
          ok := false;
          return;
        }
        var intoTop := Dispose(p);
        if intoTop && topsize > trimCheck {
          ghost var m1 := M();
          SysTrim(granted);
          LiveShrinks(s.chunks, chunks, p);
          KeptTrans(m, m1, M(), Live(chunks));
        }
      }
    }

    // ---- dlrealloc ----

    /** The word at a, wherever the maps keep it. */
    function Load(a: int): (x: int)
      reads this, bins
      ensures x == Word(M(), a)
    {
      var k, g := Slot(a), Granule(a);
      if k == 0 then Rd(foot, g)
      else if k == 1 then Rd(head, g)
      else if k == 2 then Rd(bins.w.fd, g)
      else if k == 3 then Rd(bins.w.bk, g)
      else if k == 4 then Rd(bins.w.tree.child0, g)
      else if k == 5 then Rd(bins.w.tree.child1, g)
      else if k == 6 then Rd(bins.w.tree.parent, g)
      else Rd(bins.w.tree.index, g)
    }

    /** A program's store of one byte into its block at p. */
    method StoreByte(ghost p: int, a: int, b: int)
      requires Valid() && p in Live(chunks) && p + 8 <= a < p + Live(chunks)[p] && 0 <= b < 256
      modifies bins, this`head, this`foot
      ensures Valid() && S() == old(S()).(head := head, foot := foot)
      ensures M() == ByteStored(old(M()), a, b)
    {
      hide Sane, BinsOK, Live, Rd, Word, SameBut;
      ghost var s, m := S(), M();
      var w := a - a % 4;
      var x := SetDigit(Load(w), a % 4, b);
      var k, g := Slot(w), Granule(w);
      StoredWhere(s, p, w, a);
      OneWritten(foot, g, x);
      OneWritten(head, g, x);
      if k == 0 {
        StoredTag(s, p, g, s.head, foot[g := x]);
        foot := foot[g := x];
      } else if k == 1 {
        StoredTag(s, p, g, head[g := x], s.foot);
        head := head[g := x];
      } else {
        bins.StoreLink(k, g, x);
      }
    }

    /** memcpy of n bytes from the block at p to the block at q. */
    method Copy(ghost q: int, dst: int, ghost p: int, src: int, n: nat)
      requires Valid() && p in Live(chunks) && q in Live(chunks) && p != q && dst == q + 8 && src == p + 8
      requires 8 + n <= Live(chunks)[p] && 8 + n <= Live(chunks)[q]
      modifies bins, this`head, this`foot
      ensures Valid() && S() == old(S()).(head := head, foot := foot)
      ensures SameBytes(old(M()), src, M(), dst, n) && KeptFor(old(M()), M(), Live(chunks) - {q})
    {
      hide Sane, BinsOK, Live, Rd, Word, KeptFor, ByteAt, ByteStored, SameBytes;
      ghost var s, m := S(), M();
      KeptSame(m, Live(chunks) - {q});
      SameNone(m, src, m, dst);
      var i := 0;
      while i < n
        invariant 0 <= i <= n && Valid() && S() == s.(head := head, foot := foot)
        invariant SameBytes(m, src, M(), dst, i) && KeptFor(m, M(), Live(s.chunks) - {q})
        invariant forall c :: !(dst <= c < dst + i) ==> ByteAt(M(), c) == ByteAt(m, c)
      {
        ghost var s1, m1 := S(), M();
        ApartBlocks(s1, p, q);
        var a := src + i;
        var b := Digit(Load(a - a % 4), a % 4);
        ByteIs(m1, a);
        StoreByte(q, dst + i, b);
        StoreKept(s1, m1, q, dst + i, b);
        KeptTrans(m, m1, M(), Live(s.chunks) - {q});
        forall c
          ensures ByteAt(M(), c) == if c == dst + i then b else ByteAt(m1, c)
        {
          ReadByte(m1, dst + i, b, c);
        }
        SameMore(m, src, m1, M(), dst, i);
        i := i + 1;
      }
    }

    /** The end of dlrealloc: the contents move to the new block at mem, and the old block is freed. */
    method MoveInto(oldmem: int, mem: int, bytes: nat, trims: bool, ghost before: map<int, Chunk>, ghost m: Memory)
      requires Valid() && bytes < MAX_REQUEST && oldmem != 0 && oldmem - 8 in Live(before)
      requires Added(before, chunks, mem - 8, RequestSize(bytes)) && KeptFor(m, M(), Live(before))
      modifies bins, this`head, this`foot, this`chunks, this`dv, this`dvsize, this`top, this`topsize, this`end,
        this`trimCheck
      ensures Valid() && Exchanged(before, chunks, oldmem - 8, mem - 8, RequestSize(bytes)) && mem != oldmem
      ensures SameBytes(m, oldmem, M(), mem, Least(Live(before)[oldmem - 8] - 8, bytes))
      ensures KeptFor(m, M(), Live(before) - {oldmem - 8})
    {
      hide Sane, KeptFor, Live, BinsOK, Added, Sound, RequestSize, SameBytes, Exchanged, Rd, ChunkSize, SizeOK, Removed;
      ghost var s1, m1, p, q := S(), M(), oldmem - 8, mem - 8;
      var oc := ChunkSize(Rd(head, oldmem - 8)) - CHUNK_OVERHEAD;
      MoveFits(s1, before, p, q, bytes);
      Copy(q, mem, p, oldmem, if oc < bytes then oc else bytes);
      ghost var m2 := M();
      var ok := Free(oldmem, trims);
      MoveReplaced(before, s1.chunks, chunks, p, q, RequestSize(bytes));
      MoveKept(before, s1.chunks, m, m1, m2, M(), p, q, RequestSize(bytes));
      MoveBytes(s1, before, m, m1, m2, M(), p, q, bytes);
    }

    /** dlrealloc; `trims` is the system's answer if the old block's chunk makes top large enough to trim. */
    method Realloc(oldmem: int, bytes: nat, granted: bool, trims: bool) returns (mem: int)
      requires Valid() && bytes < WORD && (oldmem == 0 || oldmem - 8 in Live(chunks))
      modifies bins, this`head, this`foot, this`chunks, this`dv, this`dvsize, this`top, this`topsize, this`end,
        this`trimCheck
      ensures Valid()
      ensures mem == 0 ==> S() == old(S()) && KeptFor(old(M()), M(), Live(chunks))
      ensures oldmem == 0 && mem != 0 ==>
                Added(old(chunks), chunks, mem - 8, RequestSize(bytes)) && KeptFor(old(M()), M(), Live(old(chunks)))
      ensures oldmem != 0 && mem != 0 ==>
                && bytes < MAX_REQUEST && Exchanged(old(chunks), chunks, oldmem - 8, mem - 8, RequestSize(bytes))
                && SameBytes(old(M()), oldmem, M(), mem, Least(old(Live(chunks)[oldmem - 8]) - 8, bytes))
                && KeptFor(old(M()), M(), Live(old(chunks)) - {oldmem - 8})
      ensures oldmem != 0 && bytes < MAX_REQUEST ==>
                (mem == oldmem <==> old(RoomInPlace(S(), oldmem - 8, RequestSize(bytes))))
      ensures mem == 0 <==>
                Refused(old(S()), bytes, granted)
                && (oldmem != 0 && bytes < MAX_REQUEST ==> !old(RoomInPlace(S(), oldmem - 8, RequestSize(bytes))))
    {
      hide Sane, KeptFor, Live, BinsOK, Added, Sound, RequestSize, SameBytes, Exchanged, CannotGrow, NothingFits,
           RoomInPlace, Rd, ChunkSize, Resized, Common, SizeOK, Removed, SmallChoice, LargeChoice;
      ghost var s, m := S(), M();
      mem := 0;
      KeptSame(m, Live(chunks));
      if oldmem == 0 {
        mem := Malloc(bytes, granted);
      } else if bytes < MAX_REQUEST {
        RequestIs(bytes);
        var nb := RequestSize(bytes);
        var oldp := oldmem - 8;
        LiveTag(s, oldp);
        NotNullLive(s, oldp);
        LiveSize(chunks, oldp);
        FootersDecode(oldp);
        if OwnerOf(Rd(foot, oldp + ChunkSize(Rd(head, oldp)))) != GM {
          return;
        }
        var newp := TryRealloc(oldp, nb);
        if newp != 0 {
          mem := newp + 8;
          InPlace(s, m, M(), chunks, oldp, bytes);
        } else {
          mem := Malloc(bytes, granted);
          if mem != 0 {
            MoveInto(oldmem, mem, bytes, trims, s.chunks, m);
          }
        }
      }
    }

    // ---- dlmemalign ----

    /** internal_memalign: gives the first `lead` bytes of the new block at p back. */
    method GiveLeader(p: int, lead: int, ghost before: map<int, Chunk>, ghost m0: Memory)
      requires Valid() && p in Live(chunks) && Added(before, chunks, p, chunks[p].size)
      requires Sound(lead) && lead < chunks[p].size && KeptFor(m0, M(), Live(before))
      modifies bins, this`head, this`foot, this`chunks, this`dv, this`dvsize, this`top, this`topsize
      ensures Valid() && end == old(end)
      ensures Added(before, chunks, p + lead, old(chunks[p]).size - lead) && KeptFor(m0, M(), Live(before))
    {
      hide Sane, KeptFor, Live, BinsOK, Two, Rd, SameBut, Pack, InuseHead, Added, Sound, Divided, Removed, ChunkSize;
      ghost var s, m := S(), M();
      SoundPositive(lead);
      LiveTag(s, p);
      var newsize := ChunkSize(Rd(head, p)) - lead;
      var newp := p + lead;
      LoneSpan(s, p);
      var h := InuseHead(head, newp, newsize);
      var f := foot[newp + newsize := cookie];
      h := InuseHead(h, p, lead);
      f := f[p + lead := cookie];
      LeadOK(s, p, lead, h, f);
      LeadKept(s, m, before, p, lead, h, f);
      LiveSplit(s, {}, p, lead, s.chunks[p].size);
      head := h;
      foot := f;
      chunks := Two(chunks, p, newp, newp + newsize, true, true);
      KeptTrans(m0, m, M(), Live(before));
      ghost var m1, mid := M(), chunks;
      LeadIsLive(s.chunks, mid, p, lead);
      var intoTop := Dispose(p);
      LeadLive(before, s.chunks, mid, chunks, p, lead);
      LeadRest(before, s.chunks, mid, p, lead);
      KeptFewer(m1, M(), Live(mid) - {p}, Live(before));
      KeptTrans(m0, m1, M(), Live(before));
    }

    /** Gives back what the new block at p has beyond nb bytes. */
    method GiveTail(p: int, nb: int, ghost before: map<int, Chunk>, ghost m0: Memory)
      requires Valid() && p in Live(chunks) && Added(before, chunks, p, chunks[p].size)
      requires Sound(nb) && nb < chunks[p].size && KeptFor(m0, M(), Live(before))
      modifies bins, this`head, this`foot, this`chunks, this`dv, this`dvsize, this`top, this`topsize
      ensures Valid() && end == old(end)
      ensures Added(before, chunks, p, nb) && KeptFor(m0, M(), Live(before))
    {
      hide Sane, KeptFor, Live, BinsOK, Added, Sound, Divided, Resized, ChunkSize, Rd, Common;
      ghost var s, m := S(), M();
      LiveTag(s, p);
      LoneSpan(s, p);
      var size := ChunkSize(Rd(head, p));
      SplitLive(p, nb, size, {});
      DisposeRest(p, nb, size, s.chunks, m);
      TailLive(before, s.chunks, chunks, p, nb);
      KeptFewer(m, M(), Common(Live(s.chunks), p, nb), Live(before));
      KeptTrans(m0, m, M(), Live(before));
    }

    /** Cuts the over-allocated block at mem down to nb bytes at an aligned address. */
    method FitWithin(mem: int, alignment: nat, nb: int, ghost before: map<int, Chunk>, ghost m: Memory) returns (p: int)
      requires Valid() && mem - 8 in Live(chunks) && Added(before, chunks, mem - 8, chunks[mem - 8].size) && Sound(nb)
      requires IsPower(alignment) && alignment >= 32 && alignment % 32 == 0 && mem >= HEAP_LOW && mem % 32 == 0
      requires var n := chunks[mem - 8].size; n % 32 == 0 && n >= nb + alignment + MIN_CHUNK_SIZE && mem - 8 + n <= WORD
      requires KeptFor(m, M(), Live(before))
      modifies bins, this`head, this`foot, this`chunks, this`dv, this`dvsize, this`top, this`topsize
      ensures Valid() && Added(before, chunks, p, nb) && KeptFor(m, M(), Live(before)) && p > 0
      ensures (p + 8) % alignment == 0
    {
      hide Sane, KeptFor, Live, BinsOK, Added, ChunkSize, Rd, BitAnd, IsPower;
      p := mem - 8;
      LiveTag(S(), p);
      AlignedSpot(p, alignment, nb, chunks[p].size);
      if BitAnd(mem, alignment - 1, 32) != 0 {
        var br := BitAnd(mem + alignment - 1, WORD - alignment, 32) - 8;
        var pos := if br - p >= MIN_CHUNK_SIZE then br else br + alignment;
        GiveLeader(p, pos - p, before, m);
        p := pos;
      }
      BlockSize(S(), before, p);
      var size := ChunkSize(Rd(head, p));
      if size > nb + MIN_CHUNK_SIZE {
        GiveTail(p, nb, before, m);
      }
    }

    /** internal_memalign, for alignments the rounding loop ends for. */
    method AlignedMalloc(alignment0: nat, bytes: nat, granted: bool) returns (mem: int)
      requires Valid() && bytes < WORD && alignment0 <= HALF_WORD
      modifies bins, this`head, this`foot, this`chunks, this`dv, this`dvsize, this`top, this`topsize, this`end,
        this`trimCheck
      ensures Valid() && KeptFor(old(M()), M(), Live(old(chunks)))
      ensures mem == 0 ==> S() == old(S())
      ensures mem == 0 <==> AlignedRefused(old(S()), alignment0, bytes, granted)
      ensures mem != 0 ==> Added(old(chunks), chunks, mem - 8, RequestSize(bytes)) && AlignedFor(mem, alignment0)
    {
      hide Sane, KeptFor, Live, BinsOK, Added, Sound, RequestSize, ChunkSize, Rd, BitAnd, SizeOK, IsPower, SmallChoice,
           LargeChoice;
      ghost var s, m := S(), M();
      KeptSame(m, Live(chunks));
      mem := 0;
      var alignment := RoundUp(alignment0);
      if bytes < MAX_REQUEST - alignment {
        RequestIs(bytes);
        RequestFits(bytes);
        var nb := RequestSize(bytes);
        var req := nb + alignment + MIN_CHUNK_SIZE - CHUNK_OVERHEAD;
        mem := Malloc(req, granted);
        if mem != 0 {
          Overallocated(S(), s.chunks, mem - 8, req);
          var p := FitWithin(mem, alignment, nb, s.chunks, m);
          mem := p + 8;
        }
      }
    }

    /** dlmemalign */
    method Memalign(alignment: nat, bytes: nat, granted: bool) returns (mem: int)
      requires Valid() && bytes < WORD && alignment <= HALF_WORD
      modifies bins, this`head, this`foot, this`chunks, this`dv, this`dvsize, this`top, this`topsize, this`end,
        this`trimCheck
      ensures Valid() && KeptFor(old(M()), M(), Live(old(chunks)))
      ensures mem == 0 ==> S() == old(S())
      ensures mem == 0 <==>
                if alignment <= MALLOC_ALIGNMENT then Refused(old(S()), bytes, granted)
                else AlignedRefused(old(S()), alignment, bytes, granted)
      ensures mem != 0 ==> Added(old(chunks), chunks, mem - 8, RequestSize(bytes)) && AlignedFor(mem, alignment)
    {
      hide Sane, KeptFor, Live, BinsOK, Added, Sound, RequestSize, SizeOK, SmallChoice, LargeChoice, AlignedFor;
      if alignment <= MALLOC_ALIGNMENT {
        ghost var before := chunks;
        mem := Malloc(bytes, granted);
        if mem != 0 {
          BlockSize(S(), before, mem - 8);
          AlignedBy32(S(), mem, alignment);
        }
      } else {
        mem := AlignedMalloc(alignment, bytes, granted);
      }
    }

    // ---- what the debug checkers see ----

    /** bin_find finds the free chunks other than the designated victim, and no others. */
    method FindInBins(q: int) returns (found: bool)
      requires Valid() && q in chunks
      ensures found <==> !chunks[q].inuse && q != dv
    {
      hide Sane, BinsOK, Rd, ChunkSize, SizeOK, HeadsAgree;
      HeadsForBins({});
      WalkFind(S(), q);
      found := bins.BinFind(q, ChunkSize(Rd(head, q)), head);
    }

    lemma WalkBinned(s: State, q: int)
      requires Valid() && s == S() && q in chunks && !chunks[q].inuse
      ensures q != dv ==> Rd(bins.w.bk, Rd(bins.w.fd, q)) == q && Rd(bins.w.fd, Rd(bins.w.bk, q)) == q
    {
      hide Tiled, Tagged, Rd, BinsOK;
      if q != dv { LinkedBothWays(bins.V(), q); }
    }

    /** traverse_and_check: walks from the base of the segment to top, checks every chunk on the way, and adds up. */
    method TraverseAndCheck() returns (sum: int, ok: bool)
      requires Valid()
      ensures ok && sum == end - base
    {
      hide Sane, BinsOK, Rd, ChunkSize, Cinuse, Pinuse, Pack, SizeOK, HeadsAgree;
      ghost var s := S();
      sum := topsize + TOP_FOOT_SIZE;
      var q, lastq := base, 0;
      WalkStart(s);
      ok := Pinuse(Rd(head, q));
      while q != top
        invariant Boundary(chunks, top, q) && q <= top && top + topsize + TOP_FOOT_SIZE == end
        invariant sum == topsize + TOP_FOOT_SIZE + (q - base) && ok
        invariant lastq != 0 ==> lastq in chunks && lastq + chunks[lastq].size == q
        decreases top - q
      {
        var sz := ChunkSize(Rd(head, q));
        var next := q + sz;
        sum := sum + sz;
        WalkStep(s, q);
        if Cinuse(Rd(head, q)) {
          var found := FindInBins(q);
          ok := ok && !found && Pinuse(Rd(head, next));
          if !Pinuse(Rd(head, q)) {
            var prev := q - Rd(foot, q);
            ok := ok && prev + ChunkSize(Rd(head, prev)) == q;
          }
        } else {
          if q != dv {
            var found := FindInBins(q);
            ok := ok && found;
          }
          ok := ok && !Pinuse(Rd(head, next)) && Rd(foot, next) == sz && sz % 32 == 0 && Pinuse(Rd(head, q));
          ok := ok && (next == top || Cinuse(Rd(head, next)));
          WalkLast(s, lastq, q);
          ok := ok && (lastq == 0 || Cinuse(Rd(head, lastq)));
          WalkBinned(s, q);
          ok := ok && (q == dv || (Rd(bins.w.bk, Rd(bins.w.fd, q)) == q && Rd(bins.w.fd, Rd(bins.w.bk, q)) == q));
        }
        lastq := q;
        q := next;
      }
    }

    /** A live block: 32-byte aligned, inside the segment, apart from all others. */
    lemma LiveBlock(p: int)
      requires Valid() && p in Live(chunks)
      ensures (p + 8) % 32 == 0 && base <= p && p + Live(chunks)[p] <= top
      ensures forall q :: q in Live(chunks) && q != p ==> p + Live(chunks)[p] <= q || q + Live(chunks)[q] <= p
    {
      hide Rd;
      LiveTag(S(), p);
      BoundaryAligned(chunks, base, top, p);
      BoundaryAligned(chunks, base, top, p + chunks[p].size);
      Mod32(p / 32 + 1, 0);
      forall q | q in Live(chunks) && q != p
        ensures p + Live(chunks)[p] <= q || q + Live(chunks)[q] <= p
      {
        ApartBlocks(S(), p, q);
      }
    }

    /** do_check_malloced_chunk: the usable bytes cover the request and exceed it by less than a minimum chunk. */
    lemma UsableSize(p: int, bytes: nat)
      requires Valid() && p in Live(chunks) && bytes < MAX_REQUEST && Live(chunks)[p] == RequestSize(bytes)
      ensures bytes <= Live(chunks)[p] - CHUNK_OVERHEAD < bytes + MIN_CHUNK_SIZE
      ensures ChunkSize(Rd(head, p)) == RequestSize(bytes)
    {
      hide Rd, RequestSize, ChunkSize;
      RequestFits(bytes);
      LiveTag(S(), p);
    }
  }
}
