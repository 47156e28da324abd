/** The block allocation table of a memory card: the threading and freeing of chains of blocks. The words of
    the table's sector are numbered from 0, so that the entry of block b is word b. */
module Fat {
  import opened Words

  type U16 = x: int | 0 <= x < 0x1_0000

  /** ++ on an unsigned 16-bit word */
  function Inc16(x: U16): U16 {
    if x == 0xffff then 0 else x + 1
  }

  lemma IncMod(x: U16, n: nat)
    ensures forall y: U16 :: y == (x + n) % 0x1_0000 ==> Inc16(y) == (x + (n + 1)) % 0x1_0000
  {
  }

  const SYSAREA := 5
  const SECTOR_WORDS := 4096
  const FAT_UPDATED := 2
  const FAT_FREEBLOCKS := 3
  const FAT_LASTALLOC := 4
  const LAST_BLOCK: U16 := 0xffff

  datatype Status = Ready | NoSpace | Broken

  predicate InArea(b: int, blocks: nat) {
    SYSAREA <= b < blocks
  }

  /** The number of free blocks in [lo, hi). */
  ghost function Free(w: seq<U16>, lo: nat, hi: nat): (n: nat)
    requires hi <= |w|
    ensures n <= if lo < hi then hi - lo else 0
    decreases hi
  {
    if lo >= hi then 0 else Free(w, lo, hi - 1) + if w[hi - 1] == 0 then 1 else 0
  }

  lemma {:induction false} FreeSplit(w: seq<U16>, lo: nat, mid: nat, hi: nat)
    requires lo <= mid <= hi <= |w|
    ensures Free(w, lo, hi) == Free(w, lo, mid) + Free(w, mid, hi)
    decreases hi
  {
    if mid == hi {
    } else {
      FreeSplit(w, lo, mid, hi - 1);
    }
  }

  lemma {:induction false} FreeAfter(w: seq<U16>, lo: nat, hi: nat, b: nat, v: U16)
    requires hi <= |w| && b < |w|
    ensures Free(w[b := v], lo, hi) ==
              Free(w, lo, hi) + if lo <= b < hi then (if v == 0 then 1 else 0) - (if w[b] == 0 then 1 else 0) else 0
    decreases hi
  {
    if lo >= hi {
    } else {
      FreeAfter(w, lo, hi - 1, b, v);
    }
  }

  /** The free count of the sector is right. */
  ghost predicate Counted(w: seq<U16>, blocks: nat) {
    |w| == SECTOR_WORDS && SYSAREA <= blocks <= SECTOR_WORDS && w[FAT_FREEBLOCKS] == Free(w, SYSAREA, blocks)
  }

  ghost predicate Inside(c: seq<int>, blocks: nat) {
    forall i :: 0 <= i < |c| ==> InArea(c[i], blocks)
  }

  /** The table links the i-th block of c to the next one, and its last to `end`. */
  ghost predicate LinkAt(w: seq<U16>, c: seq<int>, end: int, i: int)
    requires 0 <= i < |c|
  {
    0 <= c[i] < |w| && w[c[i]] == if i + 1 < |c| then c[i + 1] else end
  }

  ghost predicate Linked(w: seq<U16>, c: seq<int>, end: int) {
    forall i {:trigger LinkAt(w, c, end, i)} :: 0 <= i < |c| ==> LinkAt(w, c, end, i)
  }

  /** c is a complete chain of the table: it ends with the end mark. */
  ghost predicate IsChain(w: seq<U16>, blocks: nat, c: seq<int>) {
    |c| > 0 && blocks <= |w| == SECTOR_WORDS && Inside(c, blocks) && Distinct(c) && Linked(w, c, LAST_BLOCK)
  }

  /** Where the search meets block b: blocks are visited upwards from s and then from the first block on. */
  function Rank(b: int, s: int, blocks: int): int {
    if b >= s then b - s else b - s + (blocks - SYSAREA)
  }

  /** The block the search looks at first. */
  function FirstVisited(lastalloc: U16, blocks: nat): int {
    if InArea(Inc16(lastalloc), blocks) then Inc16(lastalloc) else SYSAREA
  }

  ghost predicate Ascending(blocks: nat, s: int, c: seq<int>) {
    forall i, j :: 0 <= i < j < |c| ==> Rank(c[i], s, blocks) < Rank(c[j], s, blocks)
  }

  ghost predicate NoneLeft(w: seq<U16>, blocks: nat, s: int, c: seq<int>, r: int)
    requires blocks <= |w|
  {
    forall b :: InArea(b, blocks) && w[b] == 0 && Rank(b, s, blocks) < r ==> b in c
  }

  /** c lists free blocks in the order of the search and leaves no free block before its last one out. */
  ghost predicate FirstFree(w: seq<U16>, blocks: nat, s: int, c: seq<int>)
    requires blocks <= |w|
  {
    && Ascending(blocks, s, c)
    && (|c| > 0 ==> NoneLeft(w, blocks, s, c, Rank(c[|c| - 1], s, blocks)))
  }

  ghost predicate Ranked(blocks: nat, s: int, c: seq<int>, r: int) {
    forall i :: 0 <= i < |c| ==> Rank(c[i], s, blocks) < r
  }

  /** The table after the blocks of c, all free before, were threaded into one chain. */
  ghost predicate Allocated(w: seq<U16>, w': seq<U16>, blocks: nat, c: seq<int>) {
    && |w'| == |w| == SECTOR_WORDS && blocks <= SECTOR_WORDS
    && Inside(c, blocks) && Distinct(c) && Linked(w', c, LAST_BLOCK)
    && (forall i :: 0 <= i < |c| ==> w[c[i]] == 0)
    && (forall b :: 0 <= b < |w| && b !in c && b != FAT_FREEBLOCKS && b != FAT_LASTALLOC ==> w'[b] == w[b])
    && w'[FAT_FREEBLOCKS] == w[FAT_FREEBLOCKS] - |c|
    && w'[FAT_LASTALLOC] == if c == [] then w[FAT_LASTALLOC] else c[|c| - 1]
  }

  /** What the search has done after reaching block cur: the free blocks met so far are threaded, except that the
      last of them still ends the chain. */
  ghost predicate Threading(w: seq<U16>, w': seq<U16>, blocks: nat, c: seq<int>) {
    && |w'| == |w| == SECTOR_WORDS && blocks <= SECTOR_WORDS
    && Inside(c, blocks) && Distinct(c) && Linked(w', c, LAST_BLOCK)
    && (forall i :: 0 <= i < |c| ==> w[c[i]] == 0)
    && (forall b :: 0 <= b < |w| && b !in c ==> w'[b] == w[b])
  }

  /** After `count` steps the search stands at block cur and has collected the free blocks it met. */
  ghost predicate Progress(w: seq<U16>, blocks: nat, s: int, c: seq<int>, count: int, cur: U16)
    requires |w| == SECTOR_WORDS && blocks <= SECTOR_WORDS
  {
    if count == 0 then
      c == [] && s == FirstVisited(cur, blocks)
    else
      && InArea(s, blocks) && InArea(cur, blocks) && Rank(cur, s, blocks) == count - 1
      && |c| == (if cur >= s then Free(w, s, cur + 1) else Free(w, s, blocks) + Free(w, SYSAREA, cur + 1))
      && Ascending(blocks, s, c) && Ranked(blocks, s, c, count)
      && NoneLeft(w, blocks, s, c, count)
  }

  lemma RankedStep(blocks: nat, s: int, c: seq<int>, count: nat, next: int)
    requires Rank(next, s, blocks) == count && Ascending(blocks, s, c) && Ranked(blocks, s, c, count)
    ensures Ascending(blocks, s, c + [next]) && Ranked(blocks, s, c + [next], count + 1)
    ensures Ranked(blocks, s, c, count + 1)
    ensures next !in c
  {
    hide Rank;
  }

  lemma RankNext(blocks: nat, s: int, count: nat, cur: U16, next: U16)
    requires blocks <= SECTOR_WORDS && count < blocks - SYSAREA
    requires next == if InArea(Inc16(cur), blocks) then Inc16(cur) else SYSAREA
    requires if count == 0 then s == FirstVisited(cur, blocks)
             else InArea(s, blocks) && InArea(cur, blocks) && Rank(cur, s, blocks) == count - 1
    ensures InArea(next, blocks) && Rank(next, s, blocks) == count && InArea(s, blocks) && (count == 0 ==> next == s)
    ensures count > 0 ==> next == if cur + 1 < blocks then cur + 1 else SYSAREA
  {
  }

  lemma NoRank(blocks: nat, s: int)
    ensures Ascending(blocks, s, []) && Ranked(blocks, s, [], 0)
  {
  }

  lemma FirstOnly(w: seq<U16>, s: nat)
    requires s < |w|
    ensures Free(w, s, s + 1) == if w[s] == 0 then 1 else 0
  {
  }

  lemma NoneLeftStep(w: seq<U16>, blocks: nat, s: int, c: seq<int>, count: nat, next: U16)
    requires blocks <= |w| && InArea(s, blocks) && InArea(next, blocks) && Rank(next, s, blocks) == count
    requires count > 0 ==> NoneLeft(w, blocks, s, c, count)
    ensures NoneLeft(w, blocks, s, if w[next] == 0 then c + [next] else c, count + 1)
  {
    var c' := if w[next] == 0 then c + [next] else c;
    assert w[next] == 0 ==> c'[|c|] == next;
    forall b | InArea(b, blocks) && w[b] == 0 && Rank(b, s, blocks) < count + 1
      ensures b in c'
    {
      if Rank(b, s, blocks) == count { assert b == next; } else { assert b in c; }
    }
  }

  lemma NextFree(w: seq<U16>, blocks: nat, s: int, cur: U16, next: U16)
    requires |w| == SECTOR_WORDS && blocks <= SECTOR_WORDS && InArea(s, blocks) && InArea(cur, blocks)
    requires next == if cur + 1 < blocks then cur + 1 else SYSAREA
    requires Rank(cur, s, blocks) + 1 < blocks - SYSAREA
    ensures (if next >= s then Free(w, s, next + 1) else Free(w, s, blocks) + Free(w, SYSAREA, next + 1))
            == (if cur >= s then Free(w, s, cur + 1) else Free(w, s, blocks) + Free(w, SYSAREA, cur + 1))
               + if w[next] == 0 then 1 else 0
  {
  }

  lemma ProgressStep(w: seq<U16>, blocks: nat, s: int, c: seq<int>, count: nat, cur: U16, next: U16)
    requires |w| == SECTOR_WORDS && blocks <= SECTOR_WORDS && count < blocks - SYSAREA
    requires Progress(w, blocks, s, c, count, cur)
    requires next == if InArea(Inc16(cur), blocks) then Inc16(cur) else SYSAREA
    requires Inside(c, blocks)
    ensures InArea(next, blocks) && (w[next] == 0 ==> next !in c)
    ensures Progress(w, blocks, s, if w[next] == 0 then c + [next] else c, count + 1, next)
  {
    hide Free, Rank, Ascending, Ranked, NoneLeft, Inside;
    RankNext(blocks, s, count, cur, next);
    NoRank(blocks, s);
    var c' := if w[next] == 0 then c + [next] else c;
    if count > 0 {
      NextFree(w, blocks, s, cur, next);
    } else {
      FirstOnly(w, s);
    }
    RankedStep(blocks, s, c, count, next);
    NoneLeftStep(w, blocks, s, c, count, next);
  }

  /** The search has been everywhere. */
  lemma AllVisited(w: seq<U16>, blocks: nat, s: int, c: seq<int>, count: nat, cur: U16)
    requires |w| == SECTOR_WORDS && SYSAREA <= blocks <= SECTOR_WORDS && count == blocks - SYSAREA
    requires Progress(w, blocks, s, c, count, cur)
    ensures |c| == Free(w, SYSAREA, blocks)
  {
    if count > 0 { FreeSplit(w, SYSAREA, s, blocks); }
  }

  /** The search never collects more than there is. */
  lemma NotMore(w: seq<U16>, blocks: nat, s: int, c: seq<int>, count: nat, cur: U16)
    requires |w| == SECTOR_WORDS && SYSAREA <= blocks <= SECTOR_WORDS && Progress(w, blocks, s, c, count, cur)
    ensures |c| <= Free(w, SYSAREA, blocks)
  {
    if count > 0 {
      FreeSplit(w, SYSAREA, s, blocks);
      if cur >= s { FreeSplit(w, s, cur + 1, blocks); } else { FreeSplit(w, SYSAREA, cur + 1, s); }
    }
  }

  lemma ThreadOne(w: seq<U16>, w': seq<U16>, blocks: nat, c: seq<int>, b: U16)
    requires Threading(w, w', blocks, c) && InArea(b, blocks) && w[b] == 0 && b !in c
    ensures var w1 := if c == [] then w' else w'[c[|c| - 1] := b];
            Threading(w, w1[b := LAST_BLOCK], blocks, c + [b])
  {
    var w1 := if c == [] then w' else w'[c[|c| - 1] := b];
    var c' := c + [b];
    var w2 := w1[b := LAST_BLOCK];
    forall i | 0 <= i < |c'|
      ensures LinkAt(w2, c', LAST_BLOCK, i)
    {
      if i < |c| {
        assert InArea(c[i], blocks);
        assert LinkAt(w', c, LAST_BLOCK, i);
      }
    }
    forall d | 0 <= d < |w| && d !in c'
      ensures w1[b := LAST_BLOCK][d] == w[d]
    {
      assert d !in c && d != b;
    }
  }

  /** A block met for the first time still has its old entry. */
  lemma UntouchedOrMet(w: seq<U16>, w': seq<U16>, blocks: nat, c: seq<int>, b: U16)
    requires Threading(w, w', blocks, c) && InArea(b, blocks) && (w[b] == 0 ==> b !in c)
    ensures w'[b] == w[b]
  {
  }

  lemma Threaded(w: seq<U16>, w1: seq<U16>, w2: seq<U16>, blocks: nat, c: seq<int>)
    requires Threading(w, w1, blocks, c) && w1[FAT_FREEBLOCKS] >= |c| && |w2| == |w1|
    requires w2[FAT_FREEBLOCKS] == w1[FAT_FREEBLOCKS] - |c|
    requires w2[FAT_LASTALLOC] == if c == [] then w[FAT_LASTALLOC] else c[|c| - 1]
    requires forall b :: 0 <= b < |w1| && b != FAT_FREEBLOCKS && b != FAT_LASTALLOC ==> w2[b] == w1[b]
    ensures Allocated(w, w2, blocks, c)
  {
    forall i | 0 <= i < |c|
      ensures LinkAt(w2, c, LAST_BLOCK, i)
    {
      assert InArea(c[i], blocks) && LinkAt(w1, c, LAST_BLOCK, i);
    }
    assert forall i :: 0 <= i < |c| ==> InArea(c[i], blocks);
  }

  lemma SearchBegins(w: seq<U16>, blocks: nat, cur: U16)
    requires |w| == SECTOR_WORDS && blocks <= SECTOR_WORDS
    ensures Threading(w, w, blocks, []) && Progress(w, blocks, FirstVisited(cur, blocks), [], 0, cur)
  {
  }

  lemma SearchEnds(w: seq<U16>, blocks: nat, s: int, c: seq<int>, count: nat, cur: U16)
    requires |w| == SECTOR_WORDS && blocks <= SECTOR_WORDS && Progress(w, blocks, s, c, count, cur)
    ensures FirstFree(w, blocks, s, c)
  {
  }

  lemma ThreadingFacts(w: seq<U16>, w': seq<U16>, blocks: nat, c: seq<int>)
    requires Threading(w, w', blocks, c)
    ensures Inside(c, blocks) && |w'| == |w| == SECTOR_WORDS && w'[FAT_FREEBLOCKS] == w[FAT_FREEBLOCKS]
    ensures w'[FAT_LASTALLOC] == w[FAT_LASTALLOC]
  {
    assert forall i :: 0 <= i < |c| ==> InArea(c[i], blocks);
  }

  lemma {:induction false} FreeSame(w: seq<U16>, w': seq<U16>, lo: nat, hi: nat)
    requires hi <= |w| && hi <= |w'| && forall b :: lo <= b < hi ==> (w[b] == 0 <==> w'[b] == 0)
    ensures Free(w, lo, hi) == Free(w', lo, hi)
    decreases hi
  {
    if lo >= hi {
    } else {
      FreeSame(w, w', lo, hi - 1);
    }
  }

  /** Exactly the blocks of c are free in w and taken in w'. */
  lemma {:induction false} FreeDiffers(w: seq<U16>, w': seq<U16>, blocks: nat, c: seq<int>)
    requires |w| == |w'| == SECTOR_WORDS && blocks <= SECTOR_WORDS && Inside(c, blocks) && Distinct(c)
    requires forall b :: SYSAREA <= b < blocks ==> if b in c then w[b] == 0 && w'[b] != 0 else w[b] == w'[b]
    ensures Free(w, SYSAREA, blocks) == Free(w', SYSAREA, blocks) + |c|
    decreases |c|
  {
    if c == [] {
      FreeSame(w, w', SYSAREA, blocks);
    } else {
      var d, l := c[..|c| - 1], c[|c| - 1];
      assert InArea(l, blocks) && l in c;
      var w1 := w'[l := 0];
      forall b | SYSAREA <= b < blocks
        ensures if b in d then w[b] == 0 && w1[b] != 0 else w[b] == w1[b]
      {
        assert b in c <==> b in d || b == l;
        if b in d { assert b != l; }
      }
      FreeDiffers(w, w1, blocks, d);
      FreeAfter(w', SYSAREA, blocks, l, 0);
    }
  }

  lemma ChainTaken(w: seq<U16>, blocks: nat, c: seq<int>)
    requires Inside(c, blocks) && Linked(w, c, LAST_BLOCK)
    ensures forall b :: b in c ==> InArea(b, blocks) && b < |w| && w[b] != 0
  {
    forall b | b in c
      ensures InArea(b, blocks) && b < |w| && w[b] != 0
    {
      var i :| 0 <= i < |c| && c[i] == b;
      assert LinkAt(w, c, LAST_BLOCK, i);
      if i + 1 < |c| { assert InArea(c[i + 1], blocks); }
    }
  }

  /** The free count stays right. */
  lemma AllocCounted(w: seq<U16>, w': seq<U16>, blocks: nat, c: seq<int>)
    requires Counted(w, blocks) && Allocated(w, w', blocks, c)
    ensures Counted(w', blocks)
  {
    ChainTaken(w', blocks, c);
    assert forall i :: 0 <= i < |c| ==> InArea(c[i], blocks);
    FreeDiffers(w, w', blocks, c);
  }

  /** __card_allocblock, up to the commit of the changed table. */
  method AllocBlock(fat: array<U16>, blocks: nat, blocksneed: nat)
    returns (ret: Status, block: U16, ghost chain: seq<int>)
    requires fat.Length == SECTOR_WORDS && SYSAREA <= blocks <= SECTOR_WORDS
    modifies fat
    ensures ret == NoSpace <==> old(fat[FAT_FREEBLOCKS]) < blocksneed
    ensures ret == NoSpace ==> fat[..] == old(fat[..])
    ensures ret == Broken <==> Free(old(fat[..]), SYSAREA, blocks) < blocksneed <= old(fat[FAT_FREEBLOCKS])
    ensures ret == Ready ==> |chain| == blocksneed && Allocated(old(fat[..]), fat[..], blocks, chain)
    ensures ret == Ready ==> FirstFree(old(fat[..]), blocks, FirstVisited(old(fat[FAT_LASTALLOC]), blocks), chain)
    ensures ret == Ready ==> block == if chain == [] then LAST_BLOCK else chain[0]
    ensures old(Counted(fat[..], blocks)) ==> ret != Broken && (ret == Ready ==> Counted(fat[..], blocks))
  {
    hide Free, Progress, Threading, Allocated, Linked, Rank;
    ghost var w := fat[..];
    chain := [];
    block := LAST_BLOCK;
    if fat[FAT_FREEBLOCKS] < blocksneed {
      return NoSpace, block, chain;
    }
    var count := 0;
    var currblock: U16 := fat[FAT_LASTALLOC];
    var prevblock: U16 := 0;
    var i := blocksneed;
    ghost var s := FirstVisited(currblock, blocks);
    SearchBegins(w, blocks, currblock);
    while i != 0
      invariant 0 <= i <= blocksneed && |chain| == blocksneed - i && 0 <= count <= blocks - SYSAREA
      invariant Threading(w, fat[..], blocks, chain)
      invariant block == if chain == [] then LAST_BLOCK else chain[0]
      invariant chain != [] ==> prevblock == chain[|chain| - 1]
      invariant Progress(w, blocks, s, chain, count, currblock)
      invariant i == 0 ==> currblock == if chain == [] then w[FAT_LASTALLOC] else prevblock
      decreases blocks - SYSAREA - count
    {
      ThreadingFacts(w, fat[..], blocks, chain);
      count := count + 1;
      if count > blocks - SYSAREA {
        AllVisited(w, blocks, s, chain, count - 1, currblock);
        return Broken, block, chain;
      }
      ghost var was := currblock;
      currblock := Inc16(currblock);
      if currblock < SYSAREA || currblock >= blocks {
        currblock := SYSAREA;
      }
      ProgressStep(w, blocks, s, chain, count - 1, was, currblock);
      UntouchedOrMet(w, fat[..], blocks, chain, currblock);
      if fat[currblock] == 0 {
        ThreadOne(w, fat[..], blocks, chain, currblock);
        if block != LAST_BLOCK {
          fat[prevblock] := currblock;
        } else {
          block := currblock;
        }
        fat[currblock] := LAST_BLOCK;
        prevblock := currblock;
        i := i - 1;
        chain := chain + [currblock];
      }
    }
    ThreadingFacts(w, fat[..], blocks, chain);
    SearchEnds(w, blocks, s, chain, count, currblock);
    NotMore(w, blocks, s, chain, count, currblock);
    ghost var w1 := fat[..];
    fat[FAT_FREEBLOCKS] := fat[FAT_FREEBLOCKS] - blocksneed;
    fat[FAT_LASTALLOC] := currblock;
    Threaded(w, w1, fat[..], blocks, chain);
    if Counted(w, blocks) {
      AllocCounted(w, fat[..], blocks, chain);
    }
    ret := Ready;
  }

  // ---- freeing ----

  /** The entries of the blocks of c are cleared, all others are as before. */
  ghost predicate Cleared(w: seq<U16>, w': seq<U16>, blocks: nat, c: seq<int>) {
    && |w'| == |w| == SECTOR_WORDS && blocks <= SECTOR_WORDS && Inside(c, blocks)
    && (forall b :: 0 <= b < |w| && b != FAT_FREEBLOCKS ==> w'[b] == if b in c then 0 else w[b])
  }

  /** And the free count knows. */
  ghost predicate Freed(w: seq<U16>, w': seq<U16>, blocks: nat, c: seq<int>) {
    Cleared(w, w', blocks, c) && w'[FAT_FREEBLOCKS] == (w[FAT_FREEBLOCKS] + |c|) % 0x1_0000
  }

  /** c follows the links from its first block, and `next` is the link of its last. */
  ghost predicate Path(w: seq<U16>, blocks: nat, c: seq<int>, next: int) {
    |c| > 0 && blocks <= |w| == SECTOR_WORDS && Inside(c, blocks) && Distinct(c) && Linked(w, c, next)
  }

  /** There is at most one complete chain from a block: it extends every path from there. */
  lemma {:induction false} PathOfChain(w: seq<U16>, blocks: nat, c: seq<int>, d: seq<int>, next: int, k: nat)
    requires IsChain(w, blocks, c) && Path(w, blocks, d, next) && c[0] == d[0] && k < |d|
    ensures k < |c| && c[k] == d[k]
    ensures k == |d| - 1 ==> next == if |d| < |c| then c[|d|] else LAST_BLOCK
  {
    hide Distinct;
    if k == 0 {
    } else {
      PathOfChain(w, blocks, c, d, next, k - 1);
      assert LinkAt(w, c, LAST_BLOCK, k - 1) && LinkAt(w, d, next, k - 1);
      assert InArea(d[k], blocks);
    }
    assert LinkAt(w, c, LAST_BLOCK, k) && LinkAt(w, d, next, k);
  }

  /** While the walk frees blocks: those of `done` are cleared, and `next` is the link of the last of them. */
  ghost predicate Clearing(w: seq<U16>, w': seq<U16>, blocks: nat, done: seq<int>, next: int) {
    Path(w, blocks, done, next) && Freed(w, w', blocks, done)
  }

  lemma ClearOne(w: seq<U16>, w': seq<U16>, blocks: nat, done: seq<int>, b: U16)
    requires Clearing(w, w', blocks, done, b) && InArea(b, blocks) && b !in done
    ensures var w1 := w'[b := 0];
            Clearing(w, w1[FAT_FREEBLOCKS := Inc16(w1[FAT_FREEBLOCKS])], blocks, done + [b], w[b])
  {
    var d := done + [b];
    forall i | 0 <= i < |d|
      ensures LinkAt(w, d, w[b], i)
    {
      if i < |done| { assert LinkAt(w, done, b, i); }
    }
    IncMod(w[FAT_FREEBLOCKS], |done|);
  }

  lemma ClearingFacts(w: seq<U16>, w': seq<U16>, blocks: nat, done: seq<int>, next: int)
    requires Clearing(w, w', blocks, done, next)
    ensures Cleared(w, w', blocks, done)
  {
  }

  lemma ClearFirst(w: seq<U16>, blocks: nat, b: U16)
    requires |w| == SECTOR_WORDS && blocks <= SECTOR_WORDS && InArea(b, blocks)
    ensures var w1 := w[b := 0];
            Clearing(w, w1[FAT_FREEBLOCKS := Inc16(w1[FAT_FREEBLOCKS])], blocks, [b], w[b])
  {
  }

  ghost function OneFreed(w: seq<U16>, b: U16): seq<U16>
    requires |w| == SECTOR_WORDS && b < SECTOR_WORDS
  {
    w[b := 0][FAT_FREEBLOCKS := Inc16(w[b := 0][FAT_FREEBLOCKS])]
  }

  lemma StillCleared(w: seq<U16>, w1: seq<U16>, blocks: nat, done: seq<int>, b: U16)
    requires Cleared(w, w1, blocks, done) && InArea(b, blocks) && w1[b] == 0
    ensures Cleared(w, OneFreed(w1, b), blocks, done)
  {
  }

  lemma NewEntry(w: seq<U16>, w1: seq<U16>, blocks: nat, done: seq<int>, b: U16)
    requires Cleared(w, w1, blocks, done) && InArea(b, blocks) && b !in done
    ensures w1[b] == w[b]
  {
  }

  lemma MoreFree(w: seq<U16>, blocks: nat, b: U16)
    requires |w| == SECTOR_WORDS && blocks <= SECTOR_WORDS && InArea(b, blocks)
    ensures Free(OneFreed(w, b), SYSAREA, blocks) == Free(w, SYSAREA, blocks) + if w[b] == 0 then 0 else 1
    ensures Free(OneFreed(w, b), SYSAREA, blocks) <= blocks
  {
    FreeAfter(w, SYSAREA, blocks, b, 0);
    FreeAfter(w[b := 0], SYSAREA, blocks, FAT_FREEBLOCKS, Inc16(w[b := 0][FAT_FREEBLOCKS]));
  }

  ghost predicate NoChain(w: seq<U16>, blocks: nat, block: int) {
    forall c :: IsChain(w, blocks, c) ==> c[0] != block
  }

  lemma NotOnChain(w: seq<U16>, blocks: nat, c: seq<int>, done: seq<int>, next: U16)
    requires IsChain(w, blocks, c) && Path(w, blocks, done, next) && c[0] == done[0] && next != LAST_BLOCK
    ensures InArea(next, blocks) && next !in done
  {
    var n := |done|;
    PathOfChain(w, blocks, c, done, next, n - 1);
    assert InArea(c[n], blocks);
    forall j | 0 <= j < n
      ensures done[j] != next
    {
      PathOfChain(w, blocks, c, done, next, j);
    }
  }

  /** A link out of the area, or back into the path, belongs to no complete chain. */
  lemma LeadsNowhere(w: seq<U16>, w': seq<U16>, blocks: nat, done: seq<int>, next: U16)
    requires Clearing(w, w', blocks, done, next) && next != LAST_BLOCK && (!InArea(next, blocks) || next in done)
    ensures |done| > 0 && NoChain(w, blocks, done[0]) && Cleared(w, w', blocks, done)
    ensures next in done ==> w'[next] == 0
  {
    forall c | IsChain(w, blocks, c)
      ensures c[0] != done[0]
    {
      if c[0] == done[0] {
        NotOnChain(w, blocks, c, done, next);
      }
    }
  }

  lemma WalkEnds(w: seq<U16>, w': seq<U16>, blocks: nat, done: seq<int>)
    requires Clearing(w, w', blocks, done, LAST_BLOCK)
    ensures IsChain(w, blocks, done) && Freed(w, w', blocks, done) && Cleared(w, w', blocks, done)
  {
  }

  /** __card_freeblock, up to the commit of the changed table. It ends for every table, even a cyclic one, because
      the walk clears what it has seen and then finds no link there. */
  method FreeBlock(fat: array<U16>, blocks: nat, block: U16) returns (ret: Status, ghost done: seq<int>)
    requires fat.Length == SECTOR_WORDS && blocks <= SECTOR_WORDS && InArea(block, blocks)
    modifies fat
    ensures ret == Ready <==> exists c :: IsChain(old(fat[..]), blocks, c) && c[0] == block
    ensures ret == Ready ==> IsChain(old(fat[..]), blocks, done) && done[0] == block
    ensures ret != Ready ==> ret == Broken
    ensures ret == Ready ==> Freed(old(fat[..]), fat[..], blocks, done)
    ensures Cleared(old(fat[..]), fat[..], blocks, done)
  {
    hide Clearing, Freed, Cleared, IsChain, Free;
    ghost var w := fat[..];
    var next: U16 := fat[block];
    fat[block] := 0;
    fat[FAT_FREEBLOCKS] := Inc16(fat[FAT_FREEBLOCKS]);
    done := [block];
    ClearFirst(w, blocks, block);
    ClearingFacts(w, fat[..], blocks, done, next);
    ghost var stuck := false;
    while next != LAST_BLOCK
      invariant done != [] && done[0] == block
      invariant !stuck ==> Clearing(w, fat[..], blocks, done, next) && Cleared(w, fat[..], blocks, done)
      invariant stuck ==> next == 0 && Cleared(w, fat[..], blocks, done) && NoChain(w, blocks, block)
      decreases blocks - Free(fat[..], SYSAREA, blocks), next
    {
      if next < SYSAREA || next >= blocks {
        if !stuck { LeadsNowhere(w, fat[..], blocks, done, next); }
        return Broken, done;
      }
      var prev := next;
      ghost var w1 := fat[..];
      next := fat[prev];
      fat[prev] := 0;
      fat[FAT_FREEBLOCKS] := Inc16(fat[FAT_FREEBLOCKS]);
      assert fat[..] == OneFreed(w1, prev);
      MoreFree(w1, blocks, prev);
      if prev in done {
        if !stuck { LeadsNowhere(w, w1, blocks, done, prev); }
        StillCleared(w, w1, blocks, done, prev);
        stuck := true;
      } else {
        NewEntry(w, w1, blocks, done, prev);
        ClearOne(w, w1, blocks, done, prev);
        done := done + [prev];
        ClearingFacts(w, fat[..], blocks, done, next);
      }
    }
    if !stuck { WalkEnds(w, fat[..], blocks, done); }
    ret := Ready;
  }

  lemma ChainOf(w: seq<U16>, w1: seq<U16>, blocks: nat, c: seq<int>)
    requires Allocated(w, w1, blocks, c) && c != []
    ensures IsChain(w1, blocks, c)
  {
  }

  /** The complete chain from a block is unique. */
  lemma SameChain(w: seq<U16>, blocks: nat, c: seq<int>, d: seq<int>)
    requires IsChain(w, blocks, c) && IsChain(w, blocks, d) && c[0] == d[0]
    ensures c == d
  {
    hide Inside, Linked, Distinct;
    forall k | 0 <= k < |d|
      ensures k < |c| && c[k] == d[k]
    {
      PathOfChain(w, blocks, c, d, LAST_BLOCK, k);
    }
    PathOfChain(w, blocks, c, d, LAST_BLOCK, |d| - 1);
    PathOfChain(w, blocks, d, c, LAST_BLOCK, |c| - 1);
  }

  /** Freeing what was just allocated restores every entry and the free count. */
  lemma FreeUndoesAlloc(w: seq<U16>, w1: seq<U16>, w2: seq<U16>, blocks: nat, c: seq<int>, d: seq<int>)
    requires Allocated(w, w1, blocks, c) && c != [] && IsChain(w1, blocks, d)
    requires d[0] == c[0] && Freed(w1, w2, blocks, d)
    ensures d == c && w2[FAT_FREEBLOCKS] == w[FAT_FREEBLOCKS]
    ensures forall b :: SYSAREA <= b < SECTOR_WORDS ==> w2[b] == w[b]
  {
    hide LinkAt, Distinct;
    ChainOf(w, w1, blocks, c);
    SameChain(w1, blocks, c, d);
    hide Linked, IsChain;
    forall b | SYSAREA <= b < SECTOR_WORDS
      ensures w2[b] == w[b]
    {
      if b in c {
        var i :| 0 <= i < |c| && c[i] == b;
      }
    }
  }

  // ---- the free count ----

  lemma FreeCounted(w: seq<U16>, w': seq<U16>, blocks: nat, c: seq<int>)
    requires Counted(w, blocks) && IsChain(w, blocks, c) && Freed(w, w', blocks, c)
    ensures Counted(w', blocks) && w'[FAT_FREEBLOCKS] == w[FAT_FREEBLOCKS] + |c|
  {
    ChainTaken(w, blocks, c);
    FreeDiffers(w', w, blocks, c);
  }
}
