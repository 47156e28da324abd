/** Seeking, writing and reading the files of a memory card, sector by sector along their chains. */
module Transfer {
  import opened Words
  import opened Fat

  const PAGE := 128
  const SEGMENT := 512

  datatype Pending = Nothing | Erase | Page | Segment

  datatype Outcome = Running | Done | Fatal | Limit | Corrupt

  class CardTransfer {
    const blocks: nat
    const sectorSize: nat
    /** The block table, and what the directory says about the open file. */
    const fat: seq<U16>
    const first: int
    const length: nat
    /** The blocks of the card. */
    var sectors: seq<seq<Byte>>
    /** card_file: where the file is positioned, what is still to be transferred, and the block of the position. */
    var offset: int
    var len: int
    var iblock: int
    /** The index of the position's block in the chain. */
    ghost var at: nat
    /** The command the card is executing: its address, how many pages or segments are left, and where they are in
        the caller's buffer. */
    var addr: nat
    var count: nat
    var usr: nat
    var pending: Pending

    ghost predicate Valid()
      reads this
    {
      && |sectors| == blocks <= SECTOR_WORDS == |fat| && sectorSize > 0 && sectorSize % SEGMENT == 0
      && forall b :: 0 <= b < blocks ==> |sectors[b]| == sectorSize
    }

    /** c is the file's chain. */
    ghost predicate FileChain(c: seq<int>) {
      |fat| == SECTOR_WORDS && IsChain(fat, blocks, c) && |c| == length && c[0] == first
    }

    /** The byte position at which the k-th block of a file begins. */
    function Start(k: nat): nat {
      sectorSize * k
    }

    /** The block belongs to the position. */
    ghost predicate Positioned(c: seq<int>)
      reads this`offset, this`iblock, this`at
    {
      FileChain(c) && at < |c| && Start(at) <= offset < Start(at + 1) && iblock == c[at]
    }

    /** CARD_Open */
    constructor (blocks: nat, sectorSize: nat, fat: seq<U16>, sectors: seq<seq<Byte>>, first: int, length: nat)
      requires |sectors| == blocks <= SECTOR_WORDS == |fat| && sectorSize > 0 && sectorSize % SEGMENT == 0
      requires forall b :: 0 <= b < blocks ==> |sectors[b]| == sectorSize
      ensures Valid() && pending == Nothing && offset == 0 && iblock == first && at == 0
    {
      this.blocks, this.sectorSize, this.fat, this.sectors, this.first, this.length :=
        blocks, sectorSize, fat, sectors, first, length;
      offset, len, iblock, at := 0, length * sectorSize, first, 0;
      addr, count, usr, pending := 0, 0, 0, Nothing;
    }

    lemma OnChain(c: seq<int>, k: int)
      requires FileChain(c) && 0 <= k < |c|
      ensures InArea(c[k], blocks)
    {
    }

    lemma NextOnChain(c: seq<int>, k: int)
      requires FileChain(c) && 0 <= k && k + 1 < |c|
      ensures InArea(c[k], blocks) && fat[c[k]] == c[k + 1] && InArea(c[k + 1], blocks)
    {
      hide Distinct;
      assert LinkAt(fat, c, LAST_BLOCK, k);
    }

    /** A position inside the file lies in one of its blocks. */
    lemma BlockOf(x: nat, n: nat) returns (m: nat)
      requires sectorSize > 0 && x < Start(n)
      ensures m < n && x - x % sectorSize == Start(m) <= x < Start(m + 1)
    {
      m := x / sectorSize;
      assert x == sectorSize * m + x % sectorSize;
      Gap(sectorSize, n, m);
      assert sectorSize * (m + 1) == sectorSize * m + sectorSize;
    }

    lemma StartOrder(k: nat, m: nat)
      requires sectorSize > 0
      ensures Start(0) == 0
      ensures k <= m ==> Start(k) <= Start(m)
      ensures k < m ==> Start(k) < Start(m)
      ensures m < k ==> Start(m) < Start(k)
    {
      Gap(sectorSize, k, m);
      Gap(sectorSize, m, k);
    }

    lemma StartNext(k: nat)
      ensures Start(k + 1) == Start(k) + sectorSize && Start(k + 2) == Start(k + 1) + sectorSize
    {
    }

    /** __card_seek: from wherever the file is positioned, the walk ends at the block of the new position. */
    method Seek(newLen: nat, newOffset: nat, ghost c: seq<int>) returns (ret: Outcome)
      requires Valid() && Positioned(c)
      modifies this`offset, this`len, this`iblock, this`at
      ensures ret == if Start(length) <= newOffset || Start(length) < newOffset + newLen then Limit else Running
      ensures ret == Limit ==> offset == old(offset) && iblock == old(iblock) && at == old(at)
      ensures ret == Running ==> offset == newOffset && len == newLen && Positioned(c)
    {
      hide IsChain, Start;
      OnChain(c, at);
      if iblock < SYSAREA || iblock >= blocks {
        return Fatal;
      }
      var entryLen := Start(length);
      if entryLen <= newOffset || entryLen < newOffset + newLen {
        return Limit;
      }
      len := newLen;
      ghost var m := BlockOf(newOffset, length);
      if newOffset < offset {
        offset := 0;
        iblock := first;
        at := 0;
        OnChain(c, 0);
        StartOrder(0, 1);
        if iblock < SYSAREA || iblock >= blocks {
          return Corrupt;
        }
      }
      var target := newOffset - newOffset % sectorSize;
      StartOrder(m + 1, at);
      while offset < target
        invariant Positioned(c) && at <= m && len == newLen
        decreases m - at
      {
        StartOrder(m, at);
        NextOnChain(c, at);
        StartNext(at);
        offset := offset + sectorSize;
        iblock := fat[iblock];
        if iblock < SYSAREA || iblock >= blocks {
          return Corrupt;
        }
        at := at + 1;
      }
      StartOrder(at + 1, m);
      offset := newOffset;
      ret := Running;
    }

    // ---- the contents of a file ----

    /** Blocks of the right size, and a chain inside them. */
    ghost predicate Spans(s: seq<seq<Byte>>, c: seq<int>) {
      && sectorSize > 0 && |s| == blocks && (forall b :: 0 <= b < blocks ==> |s[b]| == sectorSize)
      && forall i :: 0 <= i < |c| ==> 0 <= c[i] < blocks
    }

    lemma ChainSpans(c: seq<int>)
      requires Valid() && FileChain(c)
      ensures Spans(sectors, c) && |c| == length && Distinct(c)
    {
      assert forall i :: 0 <= i < |c| ==> InArea(c[i], blocks);
    }

    /** The bytes of the file with chain c. */
    ghost function Content(s: seq<seq<Byte>>, c: seq<int>): (f: seq<Byte>)
      requires Spans(s, c)
      ensures |f| == Start(|c|)
    {
      if c == [] then [] else Content(s, c[..|c| - 1]) + s[c[|c| - 1]]
    }

    /** The bytes of the k-th block of f. */
    ghost function BlockBytes(f: seq<Byte>, k: nat): seq<Byte>
      requires Start(k) <= Start(k + 1) <= |f|
    {
      f[Start(k)..Start(k + 1)]
    }

    /** The k-th block of f is that of the chain. */
    ghost predicate BlockIs(s: seq<seq<Byte>>, c: seq<int>, f: seq<Byte>, k: nat)
      requires Spans(s, c) && k < |c|
    {
      Start(k) <= Start(k + 1) <= |f| && BlockBytes(f, k) == s[c[k]]
    }

    /** The contents consist of the blocks of c ... */
    lemma {:induction false} ContentBlock(s: seq<seq<Byte>>, c: seq<int>, k: nat)
      requires Spans(s, c) && k < |c|
      ensures BlockIs(s, c, Content(s, c), k)
    {
      hide Start;
      StartOrder(k, k + 1);
      StartOrder(k + 1, |c|);
      var d := c[..|c| - 1];
      StartOrder(k + 1, |d|);
      StartNext(|d|);
      if k == |d| {
      } else {
        ContentBlock(s, d, k);
        assert BlockBytes(Content(s, c), k) == BlockBytes(Content(s, d), k);
      }
    }

    lemma FirstBlocks(s: seq<seq<Byte>>, c: seq<int>, f: seq<Byte>, n: nat, k: nat)
      requires Spans(s, c) && k < n <= |c| && BlockIs(s, c, f, k) && 0 <= Start(n) <= |f|
      ensures BlockIs(s, c[..n], f[..Start(n)], k)
    {
      hide Start;
      StartOrder(0, k);
      StartOrder(k + 1, n);
      assert BlockBytes(f[..Start(n)], k) == BlockBytes(f, k);
    }

    /** ... and nothing else does. */
    lemma {:induction false} ContentIs(s: seq<seq<Byte>>, c: seq<int>, f: seq<Byte>)
      requires Spans(s, c) && |f| == Start(|c|)
      requires forall k: nat :: k < |c| ==> BlockIs(s, c, f, k)
      ensures Content(s, c) == f
    {
      hide Start;
      StartOrder(0, 1);
      if c == [] {
      } else {
        var n := |c| - 1;
        StartNext(n);
        StartOrder(0, n);
        var g := f[..Start(n)];
        forall k: nat | k < n
          ensures BlockIs(s, c[..n], g, k)
        {
          FirstBlocks(s, c, f, n, k);
        }
        ContentIs(s, c[..n], g);
        assert BlockIs(s, c, f, n);
        assert f == g + BlockBytes(f, n);
      }
    }

    /** f with other bytes from position x on. */
    ghost function Spliced(f: seq<Byte>, x: nat, data: seq<Byte>): (f': seq<Byte>)
      requires x + |data| <= |f|
      ensures |f'| == |f|
    {
      f[..x] + data + f[x + |data|..]
    }

    // ---- writing ----

    /** The j-th of the sectors being transferred, in the caller's buffer. */
    ghost function Piece(buffer: seq<Byte>, j: nat): seq<Byte>
      requires Start(j + 1) <= |buffer| && Start(j) <= Start(j + 1)
    {
      buffer[Start(j)..Start(j + 1)]
    }

    ghost predicate StoredAt(s: seq<seq<Byte>>, c: seq<int>, k: nat, j: nat, buffer: seq<Byte>)
      requires k + j < |c|
    {
      Start(j) <= Start(j + 1) <= |buffer| && 0 <= c[k + j] < |s| && s[c[k + j]] == Piece(buffer, j)
    }

    /** The first n pieces of the buffer are in the blocks of c from the k-th on. */
    ghost predicate Stored(s: seq<seq<Byte>>, c: seq<int>, k: nat, n: nat, buffer: seq<Byte>) {
      k + n <= |c| && forall j: nat {:trigger StoredAt(s, c, k, j, buffer)} :: j < n ==> StoredAt(s, c, k, j, buffer)
    }

    /** Only blocks c[k..k + n] differ. */
    ghost predicate OthersKept(s: seq<seq<Byte>>, s': seq<seq<Byte>>, c: seq<int>, k: nat, n: nat)
      requires k + n <= |c|
    {
      |s'| == |s| && forall b {:trigger s'[b]} :: 0 <= b < |s| && b !in c[k..k + n] ==> s'[b] == s[b]
    }

    /** The number of sectors a write stores; a write of length 0 stores one. */
    function Sectors(n: nat): nat
      requires sectorSize > 0
    {
      if n == 0 then 1 else n / sectorSize
    }

    /** Of the writes that are not refused, exactly that of length 0 stores other bytes than it was given. */
    lemma StoresItsLength(n: nat)
      requires sectorSize > 0 && n % sectorSize == 0
      ensures Start(Sectors(n)) == n <==> n != 0
      ensures Start(Sectors(0)) == sectorSize
    {
      assert n == sectorSize * (n / sectorSize);
    }

    lemma SplicedIn(f: seq<Byte>, x: nat, data: seq<Byte>, a: nat, b: nat)
      requires x + |data| <= |f| && x <= a <= b <= x + |data|
      ensures Spliced(f, x, data)[a..b] == data[a - x..b - x]
    {
    }

    lemma SplicedOut(f: seq<Byte>, x: nat, data: seq<Byte>, a: nat, b: nat)
      requires x + |data| <= |f| && a <= b <= |f| && (b <= x || x + |data| <= a)
      ensures Spliced(f, x, data)[a..b] == f[a..b]
    {
    }

    lemma StartSum(k: nat, n: nat)
      ensures Start(k + n) == Start(k) + Start(n)
    {
    }

    lemma StoredBlock(s: seq<seq<Byte>>, c: seq<int>, k: nat, n: nat, buffer: seq<Byte>, i: nat)
      requires sectorSize > 0 && Stored(s, c, k, n, buffer) && i < n
      ensures Start(i) <= Start(i + 1) <= |buffer| && 0 <= c[k + i] < |s| && s[c[k + i]] == Piece(buffer, i)
      ensures Start(k + i) == Start(k) + Start(i)
      ensures Start(k + i + 1) == Start(k) + Start(i + 1) && Start(i + 1) <= Start(n)
    {
      assert StoredAt(s, c, k, i, buffer);
      StartSum(k, i);
      StartSum(k, i + 1);
      StartOrder(i + 1, n);
    }

    lemma KeptBlock(s0: seq<seq<Byte>>, s: seq<seq<Byte>>, c: seq<int>, k: nat, n: nat, j: nat)
      requires k + n <= |c| && OthersKept(s0, s, c, k, n) && Distinct(c) && j < |c| && !(k <= j < k + n)
      requires 0 <= c[j] < |s|
      ensures s[c[j]] == s0[c[j]]
    {
    }

    lemma BlockInside(s: seq<seq<Byte>>, c: seq<int>, f: seq<Byte>, k: nat, n: nat, buffer: seq<Byte>, j: nat)
      requires Spans(s, c) && j < |c| && k + n <= |c| && k <= j < k + n && Stored(s, c, k, n, buffer)
      requires |f| == Start(|c|) && 0 <= Start(k) && Start(k) + Start(n) == Start(k + n) <= |f|
      requires 0 <= Start(n) <= |buffer|
      ensures BlockIs(s, c, Spliced(f, Start(k), buffer[..Start(n)]), j)
    {
      hide Start, Stored, Spliced;
      StartOrder(0, j);
      StartOrder(k, j);
      StartOrder(j, j + 1);
      StartOrder(j + 1, |c|);
      var x, y := Start(j), Start(j + 1);
      StoredBlock(s, c, k, n, buffer, j - k);
      SplicedIn(f, Start(k), buffer[..Start(n)], x, y);
      assert buffer[..Start(n)][x - Start(k)..y - Start(k)] == Piece(buffer, j - k);
    }

    lemma BlockOutside(s: seq<seq<Byte>>, c: seq<int>, f: seq<Byte>, k: nat, n: nat, data: seq<Byte>, j: nat)
      requires Spans(s, c) && j < |c| && k + n <= |c| && !(k <= j < k + n) && |f| == Start(|c|)
      requires 0 <= Start(k) && |data| == Start(n) && Start(k) + Start(n) == Start(k + n) <= |f| && BlockIs(s, c, f, j)
      ensures BlockIs(s, c, Spliced(f, Start(k), data), j)
    {
      hide Start, Spliced;
      StartOrder(0, j);
      StartOrder(j + 1, |c|);
      StartOrder(j + 1, k);
      StartOrder(k + n, j);
      SplicedOut(f, Start(k), data, Start(j), Start(j + 1));
    }

    lemma SplicedBlock(s0: seq<seq<Byte>>, s: seq<seq<Byte>>, c: seq<int>, k: nat, n: nat, buffer: seq<Byte>, j: nat)
      requires Spans(s0, c) && Spans(s, c) && Distinct(c) && j < |c|
      requires Stored(s, c, k, n, buffer) && k + n <= |c| && OthersKept(s0, s, c, k, n) && 0 <= Start(n) <= |buffer|
      requires 0 <= Start(k) && Start(k) + Start(n) == Start(k + n) <= Start(|c|)
      ensures BlockIs(s, c, Spliced(Content(s0, c), Start(k), buffer[..Start(n)]), j)
    {
      hide Start, Stored, Content, Spliced, OthersKept, Distinct;
      if k <= j < k + n {
        BlockInside(s, c, Content(s0, c), k, n, buffer, j);
      } else {
        KeptBlock(s0, s, c, k, n, j);
        ContentBlock(s0, c, j);
        BlockOutside(s, c, Content(s0, c), k, n, buffer[..Start(n)], j);
      }
    }

    /** What the blocks hold after a write is the file with the buffer's bytes in place. */
    lemma StoredContent(s0: seq<seq<Byte>>, s: seq<seq<Byte>>, c: seq<int>, k: nat, n: nat, buffer: seq<Byte>)
      requires Spans(s0, c) && Spans(s, c) && Distinct(c)
      requires Stored(s, c, k, n, buffer) && k + n <= |c| && OthersKept(s0, s, c, k, n) && 0 <= Start(n) <= |buffer|
      ensures Start(k) + Start(n) <= Start(|c|)
      ensures Content(s, c) == Spliced(Content(s0, c), Start(k), buffer[..Start(n)])
    {
      hide Start, Stored, Spliced, Content, OthersKept, Distinct;
      StartSum(k, n);
      StartOrder(k + n, |c|);
      StartOrder(0, k);
      var f := Spliced(Content(s0, c), Start(k), buffer[..Start(n)]);
      forall j: nat | j < |c|
        ensures BlockIs(s, c, f, j)
      {
        SplicedBlock(s0, s, c, k, n, buffer, j);
      }
      ContentIs(s, c, f);
    }

    /** Progress of a write that began at block k of the chain: i sectors are stored, and part of the next. */
    ghost predicate Writing(s0: seq<seq<Byte>>, c: seq<int>, k: nat, i: nat, n: nat, buffer: seq<Byte>)
      reads this
    {
      && Valid() && Positioned(c) && at == k + i && i < n && k + n <= |c| && offset == Start(at)
      && Start(i) <= Start(i + 1) <= Start(n) <= |buffer|
      && Stored(sectors, c, k, i, buffer) && OthersKept(s0, sectors, c, k, i + 1)
      && (if n == 1 then 0 <= len <= sectorSize else len == Start(n) - Start(i))
      && match pending
         case Erase => usr == Start(i)
         case Page =>
           && Start(i) <= usr <= |buffer| && usr - Start(i) + PAGE * count == sectorSize && count > 0
           && addr == Start(iblock) + (usr - Start(i)) && sectors[iblock][..usr - Start(i)] == buffer[Start(i)..usr]
         case _ => false
    }

    /** Changing the block of the i-th sector leaves the sectors stored before alone. */
    lemma SectorChanged(s0: seq<seq<Byte>>, s: seq<seq<Byte>>, s': seq<seq<Byte>>, c: seq<int>, k: nat, i: nat,
                        buffer: seq<Byte>)
      requires FileChain(c) && k + i < |c| && 0 <= c[k + i] < |s| == |s'| && s' == s[c[k + i] := s'[c[k + i]]]
      requires Stored(s, c, k, i, buffer) && OthersKept(s0, s, c, k, i + 1)
      ensures Stored(s', c, k, i, buffer) && OthersKept(s0, s', c, k, i + 1)
    {
      hide Start;
      forall j: nat | j < i
        ensures StoredAt(s', c, k, j, buffer)
      {
        assert StoredAt(s, c, k, j, buffer);
        assert c[k + j] != c[k + i];
      }
      assert c[k..k + (i + 1)][i] == c[k + i];
    }

    lemma PagesPerSector()
      requires sectorSize > 0 && sectorSize % SEGMENT == 0
      ensures PAGE * (sectorSize / PAGE) == sectorSize && sectorSize / PAGE > 0
      ensures SEGMENT * (sectorSize / SEGMENT) == sectorSize && sectorSize / SEGMENT > 0
    {
      var q := sectorSize / SEGMENT;
      assert sectorSize == SEGMENT * q;
      assert sectorSize == PAGE * (4 * q) + 0;
      DivUnique(sectorSize, PAGE, 4 * q, 0);
    }

    /** The card has erased the block of the position: __erase_callback. */
    method Erased(ghost s0: seq<seq<Byte>>, ghost c: seq<int>, ghost k: nat, ghost i: nat, ghost n: nat,
                  ghost buffer: seq<Byte>)
      requires Writing(s0, c, k, i, n, buffer) && pending == Erase
      modifies this
      ensures Writing(s0, c, k, i, n, buffer) && pending == Page
    {
      hide IsChain, Start;
      OnChain(c, at);
      PagesPerSector();
      SectorChanged(s0, sectors, sectors[iblock := seq(sectorSize, j => 0xff)], c, k, i, buffer);
      sectors := sectors[iblock := seq(sectorSize, j => 0xff)];
      addr := Start(iblock);
      count := sectorSize / PAGE;
      pending := Page;
    }

    /** Writing a whole page of it. */
    ghost function PageWritten(s: seq<Byte>, w: nat, page: seq<Byte>): seq<Byte>
      requires w + |page| <= |s|
    {
      s[..w] + page + s[w + |page|..]
    }

    lemma AddressOf(b: nat, w: nat)
      requires w < sectorSize
      ensures (Start(b) + w) / sectorSize == b && (Start(b) + w) % sectorSize == w
    {
      DivUnique(sectorSize * b + w, sectorSize, b, w);
    }

    /** What the card does with one page of the buffer. */
    method WritePage(buffer: array<Byte>, ghost w0: nat)
      requires Valid() && 0 <= iblock < blocks && w0 + PAGE <= sectorSize
      requires addr == Start(iblock) + w0 && usr + PAGE <= buffer.Length
      modifies this`sectors
      ensures Valid()
      ensures sectors == old(sectors)[iblock := PageWritten(old(sectors)[iblock], w0, buffer[usr..usr + PAGE])]
    {
      AddressOf(iblock, w0);
      var b, w := addr / sectorSize, addr % sectorSize;
      sectors := sectors[b := sectors[b][..w] + buffer[usr..usr + PAGE] + sectors[b][w + PAGE..]];
    }

    lemma PrefixGrows(s: seq<Byte>, s': seq<Byte>, w: nat, buffer: seq<Byte>, from: nat)
      requires from + w + PAGE <= |buffer| && w + PAGE <= |s| && s[..w] == buffer[from..from + w]
      requires s' == PageWritten(s, w, buffer[from + w..from + w + PAGE])
      ensures s'[..w + PAGE] == buffer[from..from + w + PAGE]
      ensures w + PAGE == |s| ==> s' == buffer[from..from + |s|]
    {
    }

    lemma PageFits(n: nat, w: nat)
      requires w + PAGE * n == sectorSize && n > 0
      ensures w + PAGE <= sectorSize && (n == 1 ==> w + PAGE == sectorSize)
    {
    }

    lemma StoredOneMore(s: seq<seq<Byte>>, c: seq<int>, k: nat, i: nat, buffer: seq<Byte>)
      requires Stored(s, c, k, i, buffer) && k + i < |c| && sectorSize > 0
      requires Start(i) <= Start(i + 1) <= |buffer| && 0 <= c[k + i] < |s|
      requires s[c[k + i]] == Piece(buffer, i)
      ensures Stored(s, c, k, i + 1, buffer)
    {
      hide Start;
      forall j: nat | j < i + 1
        ensures StoredAt(s, c, k, j, buffer)
      {
        if j < i { assert StoredAt(s, c, k, j, buffer); }
      }
    }

    lemma OthersMore(s: seq<seq<Byte>>, s': seq<seq<Byte>>, c: seq<int>, k: nat, n: nat)
      requires k + n < |c| && OthersKept(s, s', c, k, n)
      ensures OthersKept(s, s', c, k, n + 1)
    {
      assert c[k..k + n] == c[k..k + (n + 1)][..n];
    }

    /** __write_callback */
    method SectorWritten(ghost s0: seq<seq<Byte>>, ghost c: seq<int>, ghost k: nat, ghost i: nat, ghost n: nat,
                         ghost buffer: seq<Byte>)
      returns (ret: Outcome)
      requires Valid() && Positioned(c) && at == k + i && i < n && k + n <= |c| && offset == Start(at)
      requires Start(i) <= Start(i + 1) <= Start(n) <= |buffer| && usr == Start(i + 1)
      requires Stored(sectors, c, k, i + 1, buffer) && OthersKept(s0, sectors, c, k, i + 1)
      requires if n == 1 then 0 <= len <= sectorSize else len == Start(n) - Start(i)
      modifies this
      ensures ret == Running ==> pending == Erase && Writing(s0, c, k, i + 1, n, buffer)
      ensures ret != Running ==>
              ret == Done && pending == Nothing && i + 1 == n && sectors == old(sectors) && Valid() && Positioned(c)
    {
      hide IsChain, Start, Stored, OthersKept;
      StartNext(i);
      StartOrder(i + 1, n);
      StartNext(at);
      StartOrder(0, 1);
      pending := Nothing;
      len := len - sectorSize;
      if len <= 0 {
        return Done;
      }
      NextOnChain(c, at);
      OthersMore(s0, sectors, c, k, i + 1);
      StartOrder(i + 1, i + 2);
      StartOrder(i + 2, n);
      offset := offset + sectorSize;
      iblock := fat[iblock];
      at := at + 1;
      if iblock < SYSAREA || iblock >= blocks {
        return Corrupt;
      }
      pending := Erase;
      ret := Running;
    }

    /** The card has written a page: __blockwritecallback, and after the last page of a sector __write_callback. */
    method PageDone(ghost s0: seq<seq<Byte>>, ghost c: seq<int>, ghost k: nat, ghost i: nat, ghost n: nat,
                    buffer: array<Byte>)
      returns (ret: Outcome)
      requires Writing(s0, c, k, i, n, buffer[..]) && pending == Page
      modifies this
      ensures ret == Running ==> (pending == Page && Writing(s0, c, k, i, n, buffer[..]) && count < old(count))
                                 || (pending == Erase && Writing(s0, c, k, i + 1, n, buffer[..]))
      ensures ret != Running ==> ret == Done && pending == Nothing && i + 1 == n
      ensures ret == Done ==>
              Valid() && Positioned(c) && Stored(sectors, c, k, n, buffer[..]) && OthersKept(s0, sectors, c, k, n)
    {
      hide IsChain, Start, Stored, OthersKept;
      OnChain(c, at);
      ghost var w0 := usr - Start(i);
      PageFits(count, w0);
      StartNext(i);
      ghost var s := sectors;
      WritePage(buffer, w0);
      SectorChanged(s0, s, sectors, c, k, i, buffer[..]);
      PrefixGrows(s[iblock], sectors[iblock], w0, buffer[..], Start(i));
      addr := addr + PAGE;
      usr := usr + PAGE;
      count := count - 1;
      if count > 0 {
        return Running;
      }
      StoredOneMore(sectors, c, k, i, buffer[..]);
      ret := SectorWritten(s0, c, k, i, n, buffer[..]);
    }

    lemma OtherFilesKept(s0: seq<seq<Byte>>, s: seq<seq<Byte>>, c: seq<int>, k: nat, n: nat)
      requires k + n <= |c| && OthersKept(s0, s, c, k, n)
      ensures |s| == |s0| && forall b :: 0 <= b < |s| && b !in c ==> s[b] == s0[b]
    {
      assert forall b :: b in c[k..k + n] ==> b in c;
    }

    lemma PendingIs(s0: seq<seq<Byte>>, c: seq<int>, k: nat, i: nat, n: nat, buffer: seq<Byte>)
      requires Writing(s0, c, k, i, n, buffer)
      ensures (pending == Erase || pending == Page) && i < n
    {
    }

    lemma WriteBegins(c: seq<int>, newLen: nat, newOffset: nat, buffer: seq<Byte>)
      requires Valid() && Positioned(c) && pending == Erase && usr == 0 && offset == newOffset && len == newLen
      requires newOffset < Start(length) && newOffset + newLen <= Start(length)
      requires newLen % sectorSize == 0 && newOffset % sectorSize == 0 && Start(Sectors(newLen)) <= |buffer|
      ensures newOffset == Start(newOffset / sectorSize) && newOffset / sectorSize + Sectors(newLen) <= |c|
      ensures Writing(sectors, c, newOffset / sectorSize, 0, Sectors(newLen), buffer)
    {
      hide IsChain;
      var k, n := newOffset / sectorSize, Sectors(newLen);
      assert newOffset == sectorSize * k + newOffset % sectorSize;
      assert newLen == sectorSize * (newLen / sectorSize) + newLen % sectorSize;
      assert sectorSize * (k + n) == sectorSize * k + sectorSize * n;
      Gap(sectorSize, length, k + n);
      Gap(sectorSize, length, k);
      Gap(sectorSize, at, k);
      Gap(sectorSize, k, at);
      Gap(sectorSize, 0, newLen / sectorSize);
      Gap(sectorSize, 1, n);
    }

    /** CARD_WriteAsync, and the callbacks until the card is idle again: the file holds the buffer's bytes from the
        position on and is otherwise as it was, and the blocks of no other file have changed. */
    method Write(buffer: array<Byte>, newLen: nat, newOffset: nat, ghost c: seq<int>) returns (ret: Outcome)
      requires Valid() && Positioned(c) && pending == Nothing && Start(Sectors(newLen)) <= buffer.Length
      modifies this
      ensures Valid() && Positioned(c) && pending == Nothing
      ensures ret == if Start(length) <= newOffset || Start(length) < newOffset + newLen then Limit
                     else if newLen % sectorSize != 0 || newOffset % sectorSize != 0 then Fatal else Done
      ensures ret != Done ==> sectors == old(sectors)
      ensures ret == Done ==>
                var m := Start(Sectors(newLen));
                && Spans(old(sectors), c) && Spans(sectors, c) && newOffset + m <= Start(|c|) && 0 <= m
                && Content(sectors, c) == Spliced(Content(old(sectors), c), newOffset, buffer[..m])
      ensures |sectors| == |old(sectors)| && forall b :: 0 <= b < blocks && b !in c ==> sectors[b] == old(sectors)[b]
    {
      hide IsChain, Start, Stored, OthersKept, Writing, FileChain, Content, Spans, Spliced, Distinct;
      ghost var s0 := sectors;
      ChainSpans(c);
      ret := Seek(newLen, newOffset, c);
      if ret != Running {
        return;
      }
      if newLen % sectorSize != 0 || newOffset % sectorSize != 0 {
        return Fatal;
      }
      ghost var k, i, n := newOffset / sectorSize, 0, Sectors(newLen);
      usr := 0;
      pending := Erase;
      WriteBegins(c, newLen, newOffset, buffer[..]);
      while ret == Running
        invariant ret == Running ==> Writing(s0, c, k, i, n, buffer[..])
        invariant ret != Running ==> ret == Done && pending == Nothing && Valid() && Positioned(c)
        invariant ret == Done ==> Stored(sectors, c, k, n, buffer[..]) && OthersKept(s0, sectors, c, k, n)
        invariant i < n && k + n <= |c|
        decreases if ret == Running then 1 else 0, n - i, if pending == Erase then 1 else 0, count
      {
        PendingIs(s0, c, k, i, n, buffer[..]);
        if pending == Erase {
          Erased(s0, c, k, i, n, buffer[..]);
        } else {
          ret := PageDone(s0, c, k, i, n, buffer);
          if ret == Running && pending == Erase {
            PendingIs(s0, c, k, i + 1, n, buffer[..]);
            i := i + 1;
          }
        }
      }
      ChainSpans(c);
      StoredContent(s0, sectors, c, k, n, buffer[..]);
      OtherFilesKept(s0, sectors, c, k, n);
      StartOrder(0, n);
    }

    // ---- reading ----

    /** Where in the buffer the part from the i-th block goes, when the position is r bytes into the first one. */
    function Base(i: nat, r: nat): int {
      if i == 0 then 0 else Start(i) - r
    }

    /** The part of the buffer that the i-th block fills. */
    ghost predicate PartRead(s: seq<seq<Byte>>, c: seq<int>, k: nat, r: nat, i: nat, end: int, buffer: seq<Byte>)
      requires k + i < |c|
    {
      var b := Base(i, r);
      && 0 <= b <= end <= |buffer| && 0 <= c[k + i] < |s| && end - b <= |s[c[k + i]]|
      && buffer[b..end] == s[c[k + i]][..end - b]
    }

    ghost predicate WholePart(s: seq<seq<Byte>>, c: seq<int>, k: nat, r: nat, j: nat, buffer: seq<Byte>)
      requires k + j < |c|
    {
      PartRead(s, c, k, r, j, Base(j + 1, r), buffer)
    }

    /** The blocks before the i-th have been read, each from its beginning. */
    ghost predicate ReadUpTo(s: seq<seq<Byte>>, c: seq<int>, k: nat, r: nat, i: nat, buffer: seq<Byte>) {
      k + i <= |c| && forall j: nat {:trigger WholePart(s, c, k, r, j, buffer)} :: j < i ==>
        WholePart(s, c, k, r, j, buffer)
    }

    /** Progress of a read of `total` bytes that began r bytes into block k of the chain and is in its i-th block. */
    ghost predicate Reading(c: seq<int>, k: nat, r: nat, i: nat, total: nat, buffer: seq<Byte>)
      reads this
    {
      && Valid() && Positioned(c) && at == k + i && k + i < |c| && r < sectorSize && total <= |buffer|
      && offset == (if i == 0 then Start(k) + r else Start(at))
      && Start(k) + r + total <= Start(length)
      && 0 <= Base(i, r) < total && len == total - Base(i, r)
      && ReadUpTo(sectors, c, k, r, i, buffer)
      && Base(i, r) <= usr <= total && pending == Segment && count > 0
      && usr + SEGMENT * count == Least(total, Base(i + 1, r)) && addr == Start(iblock) + (usr - Base(i, r))
      && usr - Base(i, r) + SEGMENT * count <= sectorSize
      && PartRead(sectors, c, k, r, i, usr, buffer)
      && total % SEGMENT == 0 && r % SEGMENT == 0
    }

    lemma BaseOrder(i: nat, r: nat)
      requires r < sectorSize
      ensures 0 <= Base(i, r) < Base(i + 1, r) == Start(i + 1) - r
      ensures Base(i + 1, r) - Base(i, r) == if i == 0 then sectorSize - r else sectorSize
    {
      Gap(sectorSize, 0, i);
      assert Start(i + 1) == Start(i) + sectorSize;
    }

    /** What the card does with one segment. */
    method ReadSegment(buffer: array<Byte>, ghost w: nat)
      requires Valid() && 0 <= iblock < blocks && w + SEGMENT <= sectorSize
      requires addr == Start(iblock) + w && usr + SEGMENT <= buffer.Length
      modifies buffer
      ensures buffer[..] == old(buffer[..usr]) + sectors[iblock][w..w + SEGMENT] + old(buffer[usr + SEGMENT..])
    {
      AddressOf(iblock, w);
      var b, from := addr / sectorSize, addr % sectorSize;
      var segment := sectors[b][from..from + SEGMENT];
      forall j | 0 <= j < SEGMENT {
        buffer[usr + j] := segment[j];
      }
    }

    lemma Within(was: seq<Byte>, now: seq<Byte>, a: int, b: int, u: nat)
      requires 0 <= a <= b <= u <= |was| == |now| && now[..u] == was[..u]
      ensures now[a..b] == was[a..b]
    {
      assert now[a..b] == now[..u][a..b] && was[a..b] == was[..u][a..b];
    }

    lemma {:induction false} BaseUp(j: nat, i: nat, r: nat)
      requires r < sectorSize && j <= i
      ensures Base(j, r) <= Base(i, r)
      decreases i
    {
      if j == i {
      } else {
        BaseUp(j, i - 1, r);
        BaseOrder(i - 1, r);
      }
    }

    lemma PartGrows(c: seq<int>, k: nat, r: nat, i: nat, u: nat, was: seq<Byte>, now: seq<Byte>)
      requires r < sectorSize && k + i < |c| && ReadUpTo(sectors, c, k, r, i, was)
      requires PartRead(sectors, c, k, r, i, u, was)
      requires u + SEGMENT <= |was| && u - Base(i, r) + SEGMENT <= |sectors[c[k + i]]|
      requires now == was[..u] + sectors[c[k + i]][u - Base(i, r)..u - Base(i, r) + SEGMENT] + was[u + SEGMENT..]
      ensures ReadUpTo(sectors, c, k, r, i, now) && PartRead(sectors, c, k, r, i, u + SEGMENT, now)
    {
      hide Start, Base;
      forall j: nat | j < i
        ensures WholePart(sectors, c, k, r, j, now)
      {
        assert WholePart(sectors, c, k, r, j, was);
        BaseUp(j + 1, i, r);
        Within(was, now, Base(j, r), Base(j + 1, r), u);
      }
      var b := Base(i, r);
      var s := sectors[c[k + i]];
      assert now[b..u + SEGMENT] == now[b..u] + now[u..u + SEGMENT];
      assert now[b..u] == was[b..u];
      assert s[..u - b + SEGMENT] == s[..u - b] + s[u - b..u - b + SEGMENT];
    }

    /** The distance to the next block. */
    lemma OffsetIn(k: nat, i: nat, r: nat)
      requires r < sectorSize
      ensures var o := if i == 0 then Start(k) + r else Start(k + i);
              && o + sectorSize - (o + sectorSize) % sectorSize - o == (if i == 0 then sectorSize - r else sectorSize)
              && o + (if i == 0 then sectorSize - r else sectorSize) == Start(k + i + 1)
    {
      DivUnique(sectorSize * (k + 1) + r, sectorSize, k + 1, r);
      DivUnique(sectorSize * (k + i + 1), sectorSize, k + i + 1, 0);
    }

    lemma MoreToRead(k: nat, i: nat, r: nat, total: nat)
      requires r < sectorSize && Start(k) + r + total <= Start(length) && Base(i + 1, r) < total
      ensures k + i + 1 < length
    {
      Gap(sectorSize, length, k + i + 1);
      assert sectorSize * (k + i + 1) == sectorSize * k + sectorSize * (i + 1);
    }

    lemma NextPart(c: seq<int>, k: nat, r: nat, i: nat, buffer: seq<Byte>)
      requires Valid() && FileChain(c) && k + i + 1 < |c| && r < sectorSize && ReadUpTo(sectors, c, k, r, i, buffer)
      requires PartRead(sectors, c, k, r, i, Base(i + 1, r), buffer)
      ensures ReadUpTo(sectors, c, k, r, i + 1, buffer) && PartRead(sectors, c, k, r, i + 1, Base(i + 1, r), buffer)
    {
      hide Start, IsChain, Base;
      OnChain(c, k + i + 1);
      BaseOrder(i, r);
      forall j: nat | j < i + 1
        ensures WholePart(sectors, c, k, r, j, buffer)
      {
        if j < i { assert WholePart(sectors, c, k, r, j, buffer); }
      }
    }

    lemma WholeSegments(u: nat, i: nat, v: nat, t: nat)
      ensures (SEGMENT * t - (SEGMENT * u * i - SEGMENT * v)) % SEGMENT == 0
    {
      assert SEGMENT * t - (SEGMENT * u * i - SEGMENT * v) == SEGMENT * (t - (u * i - v)) by {
        assert SEGMENT * u * i == SEGMENT * (u * i);
      }
    }

    lemma SegmentsOf(n: nat, i: nat, r: nat, total: nat)
      requires sectorSize > 0 && sectorSize % SEGMENT == 0 && total % SEGMENT == 0 && r % SEGMENT == 0 && r < sectorSize
      requires Base(i + 1, r) < total && n == Least(total - Base(i + 1, r), sectorSize)
      ensures SEGMENT * (n / SEGMENT) == n && n / SEGMENT > 0 && Base(i + 1, r) + n == Least(total, Base(i + 2, r))
    {
      BaseOrder(i + 1, r);
      WholeSegments(sectorSize / SEGMENT, i + 1, r / SEGMENT, total / SEGMENT);
    }

    /** __read_callback */
    method BlockRead(ghost c: seq<int>, ghost k: nat, ghost r: nat, ghost i: nat, ghost total: nat,
                     ghost buffer: seq<Byte>)
      returns (ret: Outcome)
      requires Valid() && Positioned(c) && at == k + i && k + i < |c| && r < sectorSize && total <= |buffer|
      requires offset == if i == 0 then Start(k) + r else Start(at)
      requires Start(k) + r + total <= Start(length) && total % SEGMENT == 0 && r % SEGMENT == 0
      requires 0 <= Base(i, r) < total && len == total - Base(i, r) && usr == Least(total, Base(i + 1, r))
      requires ReadUpTo(sectors, c, k, r, i, buffer) && PartRead(sectors, c, k, r, i, usr, buffer)
      modifies this`addr, this`count, this`len, this`offset, this`iblock, this`at, this`pending
      ensures ret == Running ==> Reading(c, k, r, i + 1, total, buffer)
      ensures ret != Running ==>
              ret == Done && pending == Nothing && Valid() && Positioned(c) && usr == total <= Base(i + 1, r)
    {
      hide IsChain, Start, ReadUpTo, Base, PartRead;
      BaseOrder(i, r);
      OffsetIn(k, i, r);
      pending := Nothing;
      var delta := offset + sectorSize - (offset + sectorSize) % sectorSize - offset;
      len := len - delta;
      if len <= 0 {
        return Done;
      }
      MoreToRead(k, i, r, total);
      NextOnChain(c, at);
      StartOrder(at, at + 1);
      StartOrder(at + 1, at + 2);
      NextPart(c, k, r, i, buffer);
      offset := offset + delta;
      iblock := fat[iblock];
      at := at + 1;
      if iblock < SYSAREA || iblock >= blocks {
        return Corrupt;
      }
      var n := if len < sectorSize then len else sectorSize;
      addr := Start(iblock);
      count := n / SEGMENT;
      pending := Segment;
      SegmentsOf(n, i, r, total);
      ret := Running;
    }

    /** The card has read a segment: __blockreadcallback, and after the last segment of a block __read_callback. */
    method SegmentDone(ghost c: seq<int>, ghost k: nat, ghost r: nat, ghost i: nat, ghost total: nat,
                       buffer: array<Byte>)
      returns (ret: Outcome)
      requires Reading(c, k, r, i, total, buffer[..]) && pending == Segment
      modifies this`addr, this`usr, this`count, this`len, this`offset, this`iblock, this`at, this`pending, buffer
      ensures ret == Running ==> (at == old(at) && Reading(c, k, r, i, total, buffer[..]) && count < old(count))
                                 || (at == old(at) + 1 && Reading(c, k, r, i + 1, total, buffer[..]))
      ensures ret != Running ==> ret == Done && pending == Nothing && Valid() && Positioned(c) && k + i < |c|
      ensures ret == Done ==>
              ReadUpTo(sectors, c, k, r, i, buffer[..]) && PartRead(sectors, c, k, r, i, total, buffer[..])
      ensures ret == Done ==> total <= Base(i + 1, r)
      ensures buffer[total..] == old(buffer[total..])
    {
      hide IsChain, Start, ReadUpTo, Base;
      OnChain(c, at);
      ghost var was, w := buffer[..], usr - Base(i, r);
      BaseOrder(i, r);
      ReadSegment(buffer, w);
      PartGrows(c, k, r, i, usr, was, buffer[..]);
      addr := addr + SEGMENT;
      usr := usr + SEGMENT;
      count := count - 1;
      if count > 0 {
        return Running;
      }
      ret := BlockRead(c, k, r, i, total, buffer[..]);
    }

    lemma ReadingBlock(c: seq<int>, k: nat, r: nat, i: nat, total: nat, buffer: seq<Byte>)
      requires Reading(c, k, r, i, total, buffer)
      ensures k + i < |c| && Base(i, r) < total <= |buffer| && pending == Segment && at == k + i
    {
    }

    /** The callbacks of a read that has been started. */
    method ReadOn(buffer: array<Byte>, total: nat, ghost c: seq<int>, ghost k: nat, ghost r: nat)
      returns (ret: Outcome, ghost last: nat)
      requires Reading(c, k, r, 0, total, buffer[..])
      modifies this`addr, this`usr, this`count, this`len, this`offset, this`iblock, this`at, this`pending, buffer
      ensures ret == Done && pending == Nothing && Valid() && Positioned(c)
      ensures k + last < |c| && Base(last, r) < total <= Base(last + 1, r)
      ensures ReadUpTo(sectors, c, k, r, last, buffer[..]) && PartRead(sectors, c, k, r, last, total, buffer[..])
      ensures total <= buffer.Length && buffer[total..] == old(buffer[total..])
    {
      hide IsChain, Start, ReadUpTo, PartRead, Reading, FileChain, Base;
      ret, last := Running, 0;
      ReadingBlock(c, k, r, last, total, buffer[..]);
      while ret == Running
        invariant ret == Running ==> Reading(c, k, r, last, total, buffer[..])
        invariant ret != Running ==> ret == Done && pending == Nothing && Valid() && Positioned(c)
        invariant k + last < |c| && Base(last, r) < total && (ret == Done ==> total <= Base(last + 1, r))
        invariant ret == Done ==>
                  ReadUpTo(sectors, c, k, r, last, buffer[..]) && PartRead(sectors, c, k, r, last, total, buffer[..])
        invariant buffer[total..] == old(buffer[total..])
        decreases if ret == Running then 1 else 0, |c| - (k + last), count
      {
        ReadingBlock(c, k, r, last, total, buffer[..]);
        ret := SegmentDone(c, k, r, last, total, buffer);
        if ret == Running && at > k + last {
          last := last + 1;
        }
        if ret == Running { ReadingBlock(c, k, r, last, total, buffer[..]); }
      }
    }

    /** How far into its block the position is. */
    function Into(x: nat): (r: nat)
      requires sectorSize > 0
      ensures r <= x && r < sectorSize
    {
      x % sectorSize
    }

    lemma SplitOffset(x: nat) returns (k: nat, r: nat)
      requires sectorSize > 0
      ensures k == x / sectorSize && r == Into(x) == x % sectorSize < sectorSize && x == Start(k) + r
    {
      k, r := x / sectorSize, x % sectorSize;
      assert x == sectorSize * k + r;
    }

    lemma FirstSegments(k: nat, r: nat, total: nat, n: nat)
      requires sectorSize > 0 && sectorSize % SEGMENT == 0 && total % SEGMENT == 0
      requires (Start(k) + r) % SEGMENT == 0 && r < sectorSize && total > 0
      requires n == Least(total, sectorSize - r)
      ensures r % SEGMENT == 0 && SEGMENT * (n / SEGMENT) == n && n / SEGMENT > 0 && n == Least(total, Base(1, r))
    {
      var u, v := sectorSize / SEGMENT, (Start(k) + r) / SEGMENT;
      assert Start(k) == SEGMENT * u * k;
      assert r == SEGMENT * v - SEGMENT * u * k;
      assert r == SEGMENT * (v - u * k) by { assert SEGMENT * u * k == SEGMENT * (u * k); }
      assert Start(1) == sectorSize;
    }

    lemma ReadBegins(c: seq<int>, newLen: nat, k: nat, r: nat, n: nat, buffer: seq<Byte>)
      requires Valid() && Positioned(c) && pending == Segment && usr == 0
      requires offset == Start(k) + r && r < sectorSize && len == newLen
      requires 0 < newLen && newLen % SEGMENT == 0 && (Start(k) + r) % SEGMENT == 0 && newLen <= |buffer|
      requires Start(k) + r < Start(length) && Start(k) + r + newLen <= Start(length)
      requires n == Least(newLen, sectorSize - r) && addr == Start(iblock) && count == n / SEGMENT
      ensures Reading(c, k, r, 0, newLen, buffer)
    {
      hide IsChain, Start;
      OnChain(c, at);
      StartNext(at);
      StartNext(k);
      StartOrder(k, length);
      StartOrder(at + 1, k);
      StartOrder(k + 1, at);
      FirstSegments(k, r, newLen, n);
    }

    /** How much of a read the first block gives. */
    function FirstPart(x: nat, n: nat): (m: nat)
      requires sectorSize > 0
      ensures m <= n && (m < n ==> m == sectorSize - Into(x))
    {
      Least(n, sectorSize - Into(x))
    }

    /** What a read at position x returns: from the first block the bytes at its beginning instead of those at the
        position, from the later ones what the file holds. */
    ghost function ReadBytes(f: seq<Byte>, x: nat, n: nat): (out: seq<Byte>)
      requires sectorSize > 0 && x + n <= |f|
      ensures |out| == n
    {
      var r, m := Into(x), FirstPart(x, n);
      f[x - r..x - r + m] + f[x + m..x + n]
    }

    /** One more part of f is read. */
    lemma PartJoined(f: seq<Byte>, out: seq<Byte>, first: seq<Byte>, u: nat, v: nat, w: nat, a: nat, b: nat)
      requires u <= v <= w <= |f| && a <= b <= |out|
      requires out[..a] == first + f[u..v] && out[a..b] == f[v..w]
      ensures out[..b] == first + f[u..w]
    {
      assert out[..b] == out[..a] + out[a..b];
      assert f[u..w] == f[u..v] + f[v..w];
    }

    /** What the i-th block gives to a read. */
    lemma PartOf(s: seq<seq<Byte>>, c: seq<int>, k: nat, r: nat, i: nat, end: nat, out: seq<Byte>)
      requires Spans(s, c) && k + i < |c| && PartRead(s, c, k, r, i, end, out)
      ensures var a, b := Base(i, r), Start(k + i);
              0 <= a <= end <= |out| && 0 <= b <= b + end - a <= Start(|c|)
                && out[a..end] == Content(s, c)[b..b + end - a]
    {
      hide Start, Content, Base;
      var j := k + i;
      ContentBlock(s, c, j);
      StartOrder(0, j);
      StartOrder(j + 1, |c|);
      StartNext(j);
      assert out[Base(i, r)..end] == BlockBytes(Content(s, c), j)[..end - Base(i, r)];
    }

    lemma NoBase(r: nat)
      ensures Base(0, r) == 0
    {
    }

    lemma PrefixBounds(s: seq<seq<Byte>>, c: seq<int>, k: nat, r: nat, out: seq<Byte>, last: nat, i: nat)
      requires Spans(s, c) && ReadUpTo(s, c, k, r, last, out) && 0 < i <= last && k + last < |c| && r < sectorSize
      ensures 0 <= Start(k) <= Start(k) + sectorSize - r <= Start(k + 1) <= Start(k + i) <= Start(|c|)
      ensures WholePart(s, c, k, r, i - 1, out)
    {
      hide Start;
      StartOrder(0, k);
      StartNext(k);
      StartOrder(k + 1, k + i);
      StartOrder(k + i, |c|);
    }

    /** The blocks of a read put together. */
    lemma {:induction false} ReadPrefix(s: seq<seq<Byte>>, c: seq<int>, k: nat, r: nat, out: seq<Byte>, last: nat,
                                        i: nat)
      requires Spans(s, c) && ReadUpTo(s, c, k, r, last, out) && 0 < i <= last && k + last < |c| && r < sectorSize
      ensures 0 <= Start(k) <= Start(k) + sectorSize - r <= Start(k + 1) <= Start(k + i) <= Start(|c|)
      ensures 0 <= Base(i, r) <= |out|
      ensures out[..Base(i, r)]
              == Content(s, c)[Start(k)..Start(k) + sectorSize - r] + Content(s, c)[Start(k + 1)..Start(k + i)]
    {
      hide Start, Content, Spans, ReadUpTo, PartRead, Base;
      var j := i - 1;
      PrefixBounds(s, c, k, r, out, last, i);
      BaseOrder(j, r);
      PartOf(s, c, k, r, j, Base(i, r), out);
      if j > 0 {
        ReadPrefix(s, c, k, r, out, last, j);
        StartNext(k + j);
        PartJoined(Content(s, c), out, Content(s, c)[Start(k)..Start(k) + sectorSize - r], Start(k + 1), Start(k + j),
          Start(k + i),
                   Base(j, r), Base(i, r));
      } else {
        assert Base(0, r) == 0 by { NoBase(r); }
      }
    }

    lemma BaseAt(k: nat, r: nat, i: nat)
      requires i > 0
      ensures Start(k + i) == Start(k) + r + Base(i, r) && Base(1, r) == sectorSize - r
    {
    }

    lemma ReadReturns(s: seq<seq<Byte>>, c: seq<int>, k: nat, r: nat, x: nat, out: seq<Byte>, last: nat, n: nat)
      requires Spans(s, c) && x + n <= Start(|c|) && x == Start(k) + r && r == Into(x) && k + last < |c|
      requires Base(last, r) < n <= Base(last + 1, r)
      requires ReadUpTo(s, c, k, r, last, out) && PartRead(s, c, k, r, last, n, out)
      ensures n <= |out| && out[..n] == ReadBytes(Content(s, c), x, n)
    {
      hide Start, Content, Spans, ReadUpTo, PartRead, Base, Into;
      PartOf(s, c, k, r, last, n, out);
      BaseAt(k, r, 1);
      if last > 0 {
        ReadPrefix(s, c, k, r, out, last, last);
        BaseAt(k, r, last);
        BaseUp(1, last, r);
        PartJoined(Content(s, c), out, Content(s, c)[x - r..x - r + (sectorSize - r)], Start(k + 1), Start(k + last),
          x + n,
                   Base(last, r), n);
      } else {
        NoBase(r);
      }
    }

    lemma AlignedRead(f: seq<Byte>, x: nat, n: nat)
      requires sectorSize > 0 && x + n <= |f| && x % sectorSize == 0
      ensures ReadBytes(f, x, n) == f[x..x + n]
    {
    }

    /** CARD_ReadAsync, and the callbacks until the card is idle again. */
    method Read(buffer: array<Byte>, newLen: nat, newOffset: nat, ghost c: seq<int>) returns (ret: Outcome)
      requires Valid() && Positioned(c) && pending == Nothing && newLen <= buffer.Length
      modifies this, buffer
      ensures Valid() && Positioned(c) && pending == Nothing && sectors == old(sectors)
      ensures ret == if newLen == 0 || newLen % SEGMENT != 0 || newOffset % SEGMENT != 0 then Fatal
                     else if Start(length) <= newOffset || Start(length) < newOffset + newLen then Limit else Done
      ensures ret != Done ==> buffer[..] == old(buffer[..])
      ensures ret == Done ==>
                && Spans(sectors, c) && newOffset + newLen <= Start(|c|)
                && buffer[..newLen] == ReadBytes(Content(sectors, c), newOffset, newLen)
      ensures ret == Done && newOffset % sectorSize == 0 ==>
                buffer[..newLen] == Content(sectors, c)[newOffset..newOffset + newLen]
      ensures ret == Done ==> buffer[newLen..] == old(buffer[newLen..])
    {
      hide IsChain, Start, ReadUpTo, PartRead, Reading, FileChain, Base, Content, Spans, ReadBytes, Distinct;
      if newLen == 0 || newLen % SEGMENT != 0 || newOffset % SEGMENT != 0 {
        return Fatal;
      }
      ret := Seek(newLen, newOffset, c);
      if ret != Running {
        return;
      }
      ghost var k, r := SplitOffset(newOffset);
      var n := newLen;
      if n >= sectorSize - offset % sectorSize {
        n := sectorSize - offset % sectorSize;
      }
      OnChain(c, at);
      addr := Start(iblock);
      count := n / SEGMENT;
      usr := 0;
      pending := Segment;
      ReadBegins(c, newLen, k, r, n, buffer[..]);
      ghost var last;
      ret, last := ReadOn(buffer, newLen, c, k, r);
      ChainSpans(c);
      ReadReturns(sectors, c, k, r, newOffset, buffer[..], last, newLen);
      if newOffset % sectorSize == 0 {
        AlignedRead(Content(sectors, c), newOffset, newLen);
      }
    }

    // ---- what is written is read ----

    /** Whatever the position, the bytes of all blocks but the first are the file's, and those of the first block are
        the ones at its beginning. */
    lemma OnlyFirstBlock(f: seq<Byte>, x: nat, n: nat)
      requires sectorSize > 0 && x + n <= |f|
      ensures var r, m := Into(x), FirstPart(x, n);
              ReadBytes(f, x, n)[m..] == f[x + m..x + n] && ReadBytes(f, x, n)[..m] == f[x - r..x - r + m]
    {
      hide Into, FirstPart;
    }

    /** Off the sector boundaries the first byte read is the first of the block. */
    lemma MisplacedByte(s: seq<seq<Byte>>, c: seq<int>, x: nat, n: nat)
      requires Spans(s, c) && x + n <= Start(|c|) && n > 0
      requires forall b :: 0 <= b < blocks ==> s[b] == seq(sectorSize, j => if j == 0 then 1 else 0)
      ensures x % sectorSize != 0 ==> ReadBytes(Content(s, c), x, n)[0] == 1 && Content(s, c)[x] == 0
    {
      hide Start, Content;
      var k, r := SplitOffset(x);
      var f := Content(s, c);
      StartOrder(0, k);
      StartOrder(|c|, k);
      StartNext(k);
      ContentBlock(s, c, k);
      assert BlockBytes(f, k)[0] == f[x - r] && BlockBytes(f, k)[r] == f[x];
    }

    /** Blocks whose first byte differs from the others. */
    lemma MarkedBlocks(c: seq<int>) returns (s: seq<seq<Byte>>)
      requires sectorSize > 0 && Inside(c, blocks)
      ensures Spans(s, c) && forall b :: 0 <= b < blocks ==> s[b] == seq(sectorSize, j => if j == 0 then 1 else 0)
    {
      s := seq(blocks, b => seq<Byte>(sectorSize, j => if j == 0 then 1 else 0));
      assert forall i :: 0 <= i < |c| ==> InArea(c[i], blocks);
    }

    /** A read returns the file's bytes, whatever they are, if and only if its position is sector-aligned. */
    lemma AlignedReads(c: seq<int>, x: nat, n: nat)
      requires sectorSize > 0 && Inside(c, blocks) && x + n <= Start(|c|) && n > 0
      ensures (forall s: seq<seq<Byte>> | Spans(s, c) :: ReadBytes(Content(s, c), x, n) == Content(s, c)[x..x + n])
              <==> x % sectorSize == 0
    {
      hide Start, Content, Spans, ReadBytes, Inside;
      if x % sectorSize == 0 {
        forall s: seq<seq<Byte>> | Spans(s, c)
          ensures ReadBytes(Content(s, c), x, n) == Content(s, c)[x..x + n]
        {
          AlignedRead(Content(s, c), x, n);
        }
      } else {
        var s := MarkedBlocks(c);
        MisplacedByte(s, c, x, n);
      }
    }

    /** CARD_Write, and CARD_Read of any part of it from a sector boundary on. */
    lemma WriteThenRead(s: seq<seq<Byte>>, s': seq<seq<Byte>>, c: seq<int>, x: nat, data: seq<Byte>, y: nat, n: nat)
      requires Spans(s, c) && Spans(s', c) && x + |data| <= Start(|c|)
      requires Content(s', c) == Spliced(Content(s, c), x, data)
      requires x <= y && y + n <= x + |data| && y % sectorSize == 0
      ensures ReadBytes(Content(s', c), y, n) == data[y - x..y - x + n]
    {
      hide Start, Content;
      AlignedRead(Content(s', c), y, n);
      SplicedIn(Content(s, c), x, data, y, y + n);
    }
  }
}
