/** Creating and deleting files on a memory card: the order of the commits of table and directory keeps every
    recoverable directory entry backed by a complete chain of its own. */
module Files {
  import opened Words
  import opened Fat
  import opened Commit

  const MAXFILES := 127
  const ENTRY_WORDS := 32
  const NAME_AT := 4
  const NAME_WORDS := 16
  const BLOCK_AT := 27
  const LENGTH_AT := 28
  const PUBLIC: U16 := 4
  const SPEED_FAST: U16 := 1

  // ---- directory entries ----

  function EntryWord(d: seq<U16>, i: nat, k: nat): U16
    requires |d| == SECTOR_WORDS && i < MAXFILES && k < ENTRY_WORDS
  {
    d[ENTRY_WORDS * i + k]
  }

  /** The first byte of the game code is not 0xff. */
  predicate Used(d: seq<U16>, i: nat)
    requires |d| == SECTOR_WORDS && i < MAXFILES
  {
    EntryWord(d, i, 0) / 0x100 != 0xff
  }

  function NameOf(d: seq<U16>, i: nat): seq<U16>
    requires |d| == SECTOR_WORDS && i < MAXFILES
  {
    d[ENTRY_WORDS * i + NAME_AT..ENTRY_WORDS * i + NAME_AT + NAME_WORDS]
  }

  /** The words of entry i are the same. */
  ghost predicate SameEntry(d: seq<U16>, d': seq<U16>, i: nat)
    requires |d| == |d'| == SECTOR_WORDS && i < MAXFILES
  {
    forall k: nat {:trigger EntryWord(d', i, k)} :: k < ENTRY_WORDS ==> EntryWord(d', i, k) == EntryWord(d, i, k)
  }

  ghost predicate SameEntriesBut(d: seq<U16>, d': seq<U16>, i: nat)
    requires |d| == |d'| == SECTOR_WORDS
  {
    forall j: nat {:trigger SameEntry(d, d', j)} :: j < MAXFILES && j != i ==> SameEntry(d, d', j)
  }

  /** Entry i and the chain f belong together: they agree on the first block and on the length. */
  ghost predicate Backed(d: seq<U16>, w: seq<U16>, blocks: nat, i: nat, f: seq<int>)
    requires |d| == SECTOR_WORDS && i < MAXFILES
  {
    IsChain(w, blocks, f) && f[0] == EntryWord(d, i, BLOCK_AT) && |f| == EntryWord(d, i, LENGTH_AT)
  }

  ghost predicate Apart(f: seq<int>, g: seq<int>) {
    forall b :: b in f ==> b !in g
  }

  /** Every used entry has a complete chain of its length to itself; `files` names the chains. */
  ghost predicate Consistent(d: seq<U16>, w: seq<U16>, blocks: nat, files: map<nat, seq<int>>) {
    && |d| == SECTOR_WORDS
    && (forall i: nat {:trigger Used(d, i)} :: i < MAXFILES ==> (Used(d, i) <==> i in files))
    && (forall i {:trigger files[i]} :: i in files ==> i < MAXFILES && Backed(d, w, blocks, i, files[i]))
    && (forall i, j {:trigger Apart(files[i], files[j])} :: i in files && j in files && i != j ==>
      Apart(files[i], files[j]))
  }

  lemma ChainKept(w: seq<U16>, w': seq<U16>, blocks: nat, f: seq<int>)
    requires IsChain(w, blocks, f) && |w'| == |w| && forall b :: b in f && InArea(b, blocks) ==> w'[b] == w[b]
    ensures IsChain(w', blocks, f)
  {
    forall i | 0 <= i < |f|
      ensures LinkAt(w', f, LAST_BLOCK, i)
    {
      assert LinkAt(w, f, LAST_BLOCK, i) && f[i] in f && InArea(f[i], blocks);
    }
  }

  /** Allocation leaves complete chains alone and takes none of their blocks. */
  lemma AllocKeepsChain(w: seq<U16>, w': seq<U16>, blocks: nat, c: seq<int>, f: seq<int>)
    requires Allocated(w, w', blocks, c) && IsChain(w, blocks, f)
    ensures IsChain(w', blocks, f) && Apart(f, c) && Apart(c, f)
  {
    ChainTaken(w, blocks, f);
    forall b | b in c
      ensures b !in f
    {
      var i :| 0 <= i < |c| && c[i] == b;
    }
    ChainKept(w, w', blocks, f);
  }

  lemma FreeKeepsChain(w: seq<U16>, w': seq<U16>, blocks: nat, c: seq<int>, f: seq<int>)
    requires Freed(w, w', blocks, c) && IsChain(w, blocks, f) && Apart(f, c)
    ensures IsChain(w', blocks, f)
  {
    ChainKept(w, w', blocks, f);
  }

  lemma SealKeepsChain(w: seq<U16>, blocks: nat, f: seq<int>)
    requires |w| == SECTOR_WORDS && IsChain(w, blocks, f)
    ensures IsChain(Sealed(w, Table), blocks, f)
  {
    hide Sealed;
    forall b | b in f && InArea(b, blocks)
      ensures Sealed(w, Table)[b] == w[b]
    {
      SealedKeeps(w, Table, b);
    }
    ChainKept(w, Sealed(w, Table), blocks, f);
  }

  /** The table may change as long as the chains stay. */
  lemma TableChanged(d: seq<U16>, w: seq<U16>, w': seq<U16>, blocks: nat, files: map<nat, seq<int>>)
    requires Consistent(d, w, blocks, files)
    requires forall i {:trigger files[i]} :: i in files ==> IsChain(w', blocks, files[i])
    ensures Consistent(d, w', blocks, files)
  {
    hide IsChain, Used;
  }

  lemma NotInside(blocks: nat, c: seq<int>, b: int)
    requires Inside(c, blocks) && !InArea(b, blocks)
    ensures b !in c
  {
  }

  lemma AllocShape(w: seq<U16>, w': seq<U16>, blocks: nat, c: seq<int>)
    requires Allocated(w, w', blocks, c)
    ensures |w'| == SECTOR_WORDS && w'[FAT_UPDATED] == w[FAT_UPDATED] && (c != [] ==> IsChain(w', blocks, c))
  {
    NotInside(blocks, c, FAT_UPDATED);
  }

  lemma AfterAlloc(d: seq<U16>, w: seq<U16>, w': seq<U16>, blocks: nat, files: map<nat, seq<int>>, c: seq<int>)
    requires Consistent(d, w, blocks, files) && Allocated(w, w', blocks, c)
    ensures Consistent(d, Sealed(w', Table), blocks, files)
    ensures c != [] ==> IsChain(Sealed(w', Table), blocks, c)
    ensures forall i {:trigger files[i]} :: i in files ==> Apart(files[i], c) && Apart(c, files[i])
  {
    hide Sealed, Used, IsChain, Apart, Allocated, Linked, Inside;
    AllocShape(w, w', blocks, c);
    forall i | i in files
      ensures IsChain(Sealed(w', Table), blocks, files[i]) && Apart(files[i], c) && Apart(c, files[i])
    {
      assert Backed(d, w, blocks, i, files[i]);
      AllocKeepsChain(w, w', blocks, c, files[i]);
      SealKeepsChain(w', blocks, files[i]);
    }
    if c != [] { SealKeepsChain(w', blocks, c); }
    TableChanged(d, w, Sealed(w', Table), blocks, files);
  }

  lemma FreeShape(w: seq<U16>, w': seq<U16>, blocks: nat, c: seq<int>)
    requires Freed(w, w', blocks, c)
    ensures |w'| == SECTOR_WORDS && w'[FAT_UPDATED] == w[FAT_UPDATED]
  {
    NotInside(blocks, c, FAT_UPDATED);
  }

  lemma AfterFree(d: seq<U16>, w: seq<U16>, w': seq<U16>, blocks: nat, files: map<nat, seq<int>>, c: seq<int>)
    requires Consistent(d, w, blocks, files) && Freed(w, w', blocks, c)
    requires forall i {:trigger files[i]} :: i in files ==> Apart(files[i], c)
    ensures Consistent(d, Sealed(w', Table), blocks, files)
  {
    hide Sealed, Used, IsChain, Apart, Cleared;
    FreeShape(w, w', blocks, c);
    forall i | i in files
      ensures IsChain(Sealed(w', Table), blocks, files[i])
    {
      assert Backed(d, w, blocks, i, files[i]);
      FreeKeepsChain(w, w', blocks, c, files[i]);
      SealKeepsChain(w', blocks, files[i]);
    }
    TableChanged(d, w, Sealed(w', Table), blocks, files);
  }

  /** Sealing a directory keeps its entries. */
  lemma SealKeepsEntries(d: seq<U16>)
    requires |d| == SECTOR_WORDS
    ensures forall i: nat {:trigger SameEntry(d, Sealed(d, Directory), i)} :: i < MAXFILES ==>
            SameEntry(d, Sealed(d, Directory), i)
  {
    hide Sealed;
    var d' := Sealed(d, Directory);
    forall i: nat | i < MAXFILES
      ensures SameEntry(d, d', i)
    {
      forall k: nat | k < ENTRY_WORDS
        ensures EntryWord(d', i, k) == EntryWord(d, i, k)
      {
        SealedKeeps(d, Directory, ENTRY_WORDS * i + k);
      }
    }
  }

  lemma OtherEntry(d: seq<U16>, d': seq<U16>, w: seq<U16>, blocks: nat, files: map<nat, seq<int>>, i: nat, j: nat)
    requires Consistent(d, w, blocks, files) && |d'| == SECTOR_WORDS
    requires SameEntriesBut(d, d', i) && j < MAXFILES && i != j
    ensures Used(d', j) <==> j in files
    ensures j in files ==> Backed(d', w, blocks, j, files[j])
  {
    hide IsChain, Apart;
    assert SameEntry(d, d', j);
    assert EntryWord(d', j, 0) == EntryWord(d, j, 0) && EntryWord(d', j, BLOCK_AT) == EntryWord(d, j, BLOCK_AT);
    assert EntryWord(d', j, LENGTH_AT) == EntryWord(d, j, LENGTH_AT);
    assert Used(d, j) <==> j in files;
  }

  /** A used entry with a chain of its own was added. */
  lemma EntryAdded(d: seq<U16>, d': seq<U16>, w: seq<U16>, blocks: nat, files: map<nat, seq<int>>, i: nat, c: seq<int>)
    requires Consistent(d, w, blocks, files) && |d'| == SECTOR_WORDS
    requires SameEntriesBut(d, d', i) && i < MAXFILES && i !in files
    requires Used(d', i) && Backed(d', w, blocks, i, c)
    requires forall j {:trigger files[j]} :: j in files ==> Apart(files[j], c) && Apart(c, files[j])
    ensures Consistent(d', w, blocks, files[i := c])
  {
    hide IsChain, Apart, Used, Backed;
    var files' := files[i := c];
    forall j: nat | j < MAXFILES
      ensures Used(d', j) <==> j in files'
      ensures j in files' ==> Backed(d', w, blocks, j, files'[j])
    {
      if j != i { OtherEntry(d, d', w, blocks, files, i, j); }
    }
    forall j, k | j in files' && k in files' && j != k
      ensures Apart(files'[j], files'[k])
    {
      if j != i && k != i { assert Apart(files[j], files[k]); }
    }
  }

  /** A used entry was cleared. */
  lemma EntryRemoved(d: seq<U16>, d': seq<U16>, w: seq<U16>, blocks: nat, files: map<nat, seq<int>>, i: nat)
    requires Consistent(d, w, blocks, files) && |d'| == SECTOR_WORDS
    requires SameEntriesBut(d, d', i) && i < MAXFILES && !Used(d', i)
    ensures Consistent(d', w, blocks, files - {i})
  {
    hide IsChain, Apart;
    var files' := files - {i};
    forall j: nat | j < MAXFILES
      ensures Used(d', j) <==> j in files'
      ensures j in files' ==> Backed(d', w, blocks, j, files'[j])
    {
      if j != i { OtherEntry(d, d', w, blocks, files, i, j); }
    }
    forall j, k | j in files' && k in files' && j != k
      ensures Apart(files'[j], files'[k])
    {
      assert Apart(files[j], files[k]);
    }
  }

  // ---- a directory and a table from different times ----

  ghost function Listed(lists: bool, others: map<nat, seq<int>>, i: nat, c: seq<int>): map<nat, seq<int>> {
    if lists then others[i := c] else others
  }

  /** The directory lists file i with the chain c, and in the table the chain's first block is free. */
  ghost predicate Stale(d: seq<U16>, w: seq<U16>, i: nat, c: seq<int>) {
    && |d| == |w| == SECTOR_WORDS && i < MAXFILES && Used(d, i)
    && c != [] && c[0] == EntryWord(d, i, BLOCK_AT) && c[0] < SECTOR_WORDS && w[c[0]] == 0
  }

  /** A directory that does or does not list file i with the chain c, and a table that does or does not hold the chain:
      they are consistent unless the directory lists the file and the table does not hold the chain. */
  ghost predicate Fits(d: seq<U16>, lists: bool, w: seq<U16>, holds: bool, blocks: nat, others: map<nat, seq<int>>,
                       i: nat, c: seq<int>) {
    if lists && !holds then Stale(d, w, i, c) else Consistent(d, w, blocks, Listed(lists, others, i, c))
  }

  lemma StaleIs(d: seq<U16>, w: seq<U16>, w': seq<U16>, blocks: nat, files: map<nat, seq<int>>, i: nat)
    requires Consistent(d, w, blocks, files) && i in files && |w'| == SECTOR_WORDS
    requires files[i] != [] && 0 <= files[i][0] < SECTOR_WORDS && w'[files[i][0]] == 0
    ensures Stale(d, w', i, files[i])
  {
    hide IsChain, Apart;
    assert i < MAXFILES;
    assert Backed(d, w, blocks, i, files[i]);
    assert Used(d, i) <==> i in files;
  }

  lemma FirstTaken(w: seq<U16>, blocks: nat, c: seq<int>)
    requires IsChain(w, blocks, c)
    ensures 0 <= c[0] < |w| && w[c[0]] != 0
  {
    ChainTaken(w, blocks, c);
    assert c[0] in c;
  }

  /** No chain backs a stale entry. */
  lemma StaleNever(d: seq<U16>, w: seq<U16>, blocks: nat, i: nat, c: seq<int>, files: map<nat, seq<int>>)
    requires Stale(d, w, i, c)
    ensures !Consistent(d, w, blocks, files)
  {
    hide Apart;
    if Consistent(d, w, blocks, files) {
      assert Used(d, i) <==> i in files;
      assert Backed(d, w, blocks, i, files[i]);
      FirstTaken(w, blocks, files[i]);
      assert false;
    }
  }

  lemma FitsMeans(d: seq<U16>, lists: bool, w: seq<U16>, holds: bool, blocks: nat, others: map<nat, seq<int>>, i: nat,
                  c: seq<int>)
    requires Fits(d, lists, w, holds, blocks, others, i, c)
    ensures (exists files :: Consistent(d, w, blocks, files)) <==> !(lists && !holds)
    ensures !(lists && !holds) ==> Consistent(d, w, blocks, Listed(lists, others, i, c))
  {
    hide Consistent, Stale;
    forall files
      ensures lists && !holds ==> !Consistent(d, w, blocks, files)
    {
      if lists && !holds {
        StaleNever(d, w, blocks, i, c, files);
      }
    }
  }

  // ---- the card ----

  datatype Phase = Rest | CreateTable | CreateDirectory | DeleteDirectory | DeleteTable

  /** What was done to the files since the card was mounted. */
  datatype Change = Nothing | Creation | Deletion

  datatype Answer = Started | Busy | Fatal | Exists | NoEntry | NoFile | NoRoom | BrokenCard

  class CardFiles {
    const blocks: nat
    const sectorSize: nat
    const fat: TwoCopies
    const dir: TwoCopies
    /** Which of its commits a running create or delete is in, and the file it is about. */
    var phase: Phase
    var busy: bool
    var fileno: nat
    var fileblock: U16
    /** The chains of the files of the committed directory, and the chain being added or removed. */
    ghost var files: map<nat, seq<int>>
    ghost var chain: seq<int>
    /** The last create or delete that was finished. */
    ghost var last: Change
    /** When the running or last create or delete began, a mount would have found the committed versions. */
    ghost var clean: bool
    /** Whether the counter of the directory, and that of the table, was then 0xffff. */
    ghost var dirWraps: bool
    ghost var tableWraps: bool

    ghost function Copies(): set<object> {
      {fat, dir, fat.ram0, fat.ram1, dir.ram0, dir.ram1}
    }

    ghost function Footprint(): set<object> {
      {this} + Copies()
    }

    ghost predicate Wired() {
      && fat != dir && fat.kind == Table && dir.kind == Directory && fat.blocks == dir.blocks == blocks
      && sectorSize > 0
      && fat.ram0 != dir.ram0 && fat.ram0 != dir.ram1 && fat.ram1 != dir.ram0 && fat.ram1 != dir.ram1
    }

    ghost predicate Shaped()
      reads Copies()
    {
      Wired() && fat.Guarded() && dir.Guarded()
    }

    /** A create has entered the length and the name of the still unused entry into the buffer. */
    ghost predicate Prepared(need: nat)
      reads this`fileno, this`files, dir, dir.ram0, dir.ram1
    {
      && dir.step == Idle && fileno < MAXFILES && fileno !in files
      && |dir.Image()| == |dir.committed| == SECTOR_WORDS
      && SameEntriesBut(dir.committed, dir.Image(), fileno)
      && dir.Image()[DIR_UPDATED] == dir.committed[DIR_UPDATED]
      && EntryWord(dir.Image(), fileno, LENGTH_AT) == need
    }

    ghost predicate OwnChain()
      reads this`files, this`chain, this`fileblock
    {
      chain != [] && fileblock == chain[0] && forall i {:trigger files[i]} :: i in files ==>
        Apart(files[i], chain) && Apart(chain, files[i])
    }

    /** The committed directory lists the file that the create or delete is about. */
    ghost predicate DirHas()
      reads this`phase, this`last
    {
      match phase
      case Rest => last == Creation
      case DeleteDirectory => true
      case _ => false
    }

    /** The committed table holds its chain. */
    ghost predicate TableHas()
      reads this`phase, this`last
    {
      match phase
      case Rest => last == Creation
      case CreateTable => false
      case _ => true
    }

    /** The files with or without that file. */
    ghost function Listing(lists: bool): map<nat, seq<int>>
      reads this`files, this`fileno, this`chain
    {
      Listed(lists, files - {fileno}, fileno, chain)
    }

    /** What a directory that does or does not list the file, and a table that does or does not hold its chain, make
        together. */
    ghost predicate Fit(d: seq<U16>, lists: bool, w: seq<U16>, holds: bool)
      reads this`files, this`fileno, this`chain
    {
      Fits(d, lists, w, holds, blocks, files - {fileno}, fileno, chain)
    }

    /** Every directory and every table that a mount may find: those that are not committed differ in the file. */
    ghost predicate AllFit()
      reads this`phase, this`last, this`files, this`fileno, this`chain, this`dirWraps, this`tableWraps, Copies()
    {
      && files == Listing(DirHas())
      && Fit(dir.committed, DirHas(), fat.committed, TableHas())
      && (forall v :: dir.MayFind(v) ==> Fit(v, !DirHas(), fat.committed, TableHas()))
      && (forall v :: fat.MayFind(v) ==> Fit(dir.committed, DirHas(), v, !TableHas()))
      && (forall u, v :: dir.MayFind(u) && fat.MayFind(v) ==> Fit(u, !DirHas(), v, !TableHas()))
    }

    /** A counter wraps around with the commit of this create or delete. */
    ghost predicate WrapsKnown()
      reads this`phase, this`last, this`files, this`fileno, this`chain, this`dirWraps, this`tableWraps, Copies()
    {
      && |dir.committed| == |fat.committed| == SECTOR_WORDS
      && (if phase == Rest || phase == DeleteTable then dir.Masked() <==> dirWraps
          else !dir.Masked() && (dirWraps <==> dir.committed[DIR_UPDATED] == 0xffff))
      && (if phase == Rest || phase == CreateDirectory then fat.Masked() <==> tableWraps
          else !fat.Masked() && (tableWraps <==> fat.committed[FAT_UPDATED] == 0xffff))
    }

    /** What a mount would find if the create or delete began with the committed versions in view. */
    ghost predicate Told()
      reads this`phase, this`last, this`files, this`fileno, this`chain, this`dirWraps, this`tableWraps, Copies()
    {
      WrapsKnown() && if phase == Rest && last == Nothing then !dirWraps && !tableWraps else AllFit()
    }

    /** Both what is committed and what is being committed is consistent. */
    ghost predicate Running()
      reads this`phase, this`files, this`fileno, this`chain, this`fileblock, this`busy, Copies()
    {
      && Shaped() && Consistent(dir.committed, fat.committed, blocks, files) && (phase != Rest ==> busy)
      && match phase
         case Rest => fat.Quiet() && dir.Quiet()
         case CreateTable =>
           && fat.InHand() && Consistent(dir.committed, fat.Image(), blocks, files)
           && IsChain(fat.Image(), blocks, chain) && OwnChain() && Prepared(|chain|)
           && |fat.committed| == SECTOR_WORDS && 0 <= chain[0] < SECTOR_WORDS && fat.committed[chain[0]] == 0
         case CreateDirectory =>
           fat.Quiet() && dir.InHand() && Consistent(dir.Image(), fat.committed, blocks, files[fileno := chain])
         case DeleteDirectory =>
           && fat.Quiet() && dir.InHand()
           && fileno in files && files[fileno] == chain && chain != [] && fileblock == chain[0]
           && Consistent(dir.Image(), fat.committed, blocks, files - {fileno})
         case DeleteTable =>
           fat.InHand() && dir.Quiet() && Consistent(dir.committed, fat.Image(), blocks, files)
    }

    /** What holds between any two commands of any run. */
    ghost predicate Valid()
      reads Footprint()
    {
      Running() && (clean ==> Told())
    }

    /** A card mounted from four sectors whose newer versions are consistent. */
    constructor (blocks: nat, sectorSize: nat, fat: TwoCopies, dir: TwoCopies, ghost files: map<nat, seq<int>>)
      requires fat != dir && fat.kind == Table && dir.kind == Directory
      requires fat.blocks == dir.blocks == blocks && sectorSize > 0
      requires fat.ram0 != dir.ram0 && fat.ram0 != dir.ram1 && fat.ram1 != dir.ram0 && fat.ram1 != dir.ram1
      requires fat.Quiet() && dir.Quiet() && !fat.Masked() && !dir.Masked()
      requires Consistent(dir.committed, fat.committed, blocks, files)
      ensures Valid() && clean && phase == Rest && !busy && this.files == files && this.fat == fat && this.dir == dir
    {
      this.blocks, this.sectorSize, this.fat, this.dir := blocks, sectorSize, fat, dir;
      phase, busy := Rest, false;
      fileno, fileblock := 0, 0;
      this.files, chain := files, [];
      last, clean, dirWraps, tableWraps := Nothing, true, false, false;
    }

    lemma TableCounts(w: seq<U16>)
      requires Passes(w, Table, blocks)
      ensures Counted(w, blocks) && w[FAT_FREEBLOCKS] == Free(w, SYSAREA, blocks)
    {
    }

    /** What is recorded when a create or delete begins. */
    ghost predicate Began()
      reads this`clean, this`dirWraps, this`tableWraps, fat, dir
    {
      && |dir.committed| == |fat.committed| == SECTOR_WORDS
      && (clean <==> !fat.Masked() && !dir.Masked())
      && (dirWraps <==> dir.committed[DIR_UPDATED] == 0xffff) && (tableWraps <==> fat.committed[FAT_UPDATED] == 0xffff)
    }

    ghost method Begin()
      requires |dir.committed| == |fat.committed| == SECTOR_WORDS
      modifies this`clean, this`dirWraps, this`tableWraps
      ensures Began()
    {
      clean := !fat.Masked() && !dir.Masked();
      dirWraps, tableWraps := dir.committed[DIR_UPDATED] == 0xffff, fat.committed[FAT_UPDATED] == 0xffff;
    }

    lemma PreparedFacts(need: nat)
      requires Prepared(need)
      ensures |dir.committed| == SECTOR_WORDS && dir.step == Idle && fileno !in files
    {
    }

    lemma FirstWasFree(w: seq<U16>, w': seq<U16>, c: seq<int>)
      requires Allocated(w, w', blocks, c) && c != []
      ensures |w| == SECTOR_WORDS && 0 <= c[0] < SECTOR_WORDS && w[c[0]] == 0
    {
      assert InArea(c[0], blocks);
    }

    lemma RunningShape()
      requires Running()
      ensures |dir.committed| == |fat.committed| == SECTOR_WORDS
    {
      hide Consistent, IsChain, Passes, OwnChain, Prepared;
    }

    lemma CreateBegun()
      requires Running() && Began() && clean && phase == CreateTable
      ensures Told()
    {
      hide Consistent, IsChain, Passes, OlderThan, OwnChain, TwoCopies.Guarded, SameEntriesBut;
      assert files - {fileno} == files;
    }

    /** __card_allocblock for the prepared entry, with the commit of the table begun. */
    method StartTable(need: nat)
      requires Shaped() && Consistent(dir.committed, fat.committed, blocks, files) && phase == Rest && busy
      requires fat.Quiet() && 0 < need <= fat.committed[FAT_FREEBLOCKS]
      requires Prepared(need)
      modifies this`phase, this`fileblock, this`chain, fat`step, fat.Ram(fat.curr)
      ensures Running() && phase == CreateTable && |chain| == need
    {
      hide Consistent, Used, Passes, IsChain, Allocated, FirstFree, Counted, Sealed, Prepared, Apart, Free, Inc16,
           FirstVisited, OlderThan, TwoCopies.Guarded, Told, Began;
      var table := fat.Ram(fat.curr);
      ghost var w := table[..];
      fat.QuietFacts();
      PreparedFacts(need);
      TableCounts(w);
      var status, block, c := AllocBlock(table, blocks, need);
      fileblock := block;
      chain := c;
      ghost var w1 := table[..];
      AllocShape(w, w1, blocks, c);
      AllocCounted(w, w1, blocks, c);
      AfterAlloc(dir.committed, w, w1, blocks, files, c);
      FirstWasFree(w, w1, c);
      fat.Update();
      phase := CreateTable;
      assert Shaped();
      assert OwnChain();
    }

    lemma UnusedNoFile(d: seq<U16>, w: seq<U16>, i: nat)
      requires Consistent(d, w, blocks, files) && i < MAXFILES && !Used(d, i)
      ensures i !in files
    {
    }

    lemma Exactly(size: nat, unit: nat, n: nat)
      requires unit > 0 && size % unit == 0 && size > 0 && size <= n * unit
      ensures 0 < size / unit <= n && size / unit * unit == size
    {
      assert size == unit * (size / unit);
      Gap(unit, n, size / unit);
      Gap(unit, 0, size / unit);
    }

    static lemma OnlyEntry(d: seq<U16>, d': seq<U16>, i: nat)
      requires |d| == |d'| == SECTOR_WORDS && i < MAXFILES
      requires forall j :: 0 <= j < SECTOR_WORDS && !(ENTRY_WORDS * i <= j < ENTRY_WORDS * i + ENTRY_WORDS) ==>
               d'[j] == d[j]
      ensures SameEntriesBut(d, d', i)
    {
      forall j: nat | j < MAXFILES && j != i
        ensures SameEntry(d, d', j)
      {
      }
    }

    /** Enters length and name into the buffer. */
    static method PrepareEntry(entries: array<U16>, i: nat, name: seq<U16>, length: U16)
      requires entries.Length == SECTOR_WORDS && i < MAXFILES && |name| == NAME_WORDS
      modifies entries
      ensures SameEntriesBut(old(entries[..]), entries[..], i) && entries[DIR_UPDATED] == old(entries[DIR_UPDATED])
      ensures EntryWord(entries[..], i, LENGTH_AT) == length && NameOf(entries[..], i) == name
      ensures EntryWord(entries[..], i, 0) == EntryWord(old(entries[..]), i, 0)
    {
      var at := ENTRY_WORDS * i;
      ghost var d := entries[..];
      entries[at + LENGTH_AT] := length;
      var k := 0;
      while k < NAME_WORDS
        invariant 0 <= k <= NAME_WORDS && entries[at + NAME_AT..at + NAME_AT + k] == name[..k]
        invariant forall j :: 0 <= j < SECTOR_WORDS && !(at <= j < at + ENTRY_WORDS) ==> entries[j] == d[j]
        invariant entries[at + LENGTH_AT] == length && entries[at] == d[at]
      {
        entries[at + NAME_AT + k] := name[k];
        k := k + 1;
      }
      OnlyEntry(d, entries[..], i);
    }

    method StartCreate(need: nat)
      requires Shaped() && Consistent(dir.committed, fat.committed, blocks, files) && phase == Rest && busy
      requires fat.Quiet() && 0 < need <= fat.committed[FAT_FREEBLOCKS]
      requires Prepared(need)
      modifies this`phase, this`fileblock, this`chain, this`clean, this`dirWraps, this`tableWraps, fat`step,
        fat.Ram(fat.curr)
      ensures Valid() && phase == CreateTable && |chain| == need && Began()
    {
      hide Consistent, Passes, Prepared, Told, Began, TwoCopies.Guarded, TwoCopies.InHand, OwnChain, IsChain, OlderThan;
      StartTable(need);
      RunningShape();
      Begin();
      if clean { CreateBegun(); }
    }

    lemma RestFacts()
      requires Running() && phase == Rest
      ensures Wired() && fat.Quiet() && dir.Quiet() && fat.Image() == fat.committed && fat.Guarded() && dir.Guarded()
      ensures |dir.committed| == |fat.committed| == SECTOR_WORDS
      ensures Consistent(dir.committed, fat.committed, blocks, files)
    {
      hide Consistent, Passes, OlderThan;
      fat.QuietFacts();
      dir.QuietFacts();
    }

    /** Chooses the free entry i and enters length and name. */
    method EnterName(i: nat, name: seq<U16>, need: U16)
      requires Wired() && dir.Quiet() && Consistent(dir.committed, fat.committed, blocks, files)
      requires |name| == NAME_WORDS && i < MAXFILES && |dir.committed| == SECTOR_WORDS && !Used(dir.committed, i)
      modifies this`fileno, dir.Ram(dir.curr)
      ensures Prepared(need) && fileno == i && dir.Guarded()
    {
      hide Consistent, Used, Passes, OlderThan, TwoCopies.Masked;
      var entries := dir.Ram(dir.curr);
      UnusedNoFile(dir.committed, fat.committed, i);
      PrepareEntry(entries, i, name, need);
      fileno := i;
    }

    /** ... and where it is done. */
    lemma AtRest()
      requires Wired() && phase == Rest && fat.Quiet() && dir.Quiet()
      requires Consistent(dir.committed, fat.committed, blocks, files)
      ensures Running() && fat.step == dir.step == Idle && |dir.committed| == |fat.committed| == SECTOR_WORDS
    {
      hide Consistent, Passes, OlderThan;
      fat.QuietFacts();
      dir.QuietFacts();
    }

    /** The end of CARD_CreateAsync for the free entry i: enters length and name, allocates, and starts to commit the
        table. */
    method CreateIn(i: nat, name: seq<U16>, size: nat) returns (ret: Answer)
      requires Valid() && phase == Rest && busy && |name| == NAME_WORDS && size > 0 && size % sectorSize == 0
      requires i < MAXFILES && !Used(dir.committed, i)
      modifies Footprint()
      ensures Valid() && files == old(files) && dir.committed == old(dir.committed)
      ensures fat.committed == old(fat.committed)
      ensures ret == if fat.committed[FAT_FREEBLOCKS] * sectorSize < size then NoRoom else Started
      ensures ret == NoRoom ==> phase == Rest && !busy
      ensures ret == Started ==>
                phase == CreateTable && fileno == i && fileno !in files && |chain| * sectorSize == size && Began()
    {
      hide Consistent, Used, Passes, Running, Told, Began, Prepared, TwoCopies.Masked, TwoCopies.Quiet,
           TwoCopies.Guarded;
      var table := fat.Ram(fat.curr);
      RestFacts();
      if table[FAT_FREEBLOCKS] * sectorSize < size {
        busy := false;
        AtRest();
        return NoRoom;
      }
      var need := size / sectorSize;
      Exactly(size, sectorSize, table[FAT_FREEBLOCKS]);
      EnterName(i, name, need);
      PreparedFacts(need);
      StartCreate(need);
      ret := Started;
    }

    ghost predicate NameTaken(d: seq<U16>, name: seq<U16>)
      requires |d| == SECTOR_WORDS
    {
      exists i: nat :: i < MAXFILES && Used(d, i) && NameOf(d, i) == name
    }

    ghost predicate AllUsed(d: seq<U16>)
      requires |d| == SECTOR_WORDS
    {
      forall i: nat :: i < MAXFILES ==> Used(d, i)
    }

    method FindFree(name: seq<U16>) returns (taken: bool, fileno: nat)
      requires Shaped() && dir.Quiet() && |name| == NAME_WORDS
      ensures taken <==> NameTaken(dir.committed, name)
      ensures !taken ==>
              if AllUsed(dir.committed) then fileno == MAXFILES else fileno < MAXFILES && !Used(dir.committed, fileno)
    {
      hide Passes, OlderThan, TwoCopies.Guarded;
      dir.QuietFacts();
      var entries := dir.Ram(dir.curr);
      ghost var d := entries[..];
      fileno := MAXFILES;
      taken := false;
      var i := 0;
      while i < MAXFILES
        invariant 0 <= i <= MAXFILES
        invariant forall j: nat :: j < i && Used(d, j) ==> NameOf(d, j) != name
        invariant if fileno == MAXFILES then forall j: nat :: j < i ==> Used(d, j) else fileno < i && !Used(d, fileno)
      {
        var at := ENTRY_WORDS * i;
        if entries[at] / 0x100 == 0xff {
          if fileno == MAXFILES {
            fileno := i;
          }
        } else if entries[at + NAME_AT..at + NAME_AT + NAME_WORDS] == name {
          assert Used(d, i) && NameOf(d, i) == name;
          return true, fileno;
        }
        i := i + 1;
      }
    }

    /** CARD_CreateAsync, for callers that set no game code. A refused create leaves the card usable unless the size is
        bad: then it stays busy, and every later create or delete is refused, until it is unmounted. */
    method Create(name: seq<U16>, size: nat) returns (ret: Answer)
      requires Valid() && |name| == NAME_WORDS
      modifies Footprint()
      ensures Valid() && files == old(files) && dir.committed == old(dir.committed)
      ensures fat.committed == old(fat.committed)
      ensures ret != Started ==> phase == old(phase)
      ensures ret == Started ==> phase == CreateTable && fileno !in files && |chain| * sectorSize == size && Began()
      ensures old(busy) ==> ret == Busy && busy
      ensures !old(busy) && ret != Started ==> (busy <==> size == 0 || size % sectorSize != 0)
      ensures !old(busy) ==>
                ret == if size == 0 || size % sectorSize != 0 then Fatal
                       else if NameTaken(dir.committed, name) then Exists
                       else if AllUsed(dir.committed) then NoEntry
                       else if fat.committed[FAT_FREEBLOCKS] * sectorSize < size then NoRoom
                       else Started
    {
      hide Consistent, NameTaken, AllUsed, Used, Passes, IsChain, Told, Began;
      if busy {
        return Busy;
      }
      busy := true;
      if size == 0 || size % sectorSize != 0 {
        return Fatal;
      }
      var taken, i := FindFree(name);
      if taken {
        busy := false;
        return Exists;
      }
      if i == MAXFILES {
        busy := false;
        return NoEntry;
      }
      ret := CreateIn(i, name, size);
    }

    /** Only words of entry i changed, and of these neither length nor name. */
    static ghost predicate FieldsSet(d: seq<U16>, d': seq<U16>, i: nat)
      requires |d| == |d'| == SECTOR_WORDS && i < MAXFILES
    {
      var at := ENTRY_WORDS * i;
      && (forall j :: 0 <= j < SECTOR_WORDS && !(at <= j < at + ENTRY_WORDS) ==> d'[j] == d[j])
      && d'[at + LENGTH_AT] == d[at + LENGTH_AT] && NameOf(d', i) == NameOf(d, i)
    }

    /** What __card_createfatcallback enters, besides length and name: game code, company and block ... */
    static method FillIdentity(entries: array<U16>, i: nat, game: seq<U16>, block: U16)
      requires entries.Length == SECTOR_WORDS && i < MAXFILES
      requires (game == [] || (|game| == 3 && game[0] / 0x100 != 0xff))
      modifies entries
      ensures FieldsSet(old(entries[..]), entries[..], i)
      ensures Used(entries[..], i) && EntryWord(entries[..], i, BLOCK_AT) == block
    {
      var at := ENTRY_WORDS * i;
      entries[at], entries[at + 1], entries[at + 2] := 0, 0, 0;
      if game != [] {
        entries[at], entries[at + 1], entries[at + 2] := game[0], game[1], game[2];
      }
      entries[at + BLOCK_AT] := block;
    }

    /** ... and permission, icon and time words. */
    static method FillRest(entries: array<U16>, i: nat, time: seq<U16>)
      requires entries.Length == SECTOR_WORDS && i < MAXFILES && |time| == 2
      modifies entries
      ensures FieldsSet(old(entries[..]), entries[..], i)
      ensures EntryWord(entries[..], i, 0) == EntryWord(old(entries[..]), i, 0)
      ensures EntryWord(entries[..], i, BLOCK_AT) == EntryWord(old(entries[..]), i, BLOCK_AT)
    {
      var at := ENTRY_WORDS * i;
      entries[at + 26] := PUBLIC * 0x100;
      entries[at + 3] := 0xff00 + entries[at + 3] % 0x100;
      entries[at + 22], entries[at + 23] := 0xffff, 0xffff;
      entries[at + 24], entries[at + 25] := 0, SPEED_FAST;
      entries[at + 29] := 0xffff;
      entries[at + 20], entries[at + 21] := time[0], time[1];
    }

    static lemma FieldsTwice(d: seq<U16>, d1: seq<U16>, d2: seq<U16>, i: nat)
      requires |d| == |d1| == |d2| == SECTOR_WORDS && i < MAXFILES && FieldsSet(d, d1, i) && FieldsSet(d1, d2, i)
      ensures FieldsSet(d, d2, i) && SameEntriesBut(d, d2, i) && d2[DIR_UPDATED] == d[DIR_UPDATED]
      ensures EntryWord(d2, i, LENGTH_AT) == EntryWord(d, i, LENGTH_AT)
    {
      OnlyEntry(d, d2, i);
    }

    static lemma StillUsed(d: seq<U16>, d': seq<U16>, i: nat)
      requires |d| == |d'| == SECTOR_WORDS && i < MAXFILES && Used(d, i) && EntryWord(d', i, 0) == EntryWord(d, i, 0)
      ensures Used(d', i)
    {
    }

    static method FillEntry(entries: array<U16>, i: nat, game: seq<U16>, block: U16, time: seq<U16>)
      requires entries.Length == SECTOR_WORDS && i < MAXFILES && |time| == 2
      requires game == [] || (|game| == 3 && game[0] / 0x100 != 0xff)
      modifies entries
      ensures SameEntriesBut(old(entries[..]), entries[..], i) && entries[DIR_UPDATED] == old(entries[DIR_UPDATED])
      ensures Used(entries[..], i) && EntryWord(entries[..], i, BLOCK_AT) == block
      ensures EntryWord(entries[..], i, LENGTH_AT) == EntryWord(old(entries[..]), i, LENGTH_AT)
    {
      hide FieldsSet, Used, SameEntriesBut;
      ghost var d := entries[..];
      FillIdentity(entries, i, game, block);
      ghost var d0 := entries[..];
      FillRest(entries, i, time);
      FieldsTwice(d, d0, entries[..], i);
      StillUsed(d0, entries[..], i);
    }

    lemma ConsistentShape(d: seq<U16>, w: seq<U16>)
      requires Consistent(d, w, blocks, files)
      ensures |d| == SECTOR_WORDS
    {
    }

    lemma SameThrough(c: seq<U16>, d: seq<U16>, d1: seq<U16>, d2: seq<U16>, i: nat)
      requires |c| == |d| == |d1| == |d2| == SECTOR_WORDS
      requires SameEntriesBut(c, d, i) && SameEntriesBut(d, d1, i) && SameEntriesBut(d1, d2, i)
      ensures SameEntriesBut(c, d2, i)
    {
      forall j: nat | j < MAXFILES && j != i
        ensures SameEntry(c, d2, j)
      {
        assert SameEntry(c, d, j) && SameEntry(d, d1, j) && SameEntry(d1, d2, j);
        forall k: nat | k < ENTRY_WORDS
          ensures EntryWord(d2, j, k) == EntryWord(c, j, k)
        {
          assert EntryWord(d2, j, k) == EntryWord(d1, j, k);
          assert EntryWord(d1, j, k) == EntryWord(d, j, k);
        }
      }
    }

    /** The filled entry and the new chain make the sealed directory consistent. */
    lemma EntryFilled(c: seq<U16>, d: seq<U16>, d1: seq<U16>, w: seq<U16>)
      requires Consistent(c, w, blocks, files) && fileno < MAXFILES && fileno !in files && |d| == |d1| == SECTOR_WORDS
      requires SameEntriesBut(c, d, fileno) && SameEntriesBut(d, d1, fileno)
      requires Used(d1, fileno) && EntryWord(d1, fileno, BLOCK_AT) == fileblock
      requires EntryWord(d1, fileno, LENGTH_AT) == |chain|
      requires IsChain(w, blocks, chain) && OwnChain()
      ensures Consistent(Sealed(d1, Directory), w, blocks, files[fileno := chain])
    {
      hide Consistent, IsChain, Apart, Sealed;
      var d2 := Sealed(d1, Directory);
      ConsistentShape(c, w);
      SealKeepsEntries(d1);
      SameThrough(c, d, d1, d2, fileno);
      assert SameEntry(d1, d2, fileno);
      assert EntryWord(d2, fileno, 0) == EntryWord(d1, fileno, 0);
      assert EntryWord(d2, fileno, BLOCK_AT) == EntryWord(d1, fileno, BLOCK_AT);
      assert EntryWord(d2, fileno, LENGTH_AT) == EntryWord(d1, fileno, LENGTH_AT);
      EntryAdded(c, d2, w, blocks, files, fileno, chain);
    }

    /** Erasing puts nothing else in view. */
    twostate lemma StillTold()
      requires old(Told()) && phase == old(phase) != Rest && last == old(last)
      requires files == old(files) && fileno == old(fileno)
      requires chain == old(chain) && dirWraps == old(dirWraps) && tableWraps == old(tableWraps)
      requires fat.committed == old(fat.committed) && dir.committed == old(dir.committed)
      requires (dir.Masked() <==> old(dir.Masked())) && (fat.Masked() <==> old(fat.Masked()))
      requires forall v :: dir.MayFind(v) ==> old(dir.MayFind(v))
      requires forall v :: fat.MayFind(v) ==> old(fat.MayFind(v))
      ensures Told()
    {
      hide Fits, TwoCopies.Masked, TwoCopies.MayFind;
    }

    lemma NotMasked()
      requires Valid() && clean
      ensures fat.step != Idle ==> !fat.Masked()
      ensures dir.step != Idle ==> !dir.Masked()
    {
      hide Consistent, IsChain, Passes, OlderThan, OwnChain, SameEntriesBut, AllFit, TwoCopies.Guarded;
    }

    /** The card has erased the sector of the table: __card_faterasecallback. */
    method TableErased()
      requires Valid() && (phase == CreateTable || phase == DeleteTable) && fat.step == Erasing
      modifies fat`step, fat`slot0, fat`slot1
      ensures Valid() && fat.step == Writing && fat.Image() == old(fat.Image())
    {
      hide Consistent, IsChain, Passes, Prepared, OlderThan, OwnChain, TwoCopies.Guarded, Told;
      if clean { NotMasked(); }
      fat.EraseDone();
      if clean { StillTold(); }
    }

    method DirectoryErased()
      requires Valid() && (phase == CreateDirectory || phase == DeleteDirectory) && dir.step == Erasing
      modifies dir`step, dir`slot0, dir`slot1
      ensures Valid() && dir.step == Writing && dir.Image() == old(dir.Image())
    {
      hide Consistent, IsChain, Passes, Prepared, OlderThan, OwnChain, TwoCopies.Guarded, Told;
      if clean { NotMasked(); }
      dir.EraseDone();
      if clean { StillTold(); }
    }

    lemma CreateTableFacts()
      requires Valid() && phase == CreateTable
      ensures |dir.committed| == |fat.committed| == SECTOR_WORDS && fileno !in files
      ensures chain != [] && 0 <= chain[0] < SECTOR_WORDS && fat.committed[chain[0]] == 0
      ensures Consistent(dir.committed, fat.committed, blocks, files)
      ensures clean ==>
                && !dir.Masked() && (dirWraps <==> dir.committed[DIR_UPDATED] == 0xffff)
                && (tableWraps <==> fat.committed[FAT_UPDATED] == 0xffff)
    {
      hide Consistent, IsChain, Passes, OlderThan, SameEntriesBut, AllFit, TwoCopies.Guarded;
    }

    lemma CreateHalfway(w0: seq<U16>)
      requires !dir.Masked() && |dir.committed| == |fat.committed| == SECTOR_WORDS
      requires (dirWraps <==> dir.committed[DIR_UPDATED] == 0xffff) && (fat.Masked() <==> tableWraps)
      requires phase == CreateDirectory && fat.step == Idle && fileno !in files && fat.Slot(fat.curr) == w0
      requires chain != [] && |w0| == SECTOR_WORDS && 0 <= chain[0] < SECTOR_WORDS && w0[chain[0]] == 0
      requires Consistent(dir.committed, w0, blocks, files) && Consistent(dir.committed, fat.committed, blocks, files)
      requires Consistent(dir.Image(), fat.committed, blocks, files[fileno := chain])
      ensures Told()
    {
      hide Consistent, Stale;
      assert files - {fileno} == files;
      StaleIs(dir.Image(), fat.committed, w0, blocks, files[fileno := chain], fileno);
    }

    /** The end of __card_createfatcallback: fills the entry and starts to commit the directory. */
    method StartDirectory(game: seq<U16>, time: seq<U16>)
      requires Wired() && dir.Guarded() && Consistent(dir.committed, fat.committed, blocks, files)
      requires IsChain(fat.committed, blocks, chain) && OwnChain() && Prepared(|chain|)
      requires |time| == 2 && (game == [] || (|game| == 3 && game[0] / 0x100 != 0xff))
      modifies dir`step, dir.Ram(dir.curr)
      ensures dir.InHand() && dir.step == Erasing && (dir.Masked() <==> old(dir.Masked()))
      ensures Consistent(dir.Image(), fat.committed, blocks, files[fileno := chain])
    {
      hide Consistent, IsChain, Passes, OlderThan, SameEntriesBut, Used, Sealed, Apart, FieldsSet, Inc16, Counted,
           OwnChain, TwoCopies.Masked;
      ghost var d := dir.Image();
      var entries := dir.Ram(dir.curr);
      FillEntry(entries, fileno, game, fileblock, time);
      ghost var d1 := entries[..];
      dir.Update();
      EntryFilled(dir.committed, d, d1, fat.committed);
    }

    /** The card has written the table of a create: __card_fatwritecallback, then __card_createfatcallback. `game` is
        what the caller set with the game code, or nothing. */
    method CreateTableWritten(game: seq<U16>, time: seq<U16>)
      requires Valid() && phase == CreateTable && fat.step == Writing
      requires |time| == 2 && (game == [] || (|game| == 3 && game[0] / 0x100 != 0xff))
      modifies Footprint()
      ensures Valid() && phase == CreateDirectory && fat.committed == old(fat.Image())
      ensures dir.committed == old(dir.committed)
      ensures files == old(files) && fileno == old(fileno) && chain == old(chain)
      ensures clean == old(clean) && dirWraps == old(dirWraps) && tableWraps == old(tableWraps)
    {
      hide Consistent, IsChain, Passes, OlderThan, Apart, Inc16, OwnChain, Prepared, Told, Stale, TwoCopies.Masked;
      ghost var w0 := fat.committed;
      CreateTableFacts();
      fat.WriteDone();
      StartDirectory(game, time);
      phase := CreateDirectory;
      if clean { CreateHalfway(w0); }
    }

    /** What a mount may find while the directory of a create is committed ... */
    lemma CreateFacts()
      requires Valid() && clean && phase == CreateDirectory
      ensures |dir.committed| == |fat.committed| == SECTOR_WORDS && fileno !in files
      ensures (dirWraps <==> dir.committed[DIR_UPDATED] == 0xffff) && (fat.Masked() <==> tableWraps)
      ensures Consistent(dir.committed, fat.committed, blocks, files)
      ensures fat.Masked() ==>
                && Consistent(dir.committed, fat.Slot(fat.curr), blocks, files)
                && Stale(dir.Image(), fat.Slot(fat.curr), fileno, chain)
    {
      hide Consistent, Stale, Passes, OlderThan, TwoCopies.Guarded;
      assert files == files - {fileno};
      assert dir.MayFind(dir.Image());
      if fat.Masked() { assert fat.MayFind(fat.Slot(fat.curr)); }
    }

    /** ... and when it is done. */
    lemma Created(before: map<nat, seq<int>>)
      requires phase == Rest && last == Creation && dir.step == fat.step == Idle
      requires |dir.committed| == |fat.committed| == SECTOR_WORDS
      requires fileno !in before && files == before[fileno := chain]
      requires (dir.Masked() <==> dirWraps) && (fat.Masked() <==> tableWraps)
      requires Consistent(dir.committed, fat.committed, blocks, files)
      requires dir.Masked() ==> Consistent(dir.Slot(dir.curr), fat.committed, blocks, before)
      requires fat.Masked() ==> Stale(dir.committed, fat.Slot(fat.curr), fileno, chain)
      requires dir.Masked() && fat.Masked() ==> Consistent(dir.Slot(dir.curr), fat.Slot(fat.curr), blocks, before)
      ensures Told()
    {
      hide Consistent, Stale, Passes;
      assert files - {fileno} == before;
    }

    /** What Running says where the second commit of a create or delete is running ... */
    lemma CommitRuns()
      requires Running() && (phase == CreateDirectory || phase == DeleteTable)
      ensures Wired() && Consistent(dir.committed, fat.committed, blocks, files)
      ensures phase == CreateDirectory ==>
                fat.Quiet() && dir.InHand() && Consistent(dir.Image(), fat.committed, blocks, files[fileno := chain])
      ensures phase == DeleteTable ==>
                dir.Quiet() && fat.InHand() && Consistent(dir.committed, fat.Image(), blocks, files)
    {
    }

    /** The card has written the directory of a create: the file exists. */
    method CreateDirectoryWritten()
      requires Valid() && phase == CreateDirectory && dir.step == Writing
      modifies Footprint()
      ensures Valid() && phase == Rest && !busy && files == old(files)[old(fileno) := old(chain)] && last == Creation
      ensures dir.committed == old(dir.Image()) && fat.committed == old(fat.committed)
      ensures fileno == old(fileno) && chain == old(chain)
      ensures clean == old(clean) && dirWraps == old(dirWraps) && tableWraps == old(tableWraps)
    {
      hide Consistent, Stale, Passes, Running, Told, TwoCopies.Masked, TwoCopies.Quiet, TwoCopies.Guarded;
      CommitRuns();
      if clean { CreateFacts(); }
      dir.WriteDone();
      files := files[fileno := chain];
      phase := Rest;
      busy := false;
      last := Creation;
      AtRest();
      if clean { Created(old(files)); }
    }

    /** __card_getfilenum */
    method FindFile(name: seq<U16>) returns (found: bool, i: nat)
      requires Shaped() && dir.Quiet() && |name| == NAME_WORDS
      ensures found <==> NameTaken(dir.committed, name)
      ensures found ==> i < MAXFILES && Used(dir.committed, i) && NameOf(dir.committed, i) == name
    {
      dir.QuietFacts();
      var entries := dir.Ram(dir.curr);
      ghost var d := entries[..];
      i := 0;
      while i < MAXFILES
        invariant 0 <= i <= MAXFILES
        invariant forall j: nat :: j < i && Used(d, j) ==> NameOf(d, j) != name
      {
        var at := ENTRY_WORDS * i;
        if entries[at] / 0x100 != 0xff && entries[at + NAME_AT..at + NAME_AT + NAME_WORDS] == name {
          assert Used(d, i) && NameOf(d, i) == name;
          return true, i;
        }
        i := i + 1;
      }
      found := false;
    }

    lemma UsedFile(d: seq<U16>, w: seq<U16>, i: nat)
      requires Consistent(d, w, blocks, files) && |d| == SECTOR_WORDS && i < MAXFILES && Used(d, i)
      ensures i in files && files[i] != [] && files[i][0] == EntryWord(d, i, BLOCK_AT)
    {
      assert i in files;
      assert Backed(d, w, blocks, i, files[i]);
    }

    /** memset(entry, -1, ...) */
    static method WipeEntry(entries: array<U16>, i: nat)
      requires entries.Length == SECTOR_WORDS && i < MAXFILES
      modifies entries
      ensures SameEntriesBut(old(entries[..]), entries[..], i) && entries[DIR_UPDATED] == old(entries[DIR_UPDATED])
      ensures !Used(entries[..], i) && forall k: nat :: k < ENTRY_WORDS ==> EntryWord(entries[..], i, k) == 0xffff
    {
      ghost var d := entries[..];
      var at := ENTRY_WORDS * i;
      var k := 0;
      while k < ENTRY_WORDS
        invariant 0 <= k <= ENTRY_WORDS
        invariant forall j :: 0 <= j < SECTOR_WORDS && !(at <= j < at + ENTRY_WORDS) ==> entries[j] == d[j]
        invariant forall j :: at <= j < at + k ==> entries[j] == 0xffff
      {
        entries[at + k] := 0xffff;
        k := k + 1;
      }
      OnlyEntry(d, entries[..], i);
      forall j: nat | j < ENTRY_WORDS
        ensures EntryWord(entries[..], i, j) == 0xffff
      {
      }
      assert EntryWord(entries[..], i, 0) == 0xffff;
    }

    static lemma SameItself(d: seq<U16>, i: nat)
      requires |d| == SECTOR_WORDS
      ensures SameEntriesBut(d, d, i)
    {
    }

    lemma EntryWiped(d: seq<U16>, d1: seq<U16>, w: seq<U16>)
      requires Consistent(d, w, blocks, files) && fileno < MAXFILES && |d| == |d1| == SECTOR_WORDS
      requires SameEntriesBut(d, d1, fileno) && !Used(d1, fileno)
      ensures Consistent(Sealed(d1, Directory), w, blocks, files - {fileno})
    {
      hide Consistent, IsChain, Apart, Sealed;
      var d2 := Sealed(d1, Directory);
      SealKeepsEntries(d1);
      SameItself(d, fileno);
      SameThrough(d, d, d1, d2, fileno);
      assert SameEntry(d1, d2, fileno);
      assert EntryWord(d2, fileno, 0) == EntryWord(d1, fileno, 0);
      EntryRemoved(d, d2, w, blocks, files, fileno);
    }

    lemma DeleteBegun()
      requires Running() && Began() && clean && phase == DeleteDirectory
      ensures Told()
    {
      hide Consistent, IsChain, Passes, OlderThan, TwoCopies.Guarded;
      assert (files - {fileno})[fileno := chain] == files;
    }

    method ClearEntry()
      requires Shaped() && phase == Rest && busy && fat.Quiet() && dir.Quiet()
      requires Consistent(dir.committed, fat.committed, blocks, files)
      requires fileno < MAXFILES && Used(dir.committed, fileno)
      modifies this`phase, this`fileblock, this`chain, dir`step, dir.Ram(dir.curr)
      ensures Running() && phase == DeleteDirectory
    {
      hide Consistent, Used, Passes, IsChain, OlderThan, Sealed, SameEntriesBut, Told, Began;
      dir.QuietFacts();
      UsedFile(dir.committed, fat.committed, fileno);
      var entries := dir.Ram(dir.curr);
      ghost var d := entries[..];
      fileblock := entries[ENTRY_WORDS * fileno + BLOCK_AT];
      chain := files[fileno];
      WipeEntry(entries, fileno);
      ghost var d1 := entries[..];
      dir.Update();
      phase := DeleteDirectory;
      EntryWiped(d, d1, fat.committed);
    }

    /** CARD_DeleteAsync: clears the entry, and starts to commit the directory. */
    method Delete(name: seq<U16>) returns (ret: Answer)
      requires Valid() && |name| == NAME_WORDS
      modifies Footprint()
      ensures Valid() && files == old(files) && dir.committed == old(dir.committed)
      ensures fat.committed == old(fat.committed)
      ensures ret == if old(busy) then Busy else if NameTaken(dir.committed, name) then Started else NoFile
      ensures ret != Started ==> phase == old(phase) && busy == old(busy)
      ensures ret == Started ==>
                && phase == DeleteDirectory && fileno < MAXFILES && Used(dir.committed, fileno)
                && NameOf(dir.committed, fileno) == name && Began()
    {
      hide Consistent, NameTaken, Used, Passes, IsChain, OlderThan, TwoCopies.Guarded, Told, Began;
      if busy {
        return Busy;
      }
      busy := true;
      var found, i := FindFile(name);
      if !found {
        busy := false;
        return NoFile;
      }
      fileno := i;
      ClearEntry();
      RunningShape();
      Begin();
      if clean { DeleteBegun(); }
      ret := Started;
    }

    lemma ChainOfFile(d: seq<U16>, w: seq<U16>, before: map<nat, seq<int>>, i: nat)
      requires Consistent(d, w, blocks, before) && i in before
      ensures IsChain(w, blocks, before[i]) && before[i] != [] && InArea(before[i][0], blocks)
      ensures forall j {:trigger before[j]} :: j in before && j != i ==> Apart(before[j], before[i])
    {
      hide Apart;
      assert i < MAXFILES;
      assert Backed(d, w, blocks, i, before[i]);
    }

    lemma ChainLeft(d: seq<U16>, w: seq<U16>, d0: seq<U16>, before: map<nat, seq<int>>)
      requires Consistent(d0, w, blocks, before) && fileno in before
      requires before[fileno] == chain && files == before - {fileno}
      ensures IsChain(w, blocks, chain) && forall j {:trigger files[j]} :: j in files ==> Apart(files[j], chain)
    {
      hide Apart, IsChain;
      ChainOfFile(d0, w, before, fileno);
    }

    lemma FirstIsFree(w: seq<U16>, w': seq<U16>, c: seq<int>)
      requires IsChain(w, blocks, c) && Freed(w, w', blocks, c)
      ensures |w'| == SECTOR_WORDS && SYSAREA <= c[0] < SECTOR_WORDS && w'[c[0]] == 0 && Sealed(w', Table)[c[0]] == 0
    {
      assert InArea(c[0], blocks) && c[0] in c;
      SealedKeeps(w', Table, c[0]);
    }

    /** The directory of a delete is committed; what was committed before may still be in view. */
    ghost predicate DirectoryDone()
      reads this`files, this`fileno, this`chain, this`dirWraps, this`tableWraps, fat, dir
    {
      && |dir.committed| == |fat.committed| == SECTOR_WORDS && fileno !in files
      && (dir.Masked() <==> dirWraps) && !fat.Masked() && (tableWraps <==> fat.committed[FAT_UPDATED] == 0xffff)
      && Consistent(dir.Slot(dir.curr), fat.committed, blocks, files[fileno := chain])
    }

    lemma DeleteHalfway()
      requires DirectoryDone() && phase == DeleteTable && dir.step == Idle
      requires chain != [] && |fat.Image()| == SECTOR_WORDS
      requires 0 <= chain[0] < SECTOR_WORDS && fat.Image()[chain[0]] == 0
      requires Consistent(dir.committed, fat.committed, blocks, files)
      requires Consistent(dir.committed, fat.Image(), blocks, files)
      ensures Told()
    {
      hide Consistent, Stale;
      assert files - {fileno} == files;
      StaleIs(dir.Slot(dir.curr), fat.committed, fat.Image(), blocks, files[fileno := chain], fileno);
    }

    /** __card_freeblock for the deleted file's chain, with the commit of the table begun. */
    method ReleaseChain()
      requires Shaped() && fat.Quiet() && dir.Quiet() && busy && Consistent(dir.committed, fat.committed, blocks, files)
      requires IsChain(fat.committed, blocks, chain) && fileblock == chain[0]
      requires forall j {:trigger files[j]} :: j in files ==> Apart(files[j], chain)
      requires clean ==> DirectoryDone()
      modifies this`phase, fat`step, fat.Ram(fat.curr)
      ensures Valid() && phase == DeleteTable
    {
      hide Consistent, Passes, OlderThan, Used, Sealed, Freed, Cleared, Counted, Apart, Linked, Distinct,
           TwoCopies.Guarded, Told;
      fat.QuietFacts();
      var table := fat.Ram(fat.curr);
      ghost var w := table[..];
      TableCounts(w);
      var status, done := FreeBlock(table, blocks, fileblock);
      SameChain(w, blocks, chain, done);
      ghost var w1 := table[..];
      FreeCounted(w, w1, blocks, done);
      FreeShape(w, w1, blocks, done);
      AfterFree(dir.committed, w, w1, blocks, files, done);
      FirstIsFree(w, w1, done);
      fat.Update();
      phase := DeleteTable;
      if clean { DeleteHalfway(); }
    }

    /** The card has written the directory of a delete: __card_dirwritecallback, then __delete_callback frees the
        chain. */
    method DeleteDirectoryWritten()
      requires Valid() && phase == DeleteDirectory && dir.step == Writing
      modifies Footprint()
      ensures Valid() && phase == DeleteTable && files == old(files) - {old(fileno)}
      ensures dir.committed == old(dir.Image()) && fat.committed == old(fat.committed)
      ensures clean == old(clean) && dirWraps == old(dirWraps) && tableWraps == old(tableWraps)
    {
      hide Consistent, IsChain, Passes, OlderThan, Used, Apart;
      dir.WriteDone();
      files := files - {fileno};
      assert files[fileno := chain] == old(files);
      ChainLeft(dir.committed, fat.committed, old(dir.committed), old(files));
      ReleaseChain();
    }

    /** What a mount may find while the table of a delete is committed ... */
    lemma DeleteFacts()
      requires Valid() && clean && phase == DeleteTable
      ensures |dir.committed| == |fat.committed| == SECTOR_WORDS && fileno !in files
      ensures (tableWraps <==> fat.committed[FAT_UPDATED] == 0xffff) && (dir.Masked() <==> dirWraps)
      ensures dir.Masked() ==>
                && Consistent(dir.Slot(dir.curr), fat.committed, blocks, files[fileno := chain])
                && Stale(dir.Slot(dir.curr), fat.Image(), fileno, chain)
    {
      hide Consistent, Stale, Passes, OlderThan, TwoCopies.Guarded;
      assert files == files - {fileno};
      assert fat.MayFind(fat.Image());
      if dir.Masked() { assert dir.MayFind(dir.Slot(dir.curr)); }
    }

    /** ... and when it is done. */
    lemma Deleted()
      requires phase == Rest && last == Deletion && dir.step == fat.step == Idle
      requires |dir.committed| == |fat.committed| == SECTOR_WORDS && fileno !in files
      requires (dir.Masked() <==> dirWraps) && (fat.Masked() <==> tableWraps)
      requires Consistent(dir.committed, fat.committed, blocks, files)
      requires fat.Masked() ==> Consistent(dir.committed, fat.Slot(fat.curr), blocks, files)
      requires dir.Masked() ==> Stale(dir.Slot(dir.curr), fat.committed, fileno, chain)
      requires dir.Masked() && fat.Masked() ==>
               Consistent(dir.Slot(dir.curr), fat.Slot(fat.curr), blocks, files[fileno := chain])
      ensures Told()
    {
      hide Consistent, Stale, Passes;
      assert files - {fileno} == files;
    }

    /** The card has written the table of a delete. */
    method DeleteTableWritten()
      requires Valid() && phase == DeleteTable && fat.step == Writing
      modifies Footprint()
      ensures Valid() && phase == Rest && !busy && files == old(files) && last == Deletion
      ensures fat.committed == old(fat.Image()) && dir.committed == old(dir.committed)
      ensures fileno == old(fileno) && chain == old(chain)
      ensures clean == old(clean) && dirWraps == old(dirWraps) && tableWraps == old(tableWraps)
    {
      hide Consistent, Stale, Passes, Running, Told, TwoCopies.Masked, TwoCopies.Quiet, TwoCopies.Guarded;
      CommitRuns();
      if clean { DeleteFacts(); }
      fat.WriteDone();
      phase := Rest;
      busy := false;
      last := Deletion;
      AtRest();
      if clean { Deleted(); }
    }

    /** A mount would find a directory that lists the file and a table without its chain. */
    ghost predicate Lost(junkTable: seq<U16>, junkDirectory: seq<U16>)
      reads this`phase, this`last, Copies()
      requires Shaped()
    {
      DirHas() != dir.TakesOther(junkDirectory) && TableHas() == fat.TakesOther(junkTable)
    }

    /** The versions that a mount would find fit as their histories say. */
    lemma SurvivorsFit(junkTable: seq<U16>, junkDirectory: seq<U16>)
      requires Shaped() && AllFit()
      ensures Fit(dir.Survivor(junkDirectory), DirHas() != dir.TakesOther(junkDirectory),
                  fat.Survivor(junkTable), TableHas() != fat.TakesOther(junkTable))
    {
      hide Fit, Passes, OlderThan;
      if dir.TakesOther(junkDirectory) { assert dir.MayFind(dir.Survivor(junkDirectory)); }
      if fat.TakesOther(junkTable) { assert fat.MayFind(fat.Survivor(junkTable)); }
    }

    /** Neither mount goes back behind what was committed. */
    ghost predicate NothingMasked(junkTable: seq<U16>, junkDirectory: seq<U16>)
      reads Copies()
      requires Shaped()
    {
      (fat.TakesOther(junkTable) ==> fat.step == Writing) && (dir.TakesOther(junkDirectory) ==> dir.step == Writing)
    }

    /** What is found after power was lost belongs together. */
    lemma CutConsistent(junkTable: seq<U16>, junkDirectory: seq<U16>)
      requires Valid() && NothingMasked(junkTable, junkDirectory)
      ensures Consistent(dir.Survivor(junkDirectory), fat.Survivor(junkTable), blocks,
                         if !dir.TakesOther(junkDirectory) then files
                         else if phase == CreateDirectory then files[fileno := chain] else files - {fileno})
    {
      hide Consistent, IsChain, Passes, OlderThan, OwnChain, Told;
    }

    lemma CommandsRun()
      requires Valid()
      ensures Shaped() && (fat.step != Idle ==> fat.InHand()) && (dir.step != Idle ==> dir.InHand())
    {
      hide Consistent, IsChain, Passes, OlderThan, OwnChain, Told, SameEntriesBut;
    }

    /** What a mount would find, and when that is consistent. */
    lemma FilesFound(junkTable: seq<U16>, junkDirectory: seq<U16>) returns (fs: map<nat, seq<int>>)
      requires Valid()
      ensures NothingMasked(junkTable, junkDirectory) ==>
                fs == if !dir.TakesOther(junkDirectory) then files
                      else if phase == CreateDirectory then files[fileno := chain] else files - {fileno}
      ensures NothingMasked(junkTable, junkDirectory) || (clean && !Lost(junkTable, junkDirectory)) ==>
                Consistent(dir.Survivor(junkDirectory), fat.Survivor(junkTable), blocks, fs)
      ensures clean ==>
                ((exists f :: Consistent(dir.Survivor(junkDirectory), fat.Survivor(junkTable), blocks, f)) <==>
                 !Lost(junkTable, junkDirectory))
    {
      hide Consistent, IsChain, Passes, OlderThan, OwnChain, TwoCopies.Guarded, Prepared, Fits, AllFit;
      var d, w := dir.Survivor(junkDirectory), fat.Survivor(junkTable);
      fs := files;
      if NothingMasked(junkTable, junkDirectory) {
        CutConsistent(junkTable, junkDirectory);
        if dir.TakesOther(junkDirectory) {
          fs := if phase == CreateDirectory then files[fileno := chain] else files - {fileno};
        }
      }
      if clean && !(phase == Rest && last == Nothing) {
        SurvivorsFit(junkTable, junkDirectory);
        var lists := DirHas() != dir.TakesOther(junkDirectory);
        FitsMeans(d, lists, w, TableHas() != fat.TakesOther(junkTable), blocks, files - {fileno}, fileno, chain);
        if !NothingMasked(junkTable, junkDirectory) {
          fs := Listing(lists);
        }
      }
    }

    /** After a create or delete that began with the committed versions in view, a mount finds a directory and a table
        that are consistent if and only if, of the two counters, that of the commit that came first did not wrap around
        alone. */
    lemma FoundAfter(junk: seq<U16>)
      requires Valid() && clean && phase == Rest
      ensures (exists f :: Consistent(dir.Survivor(junk), fat.Survivor(junk), blocks, f)) <==>
              match last
              case Nothing => true
              case Creation => tableWraps ==> dirWraps
              case Deletion => dirWraps ==> tableWraps
    {
      hide Consistent, IsChain, Passes, OlderThan, OwnChain, TwoCopies.Guarded, Prepared, AllFit;
      var fs := FilesFound(junk, junk);
    }

    lemma Mounted()
      requires Wired() && phase == Rest && fat.Quiet() && dir.Quiet() && !fat.Masked() && !dir.Masked()
      requires last == Nothing && !dirWraps && !tableWraps
      requires Consistent(dir.committed, fat.committed, blocks, files)
      ensures Valid()
    {
      hide Consistent, Passes, OlderThan;
      fat.QuietFacts();
      dir.QuietFacts();
    }

    /** Power is lost at any point of any run, leaving junk in the sector the card was working on; the card is mounted
        again. Unless it finds a version from before a counter wrapped around, the directory and the table found are
        consistent, each being the last committed version, or the one being written if that was complete. If it may have
        found such a version, but did not when the running or last create or delete began, they are consistent if and
        only if not `Lost`. */
    method PowerLoss(junkTable: seq<U16>, junkDirectory: seq<U16>)
      requires Valid() && |junkTable| == |junkDirectory| == SECTOR_WORDS
      requires fat.step != Idle ==> fat.MayBeLeft(junkTable)
      requires dir.step != Idle ==> dir.MayBeLeft(junkDirectory)
      modifies Footprint()
      ensures phase == Rest && !busy && fat.Quiet() && dir.Quiet()
      ensures fat.committed == old(fat.Survivor(junkTable)) && dir.committed == old(dir.Survivor(junkDirectory))
      ensures old(NothingMasked(junkTable, junkDirectory)) ==>
                && Valid() && clean
                && files == if !old(dir.TakesOther(junkDirectory)) then old(files)
                            else if old(phase) == CreateDirectory then old(files)[old(fileno) := old(chain)]
                            else old(files) - {old(fileno)}
      ensures old(clean) ==>
                ((exists fs :: Consistent(dir.committed, fat.committed, blocks, fs))
                  <==> !old(Lost(junkTable, junkDirectory)))
      ensures old(clean && !Lost(junkTable, junkDirectory)) ==> Valid() && clean
    {
      hide Consistent, Passes, TwoCopies.Guarded, TwoCopies.InHand, TwoCopies.MayBeLeft, TwoCopies.Survivor,
           TwoCopies.TakesOther, TwoCopies.Masked, TwoCopies.Quiet, Lost, NothingMasked, Running, Told;
      CommandsRun();
      files := FilesFound(junkTable, junkDirectory);
      fat.Remount(junkTable);
      dir.Remount(junkDirectory);
      phase, last := Rest, Nothing;
      busy := false;
      clean, dirWraps, tableWraps := true, false, false;
      if Consistent(dir.committed, fat.committed, blocks, files) { Mounted(); }
    }
  }
}
