/** The two copies of the block table, and of the directory: each lies in two sectors of the card and in two
    buffers, and is committed by erasing and writing one sector while the other holds the last version. */
module Commit {
  import opened Fat

  datatype Kind = Table | Directory

  const DIR_UPDATED := 4093

  /** Where the update counter is. */
  function CounterAt(kind: Kind): nat {
    if kind == Table then FAT_UPDATED else DIR_UPDATED
  }

  /** Where the two checksums are. */
  function SumsAt(kind: Kind): nat {
    if kind == Table then 0 else 4094
  }

  /** Where the 4094 checked words begin. */
  function CheckedFrom(kind: Kind): nat {
    if kind == Table then 2 else 0
  }

  // ---- checksums ----

  function Sum(s: seq<U16>): (t: nat)
    ensures t < 0x1_0000
  {
    if s == [] then 0 else (Sum(s[..|s| - 1]) + s[|s| - 1]) % 0x1_0000
  }

  /** The sum of the complements. */
  function CoSum(s: seq<U16>): (t: nat)
    ensures t < 0x1_0000
  {
    if s == [] then 0 else (CoSum(s[..|s| - 1]) + (0xffff - s[|s| - 1])) % 0x1_0000
  }

  function NoOnes(t: nat): (c: U16)
    requires t < 0x1_0000
    ensures c != 0xffff
  {
    if t == 0xffff then 0 else t
  }

  /** __card_checksum of the n words from lo on. */
  method Checksum(buff: array<U16>, lo: nat, n: nat) returns (cs1: U16, cs2: U16)
    requires lo + n <= buff.Length
    ensures cs1 == NoOnes(Sum(buff[lo..lo + n])) && cs2 == NoOnes(CoSum(buff[lo..lo + n]))
  {
    cs1, cs2 := 0, 0;
    var i := 0;
    while i < n
      invariant 0 <= i <= n && cs1 == Sum(buff[lo..lo + i]) && cs2 == CoSum(buff[lo..lo + i])
    {
      assert buff[lo..lo + (i + 1)][..i] == buff[lo..lo + i];
      cs1 := (cs1 + buff[lo + i]) % 0x1_0000;
      cs2 := (cs2 + (0xffff - buff[lo + i])) % 0x1_0000;
      i := i + 1;
    }
    if cs1 == 0xffff {
      cs1 := 0;
    }
    if cs2 == 0xffff {
      cs2 := 0;
    }
  }

  ghost function Checked(w: seq<U16>, kind: Kind): seq<U16>
    requires |w| == SECTOR_WORDS
  {
    w[CheckedFrom(kind)..CheckedFrom(kind) + 4094]
  }

  /** The sector passes the checks made when a card is mounted. */
  ghost predicate Passes(w: seq<U16>, kind: Kind, blocks: nat) {
    && |w| == SECTOR_WORDS && SYSAREA <= blocks <= SECTOR_WORDS
    && w[SumsAt(kind)] == NoOnes(Sum(Checked(w, kind))) && w[SumsAt(kind) + 1] == NoOnes(CoSum(Checked(w, kind)))
    && (kind == Table ==> Counted(w, blocks))
  }

  /** An erased sector never passes. */
  lemma ErasedFails(w: seq<U16>, kind: Kind, blocks: nat)
    requires |w| == SECTOR_WORDS && forall i :: 0 <= i < SECTOR_WORDS ==> w[i] == 0xffff
    ensures !Passes(w, kind, blocks)
  {
  }

  /** The version that a mount takes from the two sectors. */
  ghost function Recovered(s0: seq<U16>, s1: seq<U16>, kind: Kind, blocks: nat): seq<U16> {
    if Passes(s0, kind, blocks) && Passes(s1, kind, blocks) then
      if s0[CounterAt(kind)] < s1[CounterAt(kind)] then s1 else s0
    else if Passes(s1, kind, blocks) then s1 else s0
  }

  /** A sector that a mount passes over in favour of the version c. */
  ghost predicate OlderThan(s: seq<U16>, c: seq<U16>, kind: Kind, blocks: nat) {
    !Passes(s, kind, blocks) || s == c || (|c| == SECTOR_WORDS && s[CounterAt(kind)] < c[CounterAt(kind)])
  }

  lemma KeptRecovered(s: seq<U16>, c: seq<U16>, kind: Kind, blocks: nat)
    requires Passes(c, kind, blocks) && OlderThan(s, c, kind, blocks)
    ensures Recovered(s, c, kind, blocks) == c == Recovered(c, s, kind, blocks)
  {
    hide Passes;
  }

  /** With two good sectors whose counters are one step apart, a mount takes the newer one if and only if the
      counter did not wrap around. */
  lemma NewerRecovered(old_: seq<U16>, new_: seq<U16>, kind: Kind, blocks: nat)
    requires Passes(old_, kind, blocks) && Passes(new_, kind, blocks)
    requires new_[CounterAt(kind)] == Inc16(old_[CounterAt(kind)])
    ensures Recovered(old_, new_, kind, blocks) == new_ <==> old_[CounterAt(kind)] != 0xffff
    ensures Recovered(new_, old_, kind, blocks) == new_ <==> old_[CounterAt(kind)] != 0xffff
  {
    hide Passes;
  }

  // ---- updating ----

  /** The version with its counter stepped and its checksums set. */
  ghost function Sealed(w: seq<U16>, kind: Kind): (r: seq<U16>)
    requires |w| == SECTOR_WORDS
    ensures |r| == SECTOR_WORDS
  {
    var w1 := w[CounterAt(kind) := Inc16(w[CounterAt(kind)])];
    w1[SumsAt(kind) := NoOnes(Sum(Checked(w1, kind)))][SumsAt(kind) + 1 := NoOnes(CoSum(Checked(w1, kind)))]
  }

  lemma SealedPasses(w: seq<U16>, kind: Kind, blocks: nat)
    requires |w| == SECTOR_WORDS && SYSAREA <= blocks <= SECTOR_WORDS && (kind == Table ==> Counted(w, blocks))
    ensures Passes(Sealed(w, kind), kind, blocks) && Sealed(w, kind)[CounterAt(kind)] == Inc16(w[CounterAt(kind)])
  {
    hide Sum, CoSum, NoOnes, Free;
    var w1 := w[CounterAt(kind) := Inc16(w[CounterAt(kind)])];
    assert Checked(Sealed(w, kind), kind) == Checked(w1, kind);
    if kind == Table { FreeSame(w, Sealed(w, kind), SYSAREA, blocks); }
  }

  /** Sealing touches no entry of the table or directory. */
  lemma SealedKeeps(w: seq<U16>, kind: Kind, i: nat)
    requires |w| == SECTOR_WORDS && i < SECTOR_WORDS
    requires if kind == Table then i >= 3 else i < DIR_UPDATED
    ensures Sealed(w, kind)[i] == w[i]
  {
    hide Sum, CoSum, NoOnes, Checked;
  }

  // ---- the formatted card ----

  ghost function Summed(w: seq<U16>, kind: Kind): (r: seq<U16>)
    requires |w| == SECTOR_WORDS
    ensures |r| == SECTOR_WORDS
  {
    w[SumsAt(kind) := NoOnes(Sum(Checked(w, kind)))][SumsAt(kind) + 1 := NoOnes(CoSum(Checked(w, kind)))]
  }

  /** The block table that __card_formatregion writes: no block is taken, and the two copies count 0 and 1. */
  ghost function FormattedTable(blocks: nat, cnt: U16): seq<U16>
    requires SYSAREA <= blocks <= SECTOR_WORDS
  {
    Summed(seq(SECTOR_WORDS, i => if i == FAT_UPDATED then cnt else if i == FAT_FREEBLOCKS then blocks - SYSAREA
                                  else if i == FAT_LASTALLOC then 4 else 0), Table)
  }

  /** The directory it writes, twice: all ones, the update counter too. */
  ghost function FormattedDirectory(): seq<U16> {
    Summed(seq(SECTOR_WORDS, i => 0xffff), Directory)
  }

  lemma SummedPasses(w: seq<U16>, kind: Kind, blocks: nat)
    requires |w| == SECTOR_WORDS && SYSAREA <= blocks <= SECTOR_WORDS && (kind == Table ==> Counted(w, blocks))
    ensures Passes(Summed(w, kind), kind, blocks) && Summed(w, kind)[CounterAt(kind)] == w[CounterAt(kind)]
  {
    hide Sum, CoSum, NoOnes, Free;
    assert Checked(Summed(w, kind), kind) == Checked(w, kind);
    if kind == Table { FreeSame(w, Summed(w, kind), SYSAREA, blocks); }
  }

  lemma {:induction false} AllFree(w: seq<U16>, lo: nat, hi: nat)
    requires hi <= |w| && forall b :: lo <= b < hi ==> w[b] == 0
    ensures Free(w, lo, hi) == if lo < hi then hi - lo else 0
    decreases hi
  {
    if lo >= hi {
    } else {
      AllFree(w, lo, hi - 1);
    }
  }

  lemma FormattedPasses(blocks: nat)
    requires SYSAREA <= blocks <= SECTOR_WORDS
    ensures Passes(FormattedTable(blocks, 0), Table, blocks) && Passes(FormattedTable(blocks, 1), Table, blocks)
    ensures OlderThan(FormattedTable(blocks, 0), FormattedTable(blocks, 1), Table, blocks)
    ensures Passes(FormattedDirectory(), Directory, blocks)
  {
    hide Sum, CoSum, Free, Summed, NoOnes;
    var zeros := (cnt: U16) =>
      seq<U16>(SECTOR_WORDS, i => if i == FAT_UPDATED then cnt
                                  else if i == FAT_FREEBLOCKS then blocks - SYSAREA
                                  else if i == FAT_LASTALLOC then 4 else 0);
    AllFree(zeros(0), SYSAREA, blocks);
    AllFree(zeros(1), SYSAREA, blocks);
    SummedPasses(zeros(0), Table, blocks);
    SummedPasses(zeros(1), Table, blocks);
    SummedPasses(seq(SECTOR_WORDS, i => 0xffff), Directory, blocks);
  }

  /** The first update of a freshly formatted directory is lost by a mount that follows it, whichever sector it went to:
      its counter wraps from 0xffff to 0. */
  lemma FirstUpdateLost(blocks: nat, d: seq<U16>)
    requires SYSAREA <= blocks <= SECTOR_WORDS
    requires |d| == SECTOR_WORDS && d[DIR_UPDATED] == FormattedDirectory()[DIR_UPDATED]
    ensures Recovered(Sealed(d, Directory), FormattedDirectory(), Directory, blocks) == FormattedDirectory()
    ensures Recovered(FormattedDirectory(), Sealed(d, Directory), Directory, blocks) == FormattedDirectory()
    ensures Sealed(d, Directory) != FormattedDirectory()
  {
    hide Sum, CoSum, Summed, Sealed, NoOnes, Passes;
    FormattedPasses(blocks);
    SummedPasses(seq(SECTOR_WORDS, i => 0xffff), Directory, blocks);
    SealedPasses(d, Directory, blocks);
    NewerRecovered(FormattedDirectory(), Sealed(d, Directory), Directory, blocks);
  }

  lemma RecoveredIsOne(s0: seq<U16>, s1: seq<U16>, kind: Kind, blocks: nat)
    ensures Recovered(s0, s1, kind, blocks) == s0 || Recovered(s0, s1, kind, blocks) == s1
  {
  }

  datatype Step = Idle | Erasing | Writing

  class TwoCopies {
    const kind: Kind
    const blocks: nat
    const ram0: array<U16>
    const ram1: array<U16>
    /** The buffer to be changed and written next, and with it the sector; -1 before a mount has chosen. */
    var curr: int
    var slot0: seq<U16>
    var slot1: seq<U16>
    /** The command the card is executing on the current sector. */
    var step: Step
    ghost var committed: seq<U16>

    /** A card mounted with these two sectors, of which at least the newer one is good. */
    constructor (kind: Kind, blocks: nat, s0: seq<U16>, s1: seq<U16>)
      requires SYSAREA <= blocks <= SECTOR_WORDS && |s0| == |s1| == SECTOR_WORDS
      requires var c := Recovered(s0, s1, kind, blocks);
               Passes(c, kind, blocks) && OlderThan(if c == s0 then s1 else s0, c, kind, blocks)
      ensures Quiet() && !Masked() && committed == Recovered(s0, s1, kind, blocks)
      ensures this.kind == kind && this.blocks == blocks
      ensures fresh(ram0) && fresh(ram1)
    {
      hide Passes, Recovered;
      this.kind, this.blocks := kind, blocks;
      ram0 := new U16[SECTOR_WORDS];
      ram1 := new U16[SECTOR_WORDS];
      curr := 0;
      slot0, slot1 := s0, s1;
      step := Idle;
      committed := Recovered(s0, s1, kind, blocks);
      new;
      RecoveredIsOne(s0, s1, kind, blocks);
      Mount();
    }

    function Slot(i: int): seq<U16>
      reads this`slot0, this`slot1
    {
      if i == 0 then slot0 else slot1
    }

    ghost predicate Shaped()
      reads this`curr, this`slot0, this`slot1
    {
      && |slot0| == |slot1| == SECTOR_WORDS
      && ram0 != ram1 && ram0.Length == ram1.Length == SECTOR_WORDS && SYSAREA <= blocks <= SECTOR_WORDS
      && (curr == 0 || curr == 1)
    }

    /** The counter wrapped around with the committed version: the one before it, still in the current sector, counts
        0xffff. */
    ghost predicate Masked()
      reads this`curr, this`slot0, this`slot1, this`step, this`committed
    {
      && step != Writing && |Slot(curr)| == |committed| == SECTOR_WORDS && Passes(Slot(curr), kind, blocks)
      && Slot(curr)[CounterAt(kind)] == 0xffff && committed[CounterAt(kind)] == 0
    }

    /** The sector that is not current holds the committed version, whatever happens to the current one. */
    ghost predicate Guarded()
      reads this
    {
      && Shaped() && Slot(1 - curr) == committed && Passes(committed, kind, blocks)
      && (step != Writing ==> OlderThan(Slot(curr), committed, kind, blocks) || Masked())
    }

    /** Nothing is in progress and nothing is changed. */
    ghost predicate Quiet()
      reads this, ram0, ram1
    {
      Guarded() && step == Idle && ram0[..] == committed && ram1[..] == committed
    }

    function Ram(i: int): array<U16> {
      if i == 0 then ram0 else ram1
    }

    static method CopyWords(from: array<U16>, to: array<U16>)
      requires from != to && from.Length == to.Length
      modifies to
      ensures to[..] == from[..]
    {
      var i := 0;
      while i < from.Length
        invariant 0 <= i <= from.Length && to[..i] == from[..i]
      {
        to[i] := from[i];
        i := i + 1;
      }
    }

    method CountFree(buff: array<U16>) returns (freeblocks: nat)
      requires buff.Length == SECTOR_WORDS && SYSAREA <= blocks <= SECTOR_WORDS
      ensures freeblocks == Free(buff[..], SYSAREA, blocks)
    {
      var curblock := SYSAREA;
      freeblocks := 0;
      while curblock < blocks
        invariant SYSAREA <= curblock <= blocks && freeblocks == Free(buff[..], SYSAREA, curblock)
      {
        if buff[curblock] == 0 {
          freeblocks := freeblocks + 1;
        }
        curblock := curblock + 1;
      }
    }

    method CheckCopy(buff: array<U16>) returns (good: bool)
      requires buff.Length == SECTOR_WORDS && SYSAREA <= blocks <= SECTOR_WORDS
      ensures good == Passes(buff[..], kind, blocks)
    {
      hide Sum, CoSum, NoOnes;
      var cs1, cs2 := Checksum(buff, CheckedFrom(kind), 4094);
      assert Checked(buff[..], kind) == buff[CheckedFrom(kind)..CheckedFrom(kind) + 4094];
      good := cs1 == buff[SumsAt(kind)] && cs2 == buff[SumsAt(kind) + 1];
      if good && kind == Table {
        var free := CountFree(buff);
        good := free == buff[FAT_FREEBLOCKS];
      }
    }

    /** __card_checkfat, __card_checkdir for the two loaded sectors. */
    method Check() returns (bad: nat)
      requires ram0 != ram1 && ram0.Length == ram1.Length == SECTOR_WORDS
      requires SYSAREA <= blocks <= SECTOR_WORDS && -1 <= curr <= 1
      modifies this`curr, ram0, ram1
      ensures bad
              == (if old(Passes(ram0[..], kind, blocks)) then 0 else 1)
                + (if old(Passes(ram1[..], kind, blocks)) then 0 else 1)
      ensures bad == 0 && old(curr) != -1 ==>
              curr == old(curr) && ram0[..] == old(ram0[..]) && ram1[..] == old(ram1[..])
      ensures bad > 0 || old(curr) == -1 ==>
                && (curr == 0 || curr == 1)
                && ram1[..] == ram0[..] == (if curr == 0 then old(ram1[..]) else old(ram0[..]))
                && ram0[..] == Recovered(old(ram0[..]), old(ram1[..]), kind, blocks)
    {
      hide Passes;
      ghost var w0, w1 := ram0[..], ram1[..];
      bad := 0;
      var badCopy := 0;
      var i := 0;
      while i < 2
        invariant 0 <= i <= 2 && badCopy <= 1 && ram0[..] == w0 && ram1[..] == w1
        invariant bad
                  == (if i < 1 || Passes(w0, kind, blocks) then 0 else 1)
                    + (if i < 2 || Passes(w1, kind, blocks) then 0 else 1)
        invariant bad > 0 ==> curr == -1 && !Passes(Ram(badCopy)[..], kind, blocks) && badCopy < i
        invariant bad == 2 ==> badCopy == 1
        invariant bad == 0 ==> curr == old(curr)
      {
        var good := CheckCopy(Ram(i));
        if !good {
          curr := -1;
          badCopy := i;
          bad := bad + 1;
        }
        i := i + 1;
      }
      var d := badCopy;
      if bad == 0 {
        d := if ram0[CounterAt(kind)] < ram1[CounterAt(kind)] then 0 else 1;
      }
      if curr == -1 {
        curr := d;
        CopyWords(Ram(1 - d), Ram(d));
      }
    }

    static method Load(to: array<U16>, from: seq<U16>)
      requires to.Length == |from|
      modifies to
      ensures to[..] == from
    {
      var i := 0;
      while i < |from|
        invariant 0 <= i <= |from| && to[..i] == from[..i]
      {
        to[i] := from[i];
        i := i + 1;
      }
    }

    /** Loads both sectors and chooses; the version chosen is `committed`. */
    method Mount()
      requires ram0 != ram1 && ram0.Length == ram1.Length == SECTOR_WORDS && SYSAREA <= blocks <= SECTOR_WORDS
      requires |slot0| == |slot1| == SECTOR_WORDS && Passes(committed, kind, blocks)
      requires (slot0 == committed && OlderThan(slot1, committed, kind, blocks))
               || (slot1 == committed && OlderThan(slot0, committed, kind, blocks))
      modifies this`curr, this`step, ram0, ram1
      ensures Quiet() && !Masked()
    {
      hide Passes, Recovered;
      ghost var other := if slot0 == committed then slot1 else slot0;
      KeptRecovered(other, committed, kind, blocks);
      step := Idle;
      Load(ram0, slot0);
      Load(ram1, slot1);
      curr := -1;
      var bad := Check();
    }

    /** The version being worked on. */
    ghost function Image(): seq<U16>
      reads this`curr, ram0, ram1
    {
      Ram(curr)[..]
    }

    lemma QuietFacts()
      requires Quiet()
      ensures Passes(committed, kind, blocks) && Image() == committed
      ensures |committed| == SECTOR_WORDS && (curr == 0 || curr == 1)
    {
      hide Passes;
    }

    /** The current buffer is being written. */
    ghost predicate InHand()
      reads this, ram0, ram1
    {
      && Guarded() && step != Idle && Passes(Image(), kind, blocks)
      && Image()[CounterAt(kind)] == Inc16(committed[CounterAt(kind)])
    }

    /** __card_updatefat, __card_updatedir: steps the counter, sets the checksums, and starts to erase the sector. */
    method Update()
      requires Guarded() && step == Idle && Image()[CounterAt(kind)] == committed[CounterAt(kind)]
      requires (kind == Table ==> Counted(Image(), blocks))
      modifies this`step, Ram(curr)
      ensures InHand() && step == Erasing && Image() == Sealed(old(Image()), kind) && Masked() == old(Masked())
    {
      hide Passes, Sum, CoSum, NoOnes, Counted;
      var buff := Ram(curr);
      ghost var w := buff[..];
      SealedPasses(w, kind, blocks);
      buff[CounterAt(kind)] := Inc16(buff[CounterAt(kind)]);
      ghost var w1 := buff[..];
      var cs1, cs2 := Checksum(buff, CheckedFrom(kind), 4094);
      buff[SumsAt(kind)] := cs1;
      buff[SumsAt(kind) + 1] := cs2;
      assert buff[..] == Sealed(w, kind);
      step := Erasing;
    }

    method SetSlot(s: seq<U16>)
      requires Shaped() && |s| == SECTOR_WORDS
      modifies this`slot0, this`slot1
      ensures Shaped() && Slot(curr) == s && Slot(1 - curr) == old(Slot(1 - curr))
    {
      if curr == 0 {
        slot0 := s;
      } else {
        slot1 := s;
      }
    }

    /** The erase command is done: __card_faterasecallback, __card_direrasecallback start to write the sector. */
    method EraseDone()
      requires InHand() && step == Erasing
      modifies this`step, this`slot0, this`slot1
      ensures InHand() && step == Writing && Image() == old(Image()) && !Masked()
    {
      hide Passes;
      var erased := seq(SECTOR_WORDS, i => 0xffff);
      SetSlot(erased);
      step := Writing;
    }

    /** The write command is done: __card_fatwritecallback, __card_dirwritecallback flip to the other copy. */
    method WriteDone()
      requires InHand() && step == Writing
      modifies this, ram0, ram1
      ensures Quiet() && committed == old(Image()) && committed != old(committed) && Slot(curr) == old(committed)
      ensures Masked() <==> old(committed[CounterAt(kind)]) == 0xffff
    {
      hide Passes;
      var from, to := Ram(curr), Ram(1 - curr);
      SetSlot(from[..]);
      committed := from[..];
      CopyWords(from, to);
      curr := 1 - curr;
      step := Idle;
    }

    /** What the current sector may hold if power is lost while the card works on it: the erased or written version
        in full, or something that does not pass the checks. */
    ghost predicate MayBeLeft(junk: seq<U16>)
      reads this, ram0, ram1
    {
      || !Passes(junk, kind, blocks)
      || (step == Erasing && junk == Slot(curr))
      || (step == Writing && junk == Image())
    }

    /** What is left are two sectors of which a mount does not choose the committed version: the one being written is
        complete and its counter did not wrap around, or the one before is still there and the committed one's counter
        did. */
    ghost predicate TakesOther(junk: seq<U16>)
      reads this, ram0, ram1
      requires Guarded()
    {
      if step == Writing then junk == Image() && committed[CounterAt(kind)] < 0xffff
      else Masked() && (step == Idle || junk == Slot(curr))
    }

    /** The version that a mount finds. */
    ghost function Survivor(junk: seq<U16>): seq<U16>
      reads this, ram0, ram1
      requires Guarded()
    {
      if !TakesOther(junk) then committed else if step == Writing then Image() else Slot(curr)
    }

    /** v is a version besides the committed one that a mount may find. */
    ghost predicate MayFind(v: seq<U16>)
      reads this, ram0, ram1
    {
      (step != Idle && v == Image()) || (Masked() && v == Slot(curr))
    }

    /** Power is lost, leaving `junk` in a sector the card was working on; then the card is mounted again. */
    method Remount(junk: seq<U16>)
      requires Guarded() && (step != Idle ==> InHand() && MayBeLeft(junk) && |junk| == SECTOR_WORDS)
      modifies this, ram0, ram1
      ensures Quiet() && !Masked() && committed == old(Survivor(junk))
    {
      hide Passes, Recovered;
      ghost var kept := Survivor(junk);
      if step != Idle {
        SetSlot(junk);
      }
      committed := kept;
      Mount();
    }

    /** Between two commits, that is the version of the two sectors that `Recovered` chooses. */
    lemma SurvivorIsRecovered(junk: seq<U16>)
      requires Guarded() && step == Idle
      ensures Survivor(junk) == Recovered(slot0, slot1, kind, blocks)
    {
      hide Passes, Recovered;
      if Masked() {
        KeptRecovered(committed, Slot(curr), kind, blocks);
      } else {
        KeptRecovered(Slot(curr), committed, kind, blocks);
      }
    }
  }
}
