/** Reading an ISO 9660 disc through a cache of sixteen logical sectors (ECMA-119, section 6.1.2). */
module Iso9660 {
  import opened Words

  const SECTOR_SIZE := 2048
  const BUFFER_SIZE := 32768
  const BUFFER_SECTORS := 16

  /** How the drive answers a request: in full, or with a failure that leaves the buffer in any state. */
  datatype Answer = Good | Bad(left: seq<Byte>)

  datatype DirEntry = DirEntry(sector: nat, size: nat)

  const SIGNATURE: seq<int> := ['C' as int, 'D' as int, '0' as int, '0' as int, '1' as int, 1]

  /** The drive fails the i-th of these requests. */
  predicate Fails(a: seq<Answer>, i: nat) {
    i < |a| && a[i].Bad?
  }

  /** The answers that are left after n requests. */
  function Behind(a: seq<Answer>, n: nat): seq<Answer> {
    if n < |a| then a[n..] else []
  }

  class Mount {
    /** The contents of the disc, sector by sector. */
    const disc: nat -> seq<Byte>
    const readBuffer: array<Byte>
    var cacheStart: nat
    var cacheSectors: nat
    /** The answers of the drive to the requests still to come; after them it answers in full. */
    var answers: seq<Answer>

    ghost function DiscByte(a: nat): int
      requires forall k: nat :: |disc(k)| == SECTOR_SIZE
    {
      disc(a / SECTOR_SIZE)[a % SECTOR_SIZE]
    }

    ghost predicate Shaped()
      reads this`answers
    {
      && readBuffer.Length == BUFFER_SIZE && (forall k: nat :: |disc(k)| == SECTOR_SIZE)
      && forall i :: 0 <= i < |answers| && answers[i].Bad? ==> |answers[i].left| == BUFFER_SIZE
    }

    ghost predicate HoldsSectors(start: nat, n: nat)
      reads this`answers, readBuffer
      requires Shaped() && n <= BUFFER_SECTORS
    {
      forall i {:trigger readBuffer[i]} :: 0 <= i < n * SECTOR_SIZE ==>
        readBuffer[i] == DiscByte(start * SECTOR_SIZE + i)
    }

    /** A non-empty cache holds exactly the sectors it claims to hold. */
    ghost predicate Valid()
      reads this, readBuffer
    {
      && Shaped() && (cacheSectors == 0 || cacheSectors == BUFFER_SECTORS)
      && (cacheSectors != 0 ==> HoldsSectors(cacheStart, BUFFER_SECTORS))
    }

    /** The drive: readSectors. */
    method ReadSectors(sector: nat, n: nat) returns (ok: bool)
      requires Shaped() && 0 < n <= BUFFER_SECTORS
      modifies this`answers, readBuffer
      ensures Shaped() && (ok ==> HoldsSectors(sector, n))
      ensures ok <==> old(answers) == [] || old(answers)[0].Good?
      ensures answers == if old(answers) == [] then [] else old(answers)[1..]
    {
      var bad := answers != [] && answers[0].Bad?;
      var left := if bad then answers[0].left else [];
      if answers != [] {
        answers := answers[1..];
      }
      if bad {
        forall i | 0 <= i < BUFFER_SIZE {
          readBuffer[i] := left[i];
        }
        return false;
      }
      forall i | 0 <= i < n * SECTOR_SIZE {
        readBuffer[i] := disc((sector * SECTOR_SIZE + i) / SECTOR_SIZE)[(sector * SECTOR_SIZE + i) % SECTOR_SIZE];
      }
      ok := true;
    }

    /** Sector k begins with the type t and the signature of a volume descriptor. */
    ghost predicate IsDescriptor(k: nat, t: int)
      requires forall k: nat :: |disc(k)| == SECTOR_SIZE
    {
      DiscByte(k * SECTOR_SIZE) == t && forall j: nat :: j < 6 ==> DiscByte(k * SECTOR_SIZE + (1 + j)) == SIGNATURE[j]
    }

    /** The search goes on behind sector k: it is read, and neither the descriptor nor the last one. */
    ghost predicate Passed(asked: seq<Answer>, k: nat, descriptor: Byte)
      requires forall k: nat :: |disc(k)| == SECTOR_SIZE
    {
      16 <= k && !Fails(asked, k - 16) && !IsDescriptor(k, descriptor) && !IsDescriptor(k, 0xff)
    }

    /** Reads sector k to the beginning of the buffer and compares its signature. */
    method Inspect(k: nat) returns (ok: bool, signed: bool)
      requires Shaped()
      modifies this`answers, readBuffer
      ensures Shaped() && (ok <==> !Fails(old(answers), 0)) && answers == Behind(old(answers), 1)
      ensures ok ==> HoldsSectors(k, 1)
      ensures ok ==> forall t: int :: IsDescriptor(k, t) <==> signed && readBuffer[0] == t
    {
      ok := ReadSectors(k, 1);
      signed := readBuffer[1..7] == SIGNATURE;
      if ok {
        assert readBuffer[0] == DiscByte(k * SECTOR_SIZE + 0);
        forall j: nat | j < 6
          ensures DiscByte(k * SECTOR_SIZE + (1 + j)) == readBuffer[1..7][j]
        {
          assert readBuffer[1 + j] == DiscByte(k * SECTOR_SIZE + (1 + j));
        }
      }
    }

    /** read_volume_descriptor; it goes behind the cache's back, which is empty then. It finds the first matching
        descriptor unless a read fails or the last descriptor comes before it. */
    method ReadVolumeDescriptor(descriptor: Byte) returns (sector: nat, found: bool)
      requires Valid() && cacheSectors == 0
      modifies this`answers, readBuffer
      ensures Valid() && cacheSectors == 0 && cacheStart == old(cacheStart)
      ensures 16 <= sector <= 32 && forall k: nat :: 16 <= k < sector ==> Passed(old(answers), k, descriptor)
      ensures found <==> sector < 32 && !Fails(old(answers), sector - 16) && IsDescriptor(sector, descriptor)
      ensures found ==> HoldsSectors(sector, 1)
      ensures !found && sector < 32 ==> Fails(old(answers), sector - 16) || IsDescriptor(sector, 0xff)
    {
      sector := 16;
      found := false;
      while sector < 32
        invariant 16 <= sector <= 32 && Valid() && cacheSectors == 0 && cacheStart == old(cacheStart)
        invariant answers == Behind(old(answers), sector - 16)
        invariant forall k: nat :: 16 <= k < sector ==> Passed(old(answers), k, descriptor)
      {
        var ok, signed := Inspect(sector);
        if !ok {
          return;
        }
        if signed {
          if readBuffer[0] == descriptor {
            return sector, true;
          } else if readBuffer[0] == 0xff {
            return;
          }
        }
        sector := sector + 1;
      }
    }

    /** _ISO9660_mdescr_constructor, up to the volume descriptor. */
    constructor (disc: nat -> seq<Byte>, answers: seq<Answer>)
      requires forall k: nat :: |disc(k)| == SECTOR_SIZE
      requires forall i :: 0 <= i < |answers| && answers[i].Bad? ==> |answers[i].left| == BUFFER_SIZE
      ensures Valid() && this.disc == disc && cacheSectors == 0 && fresh(readBuffer)
    {
      this.disc := disc;
      this.answers := answers;
      readBuffer := new Byte[BUFFER_SIZE];
      cacheStart, cacheSectors := 0, 0;
      new;
      var sector, found := ReadVolumeDescriptor(2);
      if !found {
        sector, found := ReadVolumeDescriptor(1);
      }
    }

    /** The bytes of the disc from offset on are in ptr at `at`; the rest of ptr is as it was. */
    static ghost predicate Copied(was: seq<Byte>, now: seq<Byte>, m: Mount, at: nat, offset: nat, n: nat)
      requires forall k: nat :: |m.disc(k)| == SECTOR_SIZE
    {
      && |now| == |was| && at + n <= |was|
      && (forall i {:trigger now[i]} :: at <= i < at + n ==> now[i] == m.DiscByte(offset + (i - at)))
      && (forall i {:trigger now[i]} :: 0 <= i < |was| && !(at <= i < at + n) ==> now[i] == was[i])
    }

    /** The sectors asked for hold all the bytes asked for. */
    lemma Covered(offset: nat, len0: nat)
      requires len0 > 0
      ensures var sector, o := offset / SECTOR_SIZE, offset % SECTOR_SIZE;
              var sectors := Least(BUFFER_SECTORS, (offset + len0 - 1) / SECTOR_SIZE - sector + 1);
              && 0 < sectors && o + Least(BUFFER_SIZE - o, len0) <= sectors * SECTOR_SIZE
              && offset == sector * SECTOR_SIZE + o
    {
    }

    /** memcpy out of the cache */
    method CopyOut(ptr: array<Byte>, at: nat, from: nat, n: nat, ghost offset: nat)
      requires Valid() && cacheSectors != 0 && ptr != readBuffer && from + n <= BUFFER_SIZE && at + n <= ptr.Length
      requires offset == cacheStart * SECTOR_SIZE + from
      modifies ptr
      ensures Valid() && Copied(old(ptr[..]), ptr[..], this, at, offset, n)
    {
      hide DiscByte;
      forall i | 0 <= i < n {
        ptr[at + i] := readBuffer[from + i];
      }
      forall i | at <= i < at + n
        ensures ptr[..][i] == DiscByte(offset + (i - at))
      {
        assert ptr[at + (i - at)] == readBuffer[from + (i - at)];
      }
    }

    /** __read: at most one buffer's worth, from the cache or from the drive. */
    method ReadOnce(ptr: array<Byte>, at: nat, offset: nat, len0: nat) returns (ret: int)
      requires Valid() && ptr != readBuffer && 0 < len0 && at + len0 <= ptr.Length
      requires (offset + len0) / SECTOR_SIZE + BUFFER_SECTORS < WORD
      modifies this, readBuffer, ptr
      ensures Valid()
      ensures ret == -1 || ret == Least(BUFFER_SIZE - offset % SECTOR_SIZE, len0)
      ensures ret == -1 ==> old(answers) != [] && old(answers)[0].Bad? && ptr[..] == old(ptr[..]) && cacheSectors == 0
      ensures ret != -1 ==> Copied(old(ptr[..]), ptr[..], this, at, offset, ret)
      ensures answers == old(answers) || (old(answers) != [] && answers == old(answers)[1..])
      ensures var first, last := offset / SECTOR_SIZE, (offset + len0 - 1) / SECTOR_SIZE;
              old(cacheSectors) != 0 && first >= old(cacheStart) && last < old(cacheStart) + BUFFER_SECTORS ==>
                ret == len0 && answers == old(answers) && cacheStart == old(cacheStart)
    {
      hide DiscByte;
      var sector := offset / SECTOR_SIZE;
      var endSector := (offset + len0 - 1) / SECTOR_SIZE;
      var sectors := Least(BUFFER_SECTORS, endSector - sector + 1);
      var sectorOffset := offset % SECTOR_SIZE;
      var len := Least(BUFFER_SIZE - sectorOffset, len0);
      Covered(offset, len0);
      if cacheSectors != 0 && sector >= cacheStart && sector + sectors <= cacheStart + cacheSectors {
        CopyOut(ptr, at, (sector - cacheStart) * SECTOR_SIZE + sectorOffset, len, offset);
        return len;
      }
      var ok := ReadSectors(sector, BUFFER_SECTORS);
      if !ok {
        cacheSectors := 0;
        return -1;
      }
      cacheStart := sector;
      cacheSectors := BUFFER_SECTORS;
      CopyOut(ptr, at, sectorOffset, len, offset);
      ret := len;
    }

    lemma CopiedMore(s0: seq<Byte>, s1: seq<Byte>, s2: seq<Byte>, n: nat, offset: nat, m: nat)
      requires forall k: nat :: |disc(k)| == SECTOR_SIZE
      requires Copied(s0, s1, this, 0, offset, n) && Copied(s1, s2, this, n, offset + n, m)
      ensures Copied(s0, s2, this, 0, offset, n + m)
    {
      hide DiscByte;
      forall i | 0 <= i < n + m
        ensures s2[i] == DiscByte(offset + i)
      {
        if i < n { assert s2[i] == s1[i]; } else { assert offset + n + (i - n) == offset + i; }
      }
    }

    /** _read: all of it, or a failure of the drive. */
    method ReadAll(ptr: array<Byte>, offset: nat, len: nat) returns (read: int)
      requires Valid() && ptr != readBuffer && len <= ptr.Length && len < HALF_WORD
      requires (offset + len) / SECTOR_SIZE + BUFFER_SECTORS < WORD
      modifies this, readBuffer, ptr
      ensures Valid()
      ensures read == len || read == -1
      ensures read == len ==> Copied(old(ptr[..]), ptr[..], this, 0, offset, len)
      ensures (forall i :: 0 <= i < |old(answers)| ==> old(answers)[i].Good?) ==> read == len
    {
      hide DiscByte;
      read := 0;
      while read < len
        invariant 0 <= read <= len && Valid() && Copied(old(ptr[..]), ptr[..], this, 0, offset, read)
        invariant (forall i :: 0 <= i < |old(answers)| ==> old(answers)[i].Good?) ==> forall i :: 0 <= i < |answers| ==>
                  answers[i].Good?
      {
        ghost var was := ptr[..];
        var ret := ReadOnce(ptr, read, offset + read, len - read);
        if ret > 0 {
          CopiedMore(old(ptr[..]), was, ptr[..], read, offset, ret);
          read := read + ret;
        } else if ret == 0 {
          break;
        } else {
          return -1;
        }
      }
    }
  }

  /** An open file. */
  class OpenFile {
    const mount: Mount
    const entry: DirEntry
    var offset: nat
    var inUse: bool

    constructor (mount: Mount, entry: DirEntry)
      ensures this.mount == mount && this.entry == entry && offset == 0 && inUse
    {
      this.mount, this.entry, offset, inUse := mount, entry, 0, true;
    }

    /** The file's bytes, from its first sector on. */
    ghost function FileByte(j: nat): int
      requires forall k: nat :: |mount.disc(k)| == SECTOR_SIZE
    {
      mount.DiscByte(entry.sector * SECTOR_SIZE + j)
    }

    /** How many bytes a read of len at the current position yields. */
    function Available(len: nat): nat
      reads this`offset
    {
      if offset >= entry.size then 0 else Least(len, entry.size - offset)
    }

    static lemma SectorBound(a: nat, b: nat)
      requires a <= b
      ensures a / SECTOR_SIZE <= b / SECTOR_SIZE
    {
    }

    /** _ISO9660_read_r: exactly the file's bytes from the position to the end of the request or of the file. */
    method Read(ptr: array<Byte>, len0: nat) returns (ret: int)
      requires mount.Valid() && ptr != mount.readBuffer && len0 <= ptr.Length && len0 < HALF_WORD
      requires (entry.sector * SECTOR_SIZE + entry.size) / SECTOR_SIZE + BUFFER_SECTORS < WORD
      modifies this`offset, mount, mount.readBuffer, ptr
      ensures mount.Valid()
      ensures ret == -1 || (inUse && ret == old(Available(len0)))
      ensures ret == -1 ==> offset == old(offset)
      ensures ret >= 0 ==> offset == old(offset) + ret
      ensures ret >= 0 ==> forall i :: 0 <= i < ret ==> ptr[i] == FileByte(old(offset) + i)
      ensures ret >= 0 ==> forall i :: ret <= i < ptr.Length ==> ptr[i] == old(ptr[i])
      ensures inUse && (forall i :: 0 <= i < |old(mount.answers)| ==> old(mount.answers)[i].Good?) ==> ret >= 0
    {
      hide Mount.DiscByte;
      if !inUse {
        return -1;
      }
      if offset >= entry.size {
        return 0;
      }
      var len := len0;
      if len + offset > entry.size {
        len := entry.size - offset;
      }
      if len == 0 {
        return 0;
      }
      var at := entry.sector * SECTOR_SIZE + offset;
      SectorBound(at + len, entry.sector * SECTOR_SIZE + entry.size);
      ret := mount.ReadAll(ptr, at, len);
      if ret < 0 {
        return -1;
      }
      offset := offset + ret;
      assert forall i :: 0 <= i < ret ==> ptr[..][i] == ptr[i];
    }
  }
}
