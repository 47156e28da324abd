/** Addresses and sizes fixed by the build configuration: 32-bit words, 32-byte alignment, footers on. */
module Layout {

  const CHUNK_OVERHEAD := 8
  const MIN_CHUNK_SIZE := 32
  const MALLOC_ALIGNMENT := 32
  const TOP_FOOT_SIZE := 88
  const NSMALLBINS := 32

  /** The static malloc_state lies below every heap segment. */
  const GM := 0x8000_4000
  const HEAP_LOW := 0x8000_5000

  /** The pseudo-chunk address of a small bin: its fd and bk words are the two words of the bin. */
  function SmallBinAt(i: nat): int {
    GM + 40 + 8 * i
  }

  /** The address of the root word of a tree bin. */
  function TreeBinAt(i: nat): int {
    GM + 304 + 4 * i
  }

  predicate IsSmall(s: int) {
    s / 8 < NSMALLBINS
  }

  function SmallIndex(s: nat): nat {
    s / 8
  }

  predicate IsHeader(a: int) {
    exists i: nat :: i < NSMALLBINS && a == SmallBinAt(i)
  }

  /** Head words: the size with the pinuse bit 1 and the cinuse bit 2 in its low bits. */
  function ChunkSize(h: int): int {
    h - h % 8
  }

  const MIN_REQUEST := 23
  const MAX_SMALL_REQUEST := 216
  const MAX_REQUEST := 0xFFFF_FF80

  /** pad_request */
  function PadRequest(req: nat): nat {
    (req + CHUNK_OVERHEAD + 31) - (req + CHUNK_OVERHEAD + 31) % 32
  }

  /** request2size */
  function RequestSize(req: nat): nat {
    if req < MIN_REQUEST then MIN_CHUNK_SIZE else PadRequest(req)
  }

  /** A chunk of the padded size has room for the request and its overhead, and less than one chunk to spare. */
  lemma RequestFits(req: nat)
    requires req < MAX_REQUEST
    ensures var nb := RequestSize(req);
            && nb % 32 == 0 && MIN_CHUNK_SIZE <= nb < 0x1_0000_0000 - 32
            && req + CHUNK_OVERHEAD <= nb < req + CHUNK_OVERHEAD + 32
  {
  }

  /** Requests up to MAX_SMALL_REQUEST are exactly those whose padded size belongs in a small bin. */
  lemma SmallRequest(req: nat)
    requires req < MAX_REQUEST
    ensures req <= MAX_SMALL_REQUEST <==> IsSmall(RequestSize(req))
  {
  }
}
