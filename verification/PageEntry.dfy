/** Page-table entries by what they say, and the sizes `mm.h` allows. */
module PageEntry {

  // Sizes promised by mm.h: 22-bit virtual addresses, 256-byte pages, at most 2^21 bytes of RAM and 2^29 of swap.
  const PAGESZ := 256
  const MAX_PGN := 16384
  const MAX_FRAMES := 8192
  const MAX_SWAP_FRAMES := 2097152

  /** What an entry says about its page. */
  datatype Entry = Unmapped | Resident(fpn: int) | Swapped(off: int)

  /** The frame the FPN field of an entry points at: the frame itself while resident; for a swapped-out page the
      thirteen low bits of the swap fields, which name an unrelated frame. */
  function FrameField(e: Entry): int {
    match e
    case Unmapped => 0
    case Resident(f) => f
    case Swapped(s) => 32 * s % MAX_FRAMES
  }
}
