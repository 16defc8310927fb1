/** The page-table-entry layout and the address split of `mm.h`, and the two setters of `mm.c`. */
module Pte {
  import opened Bits
  import opened PageEntry

  const PRESENT_MASK := Bit(31)
  const SWAPPED_MASK := Bit(30)
  const FPN_MASK := GenMask(12, 0)
  const SWPTYP_MASK := GenMask(4, 0)
  const SWPOFF_MASK := GenMask(25, 5)
  const SWPOFF_LOBIT: bv8 := 5
  const PAGE_LOBIT: bv8 := NBits(256)
  const OFFST_MASK := GenMask(PAGE_LOBIT - 1, 0)
  const PGN_MASK := GenMask(21, PAGE_LOBIT)

  function SetVal(v: Word, value: Word, mask: Word, offst: bv8): Word
    requires offst < BITS_PER_LONG
  {
    (v & !mask) | ((value << offst) & mask)
  }

  function GetVal(v: Word, mask: Word, offst: bv8): Word
    requires offst < BITS_PER_LONG
  {
    (v & mask) >> offst
  }

  function SetFpn(pte: Word, fpn: Word): Word {
    SetVal((pte | PRESENT_MASK) & !SWAPPED_MASK, fpn, FPN_MASK, 0)
  }

  function SetSwap(pte: Word, swptyp: Word, swpoff: Word): Word {
    SetVal(SetVal(pte | PRESENT_MASK | SWAPPED_MASK, swptyp, SWPTYP_MASK, 0), swpoff, SWPOFF_MASK, SWPOFF_LOBIT)
  }

  predicate Present(pte: Word) {
    pte & PRESENT_MASK != 0
  }

  predicate SwappedBit(pte: Word) {
    pte & SWAPPED_MASK != 0
  }

  function FpnField(pte: Word): Word {
    GetVal(pte, FPN_MASK, 0)
  }

  function SwpField(pte: Word): Word {
    GetVal(pte, SWPOFF_MASK, SWPOFF_LOBIT)
  }

  function Pgn(addr: Word): Word {
    GetVal(addr, PGN_MASK, PAGE_LOBIT)
  }

  function Offst(addr: Word): Word {
    GetVal(addr, OFFST_MASK, 0)
  }

  /** What the bits of an entry say about its page. */
  function Decode(pte: Word): Entry {
    if !Present(pte) then Unmapped
    else if SwappedBit(pte) then Swapped(SwpField(pte) as int)
    else Resident(FpnField(pte) as int)
  }

  lemma Masks()
    ensures FPN_MASK == 0x1FFF && SWPTYP_MASK == 0x1F && SWPOFF_MASK == 0x3FFFFE0
    ensures PAGE_LOBIT == 8 && OFFST_MASK == 0xFF && PGN_MASK == 0x3FFF00
  {
  }

  // Words and numbers. The solver relates the two bit by bit only, so the bridge is built by doubling and, for
  // the address split, on vectors no wider than the fields.

  lemma Double(w: Word)
    requires w < 0x40_0000
    ensures (w << 1) as int == 2 * (w as int) && ((w << 1) | 1) as int == 2 * (w as int) + 1
  {
  }

  lemma WordOf(n: int) returns (w: Word)
    requires 0 <= n < 0x40_0000
    ensures w as int == n && w < 0x40_0000
  {
    if n == 0 {
      w := 0;
    } else {
      var half := WordOf(n / 2);
      Double(half);
      w := if n % 2 == 0 then half << 1 else (half << 1) | 1;
    }
  }

  lemma WordRoundTrip(n: int)
    requires 0 <= n < 0x40_0000
    ensures (n as Word) as int == n
  {
    var w := WordOf(n);
    assert (w as int) as Word == w;
  }

  lemma WordBelow(w: Word)
    ensures w as int < 0x2000 ==> w < 0x2000
    ensures w as int < 0x20_0000 ==> w < 0x20_0000
    ensures w as int < 0x40_0000 ==> w < 0x40_0000
  {
  }

  lemma SplitWord(w: Word) returns (hi: bv14, lo: bv8)
    requires w < 0x40_0000
    ensures w == ((hi as Word) << 8) | (lo as Word) && hi as Word == w >> 8 && lo as Word == w & 0xFF
  {
    hi, lo := (w >> 8) as bv14, (w & 0xFF) as bv8;
  }

  lemma JoinIsSum(hi: bv14, lo: bv8)
    ensures (((hi as Word) << 8) | (lo as Word)) as int == (hi as int) * PAGESZ + lo as int
    ensures (hi as Word) as int == hi as int && (lo as Word) as int == lo as int && 0 <= lo as int < PAGESZ
  {
  }

  lemma WordIsSum(w: Word)
    requires w < 0x40_0000
    ensures w as int == ((w >> 8) as int) * PAGESZ + (w & 0xFF) as int && 0 <= (w & 0xFF) as int < PAGESZ
  {
    var hi, lo := SplitWord(w);
    JoinIsSum(hi, lo);
  }

  lemma QuotientOfSum(n: int, hi: int, lo: int)
    requires n == hi * PAGESZ + lo && 0 <= lo < PAGESZ
    ensures n / PAGESZ == hi && n % PAGESZ == lo
  {
  }

  /** On every virtual address the page number and the offset are quotient and remainder by the page size. */
  lemma SplitIsDivMod(addr: int)
    requires 0 <= addr < MAX_PGN * PAGESZ
    ensures Pgn(addr as Word) as int == addr / PAGESZ && Offst(addr as Word) as int == addr % PAGESZ
  {
    WordRoundTrip(addr);
    WordBelow(addr as Word);
    var w := addr as Word;
    WordIsSum(w);
    QuotientOfSum(addr, (w >> 8) as int, (w & 0xFF) as int);
  }

  /** The page number and the offset determine the address, and the address determines them. */
  lemma SplitJoin(addr: Word, pgn: Word, off: Word)
    requires addr < 0x40_0000 && pgn < 0x4000 && off < 0x100
    ensures (Pgn(addr) << PAGE_LOBIT) + Offst(addr) == addr && Pgn(addr) < 0x4000 && Offst(addr) < 0x100
    ensures Pgn((pgn << PAGE_LOBIT) + off) == pgn && Offst((pgn << PAGE_LOBIT) + off) == off
  {
    Masks();
  }

  // ---------------------------------------------------------------------------------------------------------
  // Sequences of writes to one entry
  // ---------------------------------------------------------------------------------------------------------

  datatype Write = ToFrame(fpn: int) | ToSwap(swpoff: int)

  predicate WriteOk(w: Write) {
    match w
    case ToFrame(f) => 0 <= f < MAX_FRAMES
    case ToSwap(s) => 0 <= s < MAX_SWAP_FRAMES
  }

  function Target(w: Write): Entry {
    match w
    case ToFrame(f) => Resident(f)
    case ToSwap(s) => Swapped(s)
  }

  function Apply(pte: Word, w: Write): Word
    requires WriteOk(w)
  {
    match w
    case ToFrame(f) => SetFpn(pte, f as Word)
    case ToSwap(s) => SetSwap(pte, 0, s as Word)
  }

  function ApplyAll(pte: Word, ws: seq<Write>): Word
    requires forall k :: 0 <= k < |ws| ==> WriteOk(ws[k])
    decreases |ws|
  {
    if ws == [] then pte else ApplyAll(Apply(pte, ws[0]), ws[1..])
  }

  lemma DecodeSetFpn(pte: Word, fpn: int)
    requires 0 <= fpn < MAX_FRAMES
    ensures Decode(SetFpn(pte, fpn as Word)) == Resident(fpn)
  {
    WordRoundTrip(fpn);
    WordBelow(fpn as Word);
    Masks();
  }

  lemma DecodeSetSwap(pte: Word, swptyp: Word, swpoff: int)
    requires 0 <= swpoff < MAX_SWAP_FRAMES
    ensures Decode(SetSwap(pte, swptyp, swpoff as Word)) == Swapped(swpoff)
  {
    WordRoundTrip(swpoff);
    WordBelow(swpoff as Word);
    Masks();
  }

  /** After any sequence of entry writes the entry decodes to what the last one wrote, for every frame of the
      largest RAM and the largest swap. */
  lemma {:induction false} LastWriteWins(pte: Word, ws: seq<Write>)
    requires ws != [] && forall k :: 0 <= k < |ws| ==> WriteOk(ws[k])
    ensures Decode(ApplyAll(pte, ws)) == Target(ws[|ws| - 1])
    decreases |ws|
  {
    if |ws| == 1 {
      assert ws[1..] == [];
      match ws[0]
      case ToFrame(f) => DecodeSetFpn(pte, f);
      case ToSwap(s) => DecodeSetSwap(pte, 0, s);
    } else {
      LastWriteWins(Apply(pte, ws[0]), ws[1..]);
    }
  }

  lemma LowByte(w: Word)
    requires w < 0x40_0000
    ensures ((w & 0xFF) << 5) as int == 32 * (w as int % 256)
  {
    var hi, lo := SplitWord(w);
    WordIsSum(w);
    QuotientOfSum(w as int, (w >> 8) as int, (w & 0xFF) as int);
  }

  lemma ScaledRemainder(n: int)
    requires 0 <= n
    ensures 32 * (n % 256) == 32 * n % MAX_FRAMES
  {
  }

  lemma FpnFieldSetSwap(pte: Word, swpoff: int)
    requires 0 <= swpoff < MAX_SWAP_FRAMES
    ensures FpnField(SetSwap(pte, 0, swpoff as Word)) as int == FrameField(Swapped(swpoff))
  {
    WordRoundTrip(swpoff);
    WordBelow(swpoff as Word);
    LowByte(swpoff as Word);
    ScaledRemainder(swpoff);
  }
}
